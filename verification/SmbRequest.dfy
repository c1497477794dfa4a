/** The validated SMB change and the lines it writes (src/smb_share_write.rs). */
module SmbRequest {
  import opened Wrappers
  import opened Text
  import opened Ordering

  const MAX_USERS := 64

  datatype Security = Public | Secure | Private {
    function AsStr(): string {
      match this
      case Public => "public"
      case Secure => "secure"
      case Private => "private"
    }
  }

  datatype Request = Request(share: string, security: Security, readList: seq<string>, writeList: seq<string>)

  function ParseSecurity(s: string): Option<Security> {
    if s == "public" then Some(Public)
    else if s == "secure" then Some(Secure)
    else if s == "private" then Some(Private)
    else None
  }

  predicate ValidUser(u: string) {
    && 0 < |u| <= 32
    && IsLowerAscii(u[0])
    && forall i | 0 <= i < |u| :: IsLowerAscii(u[i]) || IsDigitAscii(u[i]) || u[i] in "_-."
  }

  predicate ValidShareName(s: string) {
    && 0 < |s| <= 64
    && s[0] !in ". " && s[|s| - 1] != ' '
    && forall i | 0 <= i < |s| :: IsAlnumAscii(s[i]) || s[i] in " _-.+()"
  }

  /** `SmbShareRequest::new`: the checks, in the source's order. */
  function NewRequest(share: string, security: string, read: seq<string>, write: seq<string>): Result<Request, string> {
    if !ValidShareName(share) then Err("invalid share name")
    else match ParseSecurity(security)
      case None => Err("invalid security")
      case Some(mode) =>
        if |read| > MAX_USERS then Err("readList is too long")
        else if |write| > MAX_USERS then Err("writeList is too long")
        else if exists u | u in read + write :: !ValidUser(u) then Err("invalid user name")
        else if mode == Public && (read != [] || write != []) then Err("lists would be ignored")
        else if mode == Secure && read != [] then Err("readList would be ignored")
        else if mode == Private && read == [] && write == [] then Err("private needs a user")
        else Ok(Request(share, mode, read, write))
  }

  predicate ValidRequest(req: Request) {
    NewRequest(req.share, req.security.AsStr(), req.readList, req.writeList) == Ok(req)
  }

  function Dedup(s: seq<string>): seq<string> {
    if |s| < 2 then s
    else if s[0] == s[1] then Dedup(s[1..])
    else [s[0]] + Dedup(s[1..])
  }

  lemma {:induction false} DedupKeeps(s: seq<string>)
    ensures forall x :: x in Dedup(s) <==> x in s
  {
    if |s| < 2 {
    } else {
      DedupKeeps(s[1..]);
      assert s == [s[0]] + s[1..];
    }
  }

  /** The users a private share admits. */
  function PrivateUsers(req: Request): seq<string> {
    Dedup(Sort(req.readList + req.writeList))
  }

  function Setting(key: string, value: string): string {
    key + " = " + value
  }

  function WriteListLine(req: Request): seq<string> {
    if req.writeList == [] then [] else [Setting("write list", Join(req.writeList, ","))]
  }

  /** How each mode is spelled in the section. */
  function AccessLines(req: Request): seq<string> {
    match req.security
    case Public => [Setting("public", "yes"), Setting("writeable", "yes")]
    case Secure => [Setting("public", "yes"), Setting("writeable", "no")] + WriteListLine(req)
    case Private =>
      [Setting("public", "no"), Setting("writeable", "no"),
       Setting("valid users", Join(PrivateUsers(req), ","))] + WriteListLine(req)
  }

  function CfgUpdates(req: Request): seq<(string, string)> {
    [("shareSecurity", req.security.AsStr()),
     ("shareReadList", Join(req.readList, ",")),
     ("shareWriteList", Join(req.writeList, ","))]
  }
}
