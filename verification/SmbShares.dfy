/** The reader of Samba share sections (src/smb_shares.rs), written apart from the rewriter. */
module SmbShares {
  import opened Text

  datatype SmbShare = SmbShare(
    name: string, path: string, guestOk: bool, guestOnly: bool, guestAccount: string,
    writeable: bool, validUsers: seq<string>, writeList: seq<string>, invalidUsers: seq<string>)
  {
    /** Guests can connect: `public` set and no `valid users` gate. */
    predicate GuestsAdmitted() {
      guestOk && validUsers == []
    }

    /** Anyone can write without authenticating. */
    predicate GuestWritable() {
      GuestsAdmitted() && (writeable || guestAccount in writeList)
    }

    function Mode(): string {
      if GuestWritable() then "public" else if GuestsAdmitted() then "secure" else "private"
    }
  }

  function NewShare(name: string): SmbShare {
    SmbShare(name, "", false, false, "", false, [], [], [])
  }

  predicate Yes(v: string) {
    Lower(Trim(v)) in ["yes", "true", "1"]
  }

  function CommaForSpace(c: char): char {
    if c == ' ' then ',' else c
  }

  function CommasForSpaces(s: string): (r: string)
    ensures |r| == |s| && forall i | 0 <= i < |s| :: r[i] == CommaForSpace(s[i])
  {
    seq(|s|, i requires 0 <= i < |s| => CommaForSpace(s[i]))
  }

  function TrimAll(parts: seq<string>): (r: seq<string>)
    ensures |r| == |parts| && forall i | 0 <= i < |r| :: r[i] == Trim(parts[i])
  {
    seq(|parts|, i requires 0 <= i < |parts| => Trim(parts[i]))
  }

  /** A user list: split at commas and spaces, blanks dropped. */
  function Users(v: string): seq<string> {
    NonEmpty(TrimAll(Split(CommasForSpaces(v), ',')))
  }

  /** The settings the reader knows, synonyms folded. */
  datatype Key = Path | GuestOk | GuestOnly | GuestAccountKey | Writeable | ReadOnly
    | ValidUsers | WriteList | InvalidUsers | Unknown

  function KeyOf(k: string): Key {
    if k == "path" then Path
    else if k == "public" || k == "guest ok" then GuestOk
    else if k == "guest only" || k == "only guest" then GuestOnly
    else if k == "guest account" then GuestAccountKey
    else if k == "writeable" || k == "writable" then Writeable
    else if k == "read only" then ReadOnly
    else if k == "valid users" then ValidUsers
    else if k == "write list" then WriteList
    else if k == "invalid users" then InvalidUsers
    else Unknown
  }

  /** The effect of one `key = value` line on the section it is in. */
  function Set(cur: SmbShare, key: Key, v: string): SmbShare {
    match key
    case Path => cur.(path := Trim(v))
    case GuestOk => cur.(guestOk := Yes(v))
    case GuestOnly => cur.(guestOnly := Yes(v))
    case GuestAccountKey => cur.(guestAccount := Trim(v))
    case Writeable => cur.(writeable := Yes(v))
    case ReadOnly => cur.(writeable := !Yes(v))
    case ValidUsers => cur.(validUsers := Users(v))
    case WriteList => cur.(writeList := Users(v))
    case InvalidUsers => cur.(invalidUsers := Users(v))
    case Unknown => cur
  }

  predicate IsComment(t: string) {
    t == "" || t[0] == '#' || t[0] == ';'
  }

  /** The sections read so far, after one more trimmed line. */
  function ReadLine(out: seq<SmbShare>, t: string): seq<SmbShare> {
    if IsComment(t) then out
    else if Bracketed(t).Some? then out + [NewShare(Bracketed(t).value)]
    else if out == [] then out
    else match SplitOnce(t, '=')
      case None => out
      case Some((k, v)) => out[|out| - 1 := Set(out[|out| - 1], KeyOf(Lower(Trim(k))), v)]
  }

  function ReadLines(out: seq<SmbShare>, lines: seq<string>): seq<SmbShare>
    decreases lines
  {
    if lines == [] then out else ReadLines(ReadLine(out, Trim(lines[0])), lines[1..])
  }

  /** The guest account of the first `global` section that names one. */
  function GuestAccount(out: seq<SmbShare>): string {
    if out == [] then "nobody"
    else if out[0].name == "global" && out[0].guestAccount != "" then out[0].guestAccount
    else GuestAccount(out[1..])
  }

  /** The sections that are no shares. */
  predicate IsReserved(name: string) {
    name in ["global", "homes", "printers"]
  }

  /** The shares proper, each with the account guests run as. */
  function Shares(out: seq<SmbShare>, account: string): seq<SmbShare> {
    if out == [] then []
    else if IsReserved(out[0].name) then Shares(out[1..], account)
    else [out[0].(guestAccount := account)] + Shares(out[1..], account)
  }

  function ParseText(text: string): seq<SmbShare> {
    var out := ReadLines([], Lines(text));
    Shares(out, GuestAccount(out))
  }

  lemma {:induction false} ReadLinesAppend(out: seq<SmbShare>, a: seq<string>, b: seq<string>)
    ensures ReadLines(out, a + b) == ReadLines(ReadLines(out, a), b)
    decreases a
  {
    if a == [] {
      assert a + b == b;
    } else {
      assert (a + b)[1..] == a[1..] + b;
      ReadLinesAppend(ReadLine(out, Trim(a[0])), a[1..], b);
    }
  }

  /** The reader's loop: a header opens a section, a setting updates the last one in place. */
  method Parse(text: string) returns (r: seq<SmbShare>)
    ensures r == ParseText(text)
  {
    hide Lines, Trim, Bracketed, KeyOf, Lower, Set, GuestAccount, IsReserved;
    var out: seq<SmbShare> := [];
    var lines := Lines(text);
    for i := 0 to |lines|
      invariant ReadLines(out, lines[i..]) == ReadLines([], lines)
    {
      var line := Trim(lines[i]);
      assert lines[i..][1..] == lines[i + 1..];
      if line == "" || line[0] == '#' || line[0] == ';' {
        continue;
      }
      if Bracketed(line).Some? {
        out := out + [NewShare(Bracketed(line).value)];
        continue;
      }
      if out != [] && SplitOnce(line, '=').Some? {
        var (k, v) := SplitOnce(line, '=').value;
        var last := |out| - 1;
        out := out[last := Set(out[last], KeyOf(Lower(Trim(k))), v)];
      }
    }
    r := [];
    var account := GuestAccount(out);
    for i := 0 to |out|
      invariant r + Shares(out[i..], account) == Shares(out, account)
    {
      assert out[i..][1..] == out[i + 1..];
      if !IsReserved(out[i].name) {
        r := r + [out[i].(guestAccount := account)];
      }
    }
  }
}
