/**
 The one-pass rewriter of an smb.conf section (src/smb_share_write.rs): it is
 the two-phase edit "group continued lines, then drop or keep whole groups".
 */
module SmbRewrite {
  import opened Wrappers
  import opened Text

  /** The normal forms of the keys the rewriter replaces. */
  predicate IsAccessKey(k: string) {
    k in [
      "public", "guestok", "guestonly", "onlyuser", "writeable", "writable", "writeok", "readonly",
      "validusers", "invalidusers", "writelist", "readlist", "username", "user", "users",
      "adminusers", "forceuser", "forcegroup"
    ]
  }

  /**
   `char::to_lowercase`, as far as it can lead to an ASCII key: beside the ASCII capitals
   only the Kelvin sign becomes a single ASCII letter.
   */
  function LowerKeyChar(c: char): char {
    if c == '\U{212A}' then 'k' else LowerChar(c)
  }

  /** A key as Samba compares it: no white space, no `_`, lower case. */
  function NormalizeKey(k: string): string {
    if k == "" then ""
    else if IsSpace(k[0]) || k[0] == '_' then NormalizeKey(k[1..])
    else [LowerKeyChar(k[0])] + NormalizeKey(k[1..])
  }

  function HeaderName(line: string): Option<string> {
    Bracketed(Trim(line))
  }

  predicate Matches(name: string, header: string) {
    Lower(Trim(name)) == header
  }

  predicate Continues(line: string) {
    EndsWith(Trim(line), '\\')
  }

  predicate IsAccessLine(line: string) {
    match SplitOnce(Trim(line), '=')
    case Some((k, _)) => IsAccessKey(NormalizeKey(k))
    case None => false
  }

  function Tabbed(access: seq<string>): (r: seq<string>)
    ensures |r| == |access|
    ensures forall i | 0 <= i < |r| :: r[i] == "\t" + access[i]
  {
    seq(|access|, i requires 0 <= i < |access| => "\t" + access[i])
  }

  // ---- The two-phase edit -----------------------------------------------------

  /** How many physical lines the first logical line has. */
  function GroupLength(lines: seq<string>): (n: nat)
    ensures n <= |lines|
    ensures lines != [] ==> n > 0
  {
    if lines == [] then 0
    else if Continues(lines[0]) then 1 + GroupLength(lines[1..])
    else 1
  }

  /** A logical line: one physical line and those that continue it. */
  type Group = g: seq<string> | g != [] witness [""]

  function LogicalLines(lines: seq<string>): seq<Group>
    decreases |lines|
  {
    if lines == [] then []
    else [lines[..GroupLength(lines)]] + LogicalLines(lines[GroupLength(lines)..])
  }

  /** Whether the lines after this logical line belong to the matching section. */
  function InsideAfter(group: Group, header: string, inside: bool): bool {
    match HeaderName(group[0])
    case Some(name) => Matches(name, header)
    case None => inside
  }

  /** What one logical line becomes. */
  function EditGroup(group: Group, header: string, access: seq<string>, inside: bool): seq<string> {
    match HeaderName(group[0])
    case Some(name) => group + if Matches(name, header) then Tabbed(access) else []
    case None => if inside && IsAccessLine(group[0]) then [] else group
  }

  function EditGroups(groups: seq<Group>, header: string, access: seq<string>, inside: bool): seq<string> {
    if groups == [] then []
    else
      EditGroup(groups[0], header, access, inside)
      + EditGroups(groups[1..], header, access, InsideAfter(groups[0], header, inside))
  }

  function Edited(lines: seq<string>, header: string, access: seq<string>, inside: bool): seq<string> {
    EditGroups(LogicalLines(lines), header, access, inside)
  }

  predicate IsMatchingHeader(group: Group, header: string) {
    HeaderName(group[0]).Some? && Matches(HeaderName(group[0]).value, header)
  }

  predicate HasSection(lines: seq<string>, header: string) {
    exists g | g in LogicalLines(lines) :: IsMatchingHeader(g, header)
  }

  /** The rewritten text; a conf without the section is refused. */
  function RewriteText(conf: string, share: string, access: seq<string>): Result<string, string> {
    if HasSection(Lines(conf), Lower(share))
    then Ok(Unlines(Edited(Lines(conf), Lower(share), access, false)))
    else Err("share '" + share + "' has no section: enable SMB on it in Unraid first")
  }

  // ---- The single pass computes it ---------------------------------------------

  lemma HeaderDoesNotContinue(line: string)
    requires HeaderName(line).Some?
    ensures !Continues(line)
  {}

  /** What is still to be written when `rest` is left and the flags are as given. */
  ghost function Remaining(rest: seq<string>, header: string, access: seq<string>,
                           inside: bool, continued: Option<bool>): seq<string>
  {
    match continued
    case None => Edited(rest, header, access, inside)
    case Some(drop) =>
      (if drop then [] else rest[..GroupLength(rest)])
      + Edited(rest[GroupLength(rest)..], header, access, inside)
  }

  ghost predicate StillFinds(rest: seq<string>, header: string, continued: Option<bool>) {
    HasSection(if continued.None? then rest else rest[GroupLength(rest)..], header)
  }

  lemma GroupSplit(rest: seq<string>)
    requires rest != []
    ensures var n := GroupLength(rest);
            rest[n..] == rest[1..][n - 1..] && rest[..n] == [rest[0]] + rest[1..][..n - 1]
  {
    hide GroupLength;
  }

  lemma StepContinued(rest: seq<string>, header: string, access: seq<string>, inside: bool, drop: bool)
    requires rest != []
    ensures var continued := if Continues(rest[0]) then Some(drop) else None;
            Remaining(rest, header, access, inside, Some(drop))
              == (if drop then [] else [rest[0]]) + Remaining(rest[1..], header, access, inside, continued)
            && (StillFinds(rest, header, Some(drop)) <==> StillFinds(rest[1..], header, continued))
  {
    var n := GroupLength(rest);
    if Continues(rest[0]) {
      GroupSplit(rest);
      Assoc([rest[0]], rest[1..][..n - 1], Edited(rest[n..], header, access, inside));
    } else {
      assert rest[..n] == [rest[0]];
    }
  }

  lemma StepFresh(rest: seq<string>, header: string, access: seq<string>, inside: bool)
    requires rest != []
    ensures Edited(rest, header, access, inside)
         == EditGroup(rest[..GroupLength(rest)], header, access, inside)
            + Edited(rest[GroupLength(rest)..], header, access,
                     InsideAfter(rest[..GroupLength(rest)], header, inside))
    ensures HasSection(rest, header) <==>
              IsMatchingHeader(rest[..GroupLength(rest)], header)
              || HasSection(rest[GroupLength(rest)..], header)
  {
    var n := GroupLength(rest);
    var groups := LogicalLines(rest);
    assert groups[0] == rest[..n] && groups[1..] == LogicalLines(rest[n..]);
  }

  lemma StepHeader(rest: seq<string>, header: string, access: seq<string>, inside: bool)
    requires rest != [] && HeaderName(rest[0]).Some?
    ensures var now := Matches(HeaderName(rest[0]).value, header);
            Remaining(rest, header, access, inside, None)
              == [rest[0]] + (if now then Tabbed(access) else [])
                 + Remaining(rest[1..], header, access, now, None)
            && (StillFinds(rest, header, None) <==> now || StillFinds(rest[1..], header, None))
  {
    HeaderDoesNotContinue(rest[0]);
    assert rest[..GroupLength(rest)] == [rest[0]];
    StepFresh(rest, header, access, inside);
  }

  lemma StepPlain(rest: seq<string>, header: string, access: seq<string>, inside: bool)
    requires rest != [] && HeaderName(rest[0]).None?
    ensures var drop := inside && IsAccessLine(rest[0]);
            var continued := if Continues(rest[0]) then Some(drop) else None;
            Remaining(rest, header, access, inside, None)
              == (if drop then [] else [rest[0]]) + Remaining(rest[1..], header, access, inside, continued)
            && (StillFinds(rest, header, None) <==> StillFinds(rest[1..], header, continued))
  {
    hide IsAccessLine, HeaderName, Continues, Matches, Tabbed, HasSection, Edited, LogicalLines;
    var n := GroupLength(rest);
    StepFresh(rest, header, access, inside);
    if Continues(rest[0]) {
      GroupSplit(rest);
      Assoc([rest[0]], rest[1..][..n - 1], Edited(rest[n..], header, access, inside));
    } else {
      assert rest[..n] == [rest[0]];
    }
  }

  /** One line of the pass: what it writes and the flags it leaves. */
  lemma PassStep(rest: seq<string>, header: string, access: seq<string>,
                 inside: bool, continued: Option<bool>,
                 piece: seq<string>, inside': bool, continued': Option<bool>)
    requires rest != []
    requires match continued
             case Some(drop) =>
               && piece == (if drop then [] else [rest[0]])
               && inside' == inside
               && continued' == (if Continues(rest[0]) then continued else None)
             case None =>
               match HeaderName(rest[0])
               case Some(name) =>
                 && inside' == Matches(name, header)
                 && piece == [rest[0]] + (if inside' then Tabbed(access) else [])
                 && continued' == None
               case None =>
                 var drop := inside && IsAccessLine(rest[0]);
                 && piece == (if drop then [] else [rest[0]])
                 && inside' == inside
                 && continued' == (if Continues(rest[0]) then Some(drop) else None)
    ensures Remaining(rest, header, access, inside, continued)
         == piece + Remaining(rest[1..], header, access, inside', continued')
    ensures StillFinds(rest, header, continued) <==>
              (continued.None? && HeaderName(rest[0]).Some? && inside')
              || StillFinds(rest[1..], header, continued')
  {
    if continued.Some? {
      StepContinued(rest, header, access, inside, continued.value);
    } else if HeaderName(rest[0]).Some? {
      StepHeader(rest, header, access, inside);
    } else {
      StepPlain(rest, header, access, inside);
    }
  }

  lemma NothingRemains(header: string, access: seq<string>, inside: bool, continued: Option<bool>)
    ensures Remaining([], header, access, inside, continued) == [] && !StillFinds([], header, continued)
  {}

  lemma AllRemains(lines: seq<string>, header: string, access: seq<string>)
    ensures Remaining(lines, header, access, false, None) == Edited(lines, header, access, false)
    ensures StillFinds(lines, header, None) <==> HasSection(lines, header)
  {
    hide Edited, HasSection;
  }

  /** One pass over the physical lines, with the `continued` flag. */
  method RewriteLines(lines: seq<string>, header: string, access: seq<string>)
    returns (found: bool, out: seq<string>)
    ensures found == HasSection(lines, header)
    ensures out == Edited(lines, header, access, false)
  {
    hide Edited, HasSection, Remaining, StillFinds, Continues, HeaderName, Matches, IsAccessLine, Tabbed;
    out := [];
    found := false;
    var inside := false;
    var continued: Option<bool> := None;
    ghost var goal, has := Edited(lines, header, access, false), HasSection(lines, header);
    assert lines[0..] == lines;
    AllRemains(lines, header, access);
    for i := 0 to |lines|
      invariant out + Remaining(lines[i..], header, access, inside, continued) == goal
      invariant has <==> found || StillFinds(lines[i..], header, continued)
    {
      var line := lines[i];
      ghost var rest, inside', continued' := lines[i..], inside, continued;
      assert rest[0] == line && rest[1..] == lines[i + 1..];
      var piece := [line];
      if continued.Some? {
        if continued.value { piece := []; }
        continued := if Continues(line) then continued else None;
      } else if HeaderName(line).Some? {
        inside := Matches(HeaderName(line).value, header);
        if inside {
          found := true;
          piece := piece + Tabbed(access);
        }
      } else {
        var drop := inside && IsAccessLine(line);
        continued := if Continues(line) then Some(drop) else None;
        if drop { piece := []; }
      }
      PassStep(rest, header, access, inside', continued', piece, inside, continued);
      Assoc(out, piece, Remaining(rest[1..], header, access, inside, continued));
      out := out + piece;
    }
    assert lines[|lines|..] == [];
    NothingRemains(header, access, inside, continued);
  }

  method RewriteSection(conf: string, share: string, access: seq<string>) returns (r: Result<string, string>)
    ensures r == RewriteText(conf, share, access)
  {
    var found, out := RewriteLines(Lines(conf), Lower(share), access);
    if found {
      r := Ok(Unlines(out));
    } else {
      r := Err("share '" + share + "' has no section: enable SMB on it in Unraid first");
    }
  }
}
