/** Laws of the section rewriter: nothing is lost in the grouping, and editing twice is editing once. */
module SmbRewriteLaws {
  import opened Wrappers
  import opened Text
  import opened SmbRewrite

  ghost function Flatten(groups: seq<Group>): seq<string> {
    if groups == [] then [] else groups[0] + Flatten(groups[1..])
  }

  lemma FlattenCons(g: Group, gs: seq<Group>)
    ensures Flatten([g] + gs) == g + Flatten(gs)
  {
    assert ([g] + gs)[1..] == gs;
  }

  /** Grouping only regroups. */
  lemma {:induction false} LogicalLinesFlatten(lines: seq<string>)
    ensures Flatten(LogicalLines(lines)) == lines
    decreases |lines|
  {
    if lines == [] {
    } else {
      var n := GroupLength(lines);
      hide GroupLength, Continues;
      LogicalLinesFlatten(lines[n..]);
      FlattenCons(lines[..n], LogicalLines(lines[n..]));
      assert lines == lines[..n] + lines[n..];
    }
  }

  /** Each group is one line and those that continue it: all but its last line continue. */
  lemma {:induction false} GroupShape(lines: seq<string>)
    requires lines != []
    ensures var n := GroupLength(lines);
            && (forall i | 0 <= i < n - 1 :: Continues(lines[i]))
            && (Continues(lines[n - 1]) ==> n == |lines|)
            && GroupLength(lines[..n]) == n
  {
    var n := GroupLength(lines);
    if Continues(lines[0]) && n > 1 {
      GroupShape(lines[1..]);
      assert lines[..n][1..] == lines[1..][..n - 1];
      forall i | 0 <= i < n - 1 ensures Continues(lines[i]) {
        if i > 0 { assert lines[i] == lines[1..][i - 1]; }
      }
    }
  }

  lemma {:induction false} GroupLengthOfPrefix(group: Group, rest: seq<string>)
    requires GroupLength(group) == |group|
    requires rest == [] || !Continues(group[|group| - 1])
    ensures GroupLength(group + rest) == |group|
  {
    if Continues(group[0]) {
      if |group| == 1 {
        assert group + rest == group;
      } else {
        assert (group + rest)[1..] == group[1..] + rest;
        GroupLengthOfPrefix(group[1..], rest);
      }
    }
  }

  /** Lines the edit may insert: read back they are access lines of one physical line. */
  predicate CleanLine(a: string) {
    && IsAccessLine("\t" + a) && HeaderName("\t" + a).None? && !Continues("\t" + a)
    && OneLine(a) && a != "" && !EndsWith(a, '\r')
  }

  predicate CleanAccess(access: seq<string>) {
    forall a | a in access :: CleanLine(a)
  }

  lemma {:induction false} InsertedLinesAreDropped(access: seq<string>, rest: seq<string>,
                                                   header: string, all: seq<string>)
    requires CleanAccess(access)
    ensures Edited(Tabbed(access) + rest, header, all, true) == Edited(rest, header, all, true)
  {
    if access == [] {
      assert Tabbed(access) + rest == rest;
    } else {
      var lines := Tabbed(access) + rest;
      assert access[0] in access && lines[0] == "\t" + access[0];
      assert lines[1..] == Tabbed(access[1..]) + rest;
      StepPlain(lines, header, all, true);
      InsertedLinesAreDropped(access[1..], rest, header, all);
    }
  }

  /** The edit of a whole logical line followed by anything. */
  lemma EditGroupThen(group: Group, rest: seq<string>, header: string, access: seq<string>, inside: bool)
    requires GroupLength(group) == |group|
    requires rest == [] || !Continues(group[|group| - 1])
    ensures Edited(group + rest, header, access, inside)
         == EditGroup(group, header, access, inside)
            + Edited(rest, header, access, InsideAfter(group, header, inside))
    ensures HasSection(group + rest, header) <==> IsMatchingHeader(group, header) || HasSection(rest, header)
  {
    var lines := group + rest;
    GroupLengthOfPrefix(group, rest);
    assert lines[..|group|] == group && lines[|group|..] == rest;
    StepFresh(lines, header, access, inside);
  }

  /** A header followed by anything. */
  lemma EditHeaderThen(line: string, rest: seq<string>, header: string, access: seq<string>, inside: bool)
    requires HeaderName(line).Some?
    ensures var now := Matches(HeaderName(line).value, header);
            Edited([line] + rest, header, access, inside)
              == [line] + (if now then Tabbed(access) else []) + Edited(rest, header, access, now)
  {
    assert ([line] + rest)[1..] == rest;
    StepHeader([line] + rest, header, access, inside);
  }

  lemma EditHeaderTwice(line: string, tail: seq<string>, header: string, access: seq<string>, inside: bool)
    requires CleanAccess(access) && HeaderName(line).Some?
    requires Edited(tail, header, access, Matches(HeaderName(line).value, header)) == tail
    ensures var now := Matches(HeaderName(line).value, header);
            var once := [line] + (if now then Tabbed(access) else []) + tail;
            Edited(once, header, access, inside) == once
  {
    var now := Matches(HeaderName(line).value, header);
    if now {
      Assoc([line], Tabbed(access), tail);
      EditHeaderThen(line, Tabbed(access) + tail, header, access, inside);
      InsertedLinesAreDropped(access, tail, header, access);
    } else {
      assert [line] + [] + tail == [line] + tail;
      EditHeaderThen(line, tail, header, access, inside);
    }
  }

  /** Editing the edited lines again changes nothing. */
  lemma {:induction false} EditTwice(lines: seq<string>, header: string, access: seq<string>, inside: bool)
    requires CleanAccess(access)
    ensures var once := Edited(lines, header, access, inside);
            Edited(once, header, access, inside) == once
    decreases |lines|
  {
    if lines == [] {
    } else {
      var n := GroupLength(lines);
      var group: Group, rest := lines[..n], lines[n..];
      var now := InsideAfter(group, header, inside);
      var tail := Edited(rest, header, access, now);
      StepFresh(lines, header, access, inside);
      EditTwice(rest, header, access, now);
      GroupShape(lines);
      if HeaderName(group[0]).Some? {
        HeaderDoesNotContinue(group[0]);
        assert group == [group[0]];
        EditHeaderTwice(group[0], tail, header, access, inside);
      } else if !(inside && IsAccessLine(group[0])) {
        assert rest == [] ==> tail == [];
        EditGroupThen(group, tail, header, access, inside);
      } else {
        assert [] + tail == tail;
      }
    }
  }

  // ---- On the text: exactly when a second rewrite changes nothing -------------

  lemma ChompedLineReads(line: string)
    ensures HeaderName(ChompCr(line)) == HeaderName(line)
    ensures Continues(ChompCr(line)) == Continues(line)
    ensures IsAccessLine(ChompCr(line)) == IsAccessLine(line)
  {
    TrimChompCr(line);
  }

  lemma {:induction false} GroupLengthChomped(lines: seq<string>)
    ensures GroupLength(Chomped(lines)) == GroupLength(lines)
  {
    if lines == [] {
    } else {
      ChompedLineReads(lines[0]);
      GroupLengthChomped(lines[1..]);
      assert Chomped(lines)[1..] == Chomped(lines[1..]);
    }
  }

  lemma ChompedTabbed(access: seq<string>)
    requires CleanAccess(access)
    ensures Chomped(Tabbed(access)) == Tabbed(access)
  {
    forall i | 0 <= i < |access| ensures ChompCr(Tabbed(access)[i]) == Tabbed(access)[i] {
      assert access[i] in access;
    }
  }

  lemma ChompedConcat(a: seq<string>, b: seq<string>)
    ensures Chomped(a + b) == Chomped(a) + Chomped(b)
  {}

  lemma EditGroupChomped(group: Group, header: string, access: seq<string>, inside: bool)
    requires CleanAccess(access)
    ensures EditGroup(Chomped(group), header, access, inside) == Chomped(EditGroup(group, header, access, inside))
    ensures InsideAfter(Chomped(group), header, inside) == InsideAfter(group, header, inside)
    ensures IsMatchingHeader(Chomped(group), header) == IsMatchingHeader(group, header)
  {
    ChompedLineReads(group[0]);
    ChompedTabbed(access);
    ChompedConcat(group, Tabbed(access));
    assert group + [] == group && Chomped(group) + [] == Chomped(group);
  }

  lemma {:induction false} EditChomped(lines: seq<string>, header: string, access: seq<string>, inside: bool)
    requires CleanAccess(access)
    ensures Edited(Chomped(lines), header, access, inside) == Chomped(Edited(lines, header, access, inside))
    ensures HasSection(Chomped(lines), header) == HasSection(lines, header)
    decreases |lines|
  {
    if lines == [] {
    } else {
      var n := GroupLength(lines);
      var group: Group, rest := lines[..n], lines[n..];
      var now := InsideAfter(group, header, inside);
      GroupLengthChomped(lines);
      assert Chomped(lines)[..n] == Chomped(group) && Chomped(lines)[n..] == Chomped(rest);
      StepFresh(lines, header, access, inside);
      StepFresh(Chomped(lines), header, access, inside);
      EditGroupChomped(group, header, access, inside);
      EditChomped(rest, header, access, now);
      ChompedConcat(EditGroup(group, header, access, inside), Edited(rest, header, access, now));
    }
  }

  lemma EditGroupOneLine(group: Group, header: string, access: seq<string>, inside: bool)
    requires CleanAccess(access) && forall l | l in group :: OneLine(l)
    ensures forall l | l in EditGroup(group, header, access, inside) :: OneLine(l)
  {
    forall a | a in access ensures OneLine("\t" + a) { assert CleanLine(a); }
  }

  lemma {:induction false} EditedOneLine(lines: seq<string>, header: string, access: seq<string>, inside: bool)
    requires CleanAccess(access) && forall l | l in lines :: OneLine(l)
    ensures forall l | l in Edited(lines, header, access, inside) :: OneLine(l)
    decreases |lines|
  {
    if lines == [] {
    } else {
      var n := GroupLength(lines);
      StepFresh(lines, header, access, inside);
      EditGroupOneLine(lines[..n], header, access, inside);
      EditedOneLine(lines[n..], header, access, InsideAfter(lines[..n], header, inside));
    }
  }

  /** A header, whatever is inserted after it, and lines that have the section. */
  lemma HeaderKeepsSection(line: string, inserted: seq<string>, tail: seq<string>, header: string)
    requires HeaderName(line).Some?
    requires Matches(HeaderName(line).value, header) || (inserted == [] && HasSection(tail, header))
    ensures HasSection([line] + inserted + tail, header)
  {
    HeaderDoesNotContinue(line);
    assert GroupLength([line]) == 1;
    assert inserted == [] ==> inserted + tail == tail;
    EditGroupThen([line], inserted + tail, header, [], false);
    Assoc([line], inserted, tail);
  }

  lemma {:induction false} EditKeepsSection(lines: seq<string>, header: string, access: seq<string>, inside: bool)
    requires CleanAccess(access) && HasSection(lines, header)
    ensures HasSection(Edited(lines, header, access, inside), header)
    decreases |lines|
  {
    hide Continues, IsAccessLine, Matches, Tabbed, CleanAccess, HeaderName;
    var n := GroupLength(lines);
    var group: Group, rest := lines[..n], lines[n..];
    var now := InsideAfter(group, header, inside);
    var tail := Edited(rest, header, access, now);
    StepFresh(lines, header, access, inside);
    GroupShape(lines);
    if !IsMatchingHeader(group, header) {
      EditKeepsSection(rest, header, access, now);
    }
    if HeaderName(group[0]).Some? {
      HeaderDoesNotContinue(group[0]);
      assert group == [group[0]];
      HeaderKeepsSection(group[0], if now then Tabbed(access) else [], tail, header);
    } else if !(inside && IsAccessLine(group[0])) {
      assert rest == [] ==> tail == [];
      EditGroupThen(group, tail, header, access, inside);
    } else {
      assert [] + tail == tail;
    }
  }

  lemma UnlinesLength(lines: seq<string>)
    requires lines != []
    ensures |lines| > 1 ==> |Unlines(lines)| == |lines[0]| + 1 + |Unlines(lines[1..])|
    ensures |lines| == 1 ==> |Unlines(lines)| == |lines[0]| + 1
  {}

  lemma {:induction false} UnlinesChomped(lines: seq<string>)
    requires lines != []
    ensures |Unlines(Chomped(lines))| <= |Unlines(lines)|
    ensures |Unlines(Chomped(lines))| == |Unlines(lines)| ==> Chomped(lines) == lines
  {
    UnlinesLength(lines);
    UnlinesLength(Chomped(lines));
    if |lines| <= 1 {
    } else {
      UnlinesChomped(lines[1..]);
      assert Chomped(lines)[1..] == Chomped(lines[1..]);
    }
  }

  lemma RewrittenLines(conf: string, share: string, access: seq<string>)
    requires CleanAccess(access) && RewriteText(conf, share, access).Ok?
    ensures var out := Edited(Lines(conf), Lower(share), access, false);
            out != [] && RewriteText(Unlines(out), share, access) == Ok(Unlines(Chomped(out)))
  {
    var header := Lower(share);
    var out := Edited(Lines(conf), header, access, false);
    LinesAreOneLine(conf);
    EditedOneLine(Lines(conf), header, access, false);
    EditKeepsSection(Lines(conf), header, access, false);
    EditChomped(out, header, access, false);
    EditTwice(Lines(conf), header, access, false);
    LinesUnlines(out);
  }

  /** The logical lines of a conf that a rewrite keeps: all but access lines of the section. */
  function KeptGroups(groups: seq<Group>, header: string, inside: bool): seq<Group> {
    if groups == [] then []
    else
      (if HeaderName(groups[0][0]).None? && inside && IsAccessLine(groups[0][0]) then [] else [groups[0]])
      + KeptGroups(groups[1..], header, InsideAfter(groups[0], header, inside))
  }

  predicate NoCarriageReturn(lines: seq<string>) {
    forall l | l in lines :: !EndsWith(l, '\r')
  }

  lemma NoCarriageReturnConcat(a: seq<string>, b: seq<string>)
    ensures NoCarriageReturn(a + b) <==> NoCarriageReturn(a) && NoCarriageReturn(b)
  {
    assert forall l :: l in a + b <==> l in a || l in b;
  }

  lemma TabbedEndsPlain(access: seq<string>)
    requires CleanAccess(access)
    ensures NoCarriageReturn(Tabbed(access))
  {
    forall i | 0 <= i < |access| ensures !EndsWith(Tabbed(access)[i], '\r') {
      assert CleanLine(access[i]);
    }
  }

  /** What a rewrite writes ends in carriage returns just where what it keeps does. */
  lemma {:induction false} KeptLinesEnd(groups: seq<Group>, header: string, access: seq<string>, inside: bool)
    requires CleanAccess(access)
    ensures NoCarriageReturn(EditGroups(groups, header, access, inside)) <==>
              forall g | g in KeptGroups(groups, header, inside) :: NoCarriageReturn(g)
  {
    if groups == [] {
    } else {
      hide NoCarriageReturn, CleanAccess, IsAccessLine, Matches, HeaderName;
      var now := InsideAfter(groups[0], header, inside);
      KeptLinesEnd(groups[1..], header, access, now);
      TabbedEndsPlain(access);
      NoCarriageReturnConcat(groups[0], Tabbed(access));
      NoCarriageReturnConcat(EditGroup(groups[0], header, access, inside),
                             EditGroups(groups[1..], header, access, now));
      EmptyEndsPlain(groups[0]);
      var kept := KeptGroups(groups, header, inside);
      var rest := KeptGroups(groups[1..], header, now);
      assert kept == rest || kept == [groups[0]] + rest;
    }
  }

  lemma EmptyEndsPlain(g: Group)
    ensures NoCarriageReturn([]) && g + [] == g
  {}

  /**
   A second rewrite of the text changes nothing exactly when no line of the conf that
   the first one keeps ends in a carriage return: `lines` drops one of them on each reading.
   */
  lemma RewriteTwiceIff(conf: string, share: string, access: seq<string>)
    requires CleanAccess(access) && RewriteText(conf, share, access).Ok?
    ensures var once := RewriteText(conf, share, access);
            RewriteText(once.value, share, access) == once <==>
              forall g | g in KeptGroups(LogicalLines(Lines(conf)), Lower(share), false) :: NoCarriageReturn(g)
  {
    hide RewriteText, KeptGroups;
    var out := Edited(Lines(conf), Lower(share), access, false);
    RewrittenLines(conf, share, access);
    RewrittenOnce(conf, share, access);
    KeptLinesEnd(LogicalLines(Lines(conf)), Lower(share), access, false);
    UnlinesChomped(out);
    if NoCarriageReturn(out) {
      assert Chomped(out) == out;
    } else {
      var i :| 0 <= i < |out| && EndsWith(out[i], '\r');
      assert |Chomped(out)[i]| < |out[i]|;
    }
  }

  lemma RewrittenOnce(conf: string, share: string, access: seq<string>)
    requires RewriteText(conf, share, access).Ok?
    ensures RewriteText(conf, share, access) == Ok(Unlines(Edited(Lines(conf), Lower(share), access, false)))
  {}
}
