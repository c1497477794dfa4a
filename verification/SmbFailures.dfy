/** Confs and requests on which a promise of the section rewriter fails. */
module SmbFailures {
  import opened Wrappers
  import opened Text
  import opened SmbRewrite
  import opened SmbRewriteLaws
  import opened SmbShares
  import opened SmbRequest
  import opened SmbMode

  /** A conf of a header `[s]` and one plain line, and how it is read. */
  lemma TwoLines(line: string)
    requires OneLine(line) && !EndsWith(line, '\r')
    ensures Lines("[s]\n" + line + "\n") == ["[s]", line]
  {
    assert Unlines(["[s]", line]) == "[s]\n" + line + "\n" by {
      assert Join([line], "\n") == line;
    }
    LinesUnlines(["[s]", line]);
    assert Chomped(["[s]", line]) == ["[s]", line];
  }

  lemma HeaderOfS()
    ensures Trim("[s]") == "[s]" && HeaderName("[s]") == Some("s") && Matches("s", "s") && !Continues("[s]")
    ensures Bracketed("[s]") == Some("s") && !IsComment("[s]") && OneLine("[s]") && ChompCr("[s]") == "[s]"
  {
    TrimKeepsSolid("[s]");
    TrimKeepsSolid("s");
    assert "[s]"[1..2] == "s";
    assert Lower("s") == "s";
  }

  lemma SectionIsThere(lines: seq<string>)
    requires lines != [] && lines[0] == "[s]"
    ensures HasSection(lines, "s")
  {
    HeaderOfS();
    StepFresh(lines, "s", [], false);
    assert lines[..GroupLength(lines)][0] == "[s]";
  }

  // ---- A stale line that survives -----------------------------------------------------

  const ONLY_GUEST := "only guest = yes"

  lemma OnlyGuestIsPlain()
    ensures Trim(ONLY_GUEST) == ONLY_GUEST && OneLine(ONLY_GUEST)
    ensures ONLY_GUEST[0] == 'o' && ONLY_GUEST[|ONLY_GUEST| - 1] == 's'
  {
    TrimKeepsSolid(ONLY_GUEST);
  }

  lemma OnlyGuestKey()
    ensures IsOnlyGuest("only guest ")
  {
    assert "only guest" + " " == "only guest ";
    TrimEndSpaces("only guest", " ");
    TrimKeepsSolid("only guest");
    LowerWords("only guest");
  }

  lemma OnlyGuestSplits()
    ensures SplitOnce(ONLY_GUEST, '=') == Some(("only guest ", " yes"))
  {
    hide SplitOnce;
    assert ONLY_GUEST == "only guest " + ['='] + " yes";
    SplitOnceJoined("only guest ", '=', " yes");
  }

  lemma OnlyGuestLineReads()
    ensures Trim(ONLY_GUEST) == ONLY_GUEST && !IsComment(ONLY_GUEST) && Bracketed(ONLY_GUEST).None?
    ensures SplitOnce(ONLY_GUEST, '=') == Some(("only guest ", " yes")) && IsOnlyGuest("only guest ")
    ensures OneLine(ONLY_GUEST) && !EndsWith(ONLY_GUEST, '\r') && !Continues(ONLY_GUEST)
  {
    hide Trim, SplitOnce, IsOnlyGuest, OneLine;
    OnlyGuestIsPlain();
    OnlyGuestKey();
    OnlyGuestSplits();
  }

  /**
   After any valid request for the share, the line that makes every connection a guest's
   still stands and is obeyed.
   */
  lemma OnlyGuestSurvives(req: Request)
    requires ValidRequest(req) && req.share == "s"
    ensures var conf := "[s]\n" + ONLY_GUEST + "\n";
            var once := RewriteText(conf, "s", AccessLines(req));
            once.Ok? && |ParseText(once.value)| == 1 && ParseText(once.value)[0].guestOnly
  {
    hide AccessLines, ValidRequest, NewRequest;
    var conf := "[s]\n" + ONLY_GUEST + "\n";
    OnlyGuestLineReads();
    TwoLines(ONLY_GUEST);
    HeaderOfS();
    SectionIsThere(Lines(conf));
    assert Lower("s") == "s";
    SharesOfOnlyGuest(conf);
    FlagValues();
    GuestOnlyIffStaleLine(conf, req, 0);
  }

  /** A conf read as one section `[s]` is one share, whose guests run as nobody. */
  lemma OneShare(conf: string, share: SmbShare)
    requires ReadLines([], Lines(conf)) == [share] && share.name == "s"
    ensures ParseText(conf) == [share.(guestAccount := "nobody")]
  {
    hide ReadLines, Shares, GuestAccount, Lines;
    SharesOfOne(share);
  }

  lemma OneStale(conf: string, header: string, stale: Stale)
    requires StaleFrom(START, [], Lines(conf), header) == [stale] && stale.said.name == "s"
    ensures StaleSettings(conf, header) == [stale]
  {
    hide StaleFrom, Lines;
    assert !IsReserved("s");
    assert [stale][1..] == [] && StaleShares([]) == [];
    assert StaleShares([stale]) == [stale] + StaleShares([]);
  }

  lemma OnlyGuestReads() returns (share: SmbShare)
    ensures ReadLines([], ["[s]", ONLY_GUEST]) == [share] && share.name == "s"
  {
    OnlyGuestLineReads();
    HeaderOfS();
    hide Trim, IsOnlyGuest, Continues, Yes, SplitOnce, KeyOf, Users, ReadLines, IsComment, Lower, Bracketed, OneLine,
         HeaderName, ChompCr, Matches;
    assert ["[s]", ONLY_GUEST] == ["[s]"] + [ONLY_GUEST];
    ReadCons([], "[s]", [ONLY_GUEST]);
    assert ReadLine([], "[s]") == [NewShare("s")];
    ReadOne([NewShare("s")], ONLY_GUEST);
    share := ReadLine([NewShare("s")], ONLY_GUEST)[0];
  }

  lemma OnlyGuestStales() returns (stale: Stale)
    ensures StaleFrom(START, [], ["[s]", ONLY_GUEST], "s") == [stale]
    ensures stale.said.name == "s" && stale.said.guestOnly
  {
    OnlyGuestLineReads();
    HeaderOfS();
    FlagValues();
    hide Trim, IsOnlyGuest, Continues, Yes, SplitOnce, StaleFrom;
    assert ["[s]", ONLY_GUEST] == ["[s]"] + [ONLY_GUEST];
    StaleCons(START, [], "[s]", [ONLY_GUEST], "s");
    assert NextFlags(START, "[s]", "s") == Flags(true, None);
    assert StaleLine(START, [], "[s]") == [Stale(NewShare("s"), {})];
    StaleOne(Flags(true, None), [Stale(NewShare("s"), {})], ONLY_GUEST, "s");
    stale := StaleLine(Flags(true, None), [Stale(NewShare("s"), {})], ONLY_GUEST)[0];
  }

  lemma NothingContinues()
    ensures NoContinuation(["[s]", ONLY_GUEST])
  {
    OnlyGuestLineReads();
    HeaderOfS();
    hide Continues;
  }

  lemma SharesOfOnlyGuest(conf: string)
    requires Lines(conf) == ["[s]", ONLY_GUEST]
    ensures Regular(Lines(conf), "s")
    ensures |ParseText(conf)| == 1 && ParseText(conf)[0].name == "s"
    ensures |StaleSettings(conf, "s")| == 1 && StaleSettings(conf, "s")[0].said.guestOnly
  {
    hide *;
    NothingContinues();
    UncontinuedConf(conf, "s");
    var share := OnlyGuestReads();
    var stale := OnlyGuestStales();
    OneShare(conf, share);
    OneStale(conf, "s", stale);
  }

  // ---- Reading line by line -----------------------------------------------------------

  lemma ReadCons(out: seq<SmbShare>, line: string, rest: seq<string>)
    ensures ReadLines(out, [line] + rest) == ReadLines(ReadLine(out, Trim(line)), rest)
  {
    hide ReadLine, Trim;
    assert ([line] + rest)[1..] == rest;
  }

  lemma StaleCons(f: Flags, stale: seq<Stale>, line: string, rest: seq<string>, header: string)
    ensures StaleFrom(f, stale, [line] + rest, header)
         == StaleFrom(NextFlags(f, line, header), StaleLine(f, stale, Trim(line)), rest, header)
  {
    hide StaleLine, NextFlags, Trim;
    assert ([line] + rest)[1..] == rest;
  }

  lemma StaleOne(f: Flags, stale: seq<Stale>, line: string, header: string)
    ensures StaleFrom(f, stale, [line], header) == StaleLine(f, stale, Trim(line))
  {
    StaleCons(f, stale, line, [], header);
    assert [line] + [] == [line];
  }

  lemma RegularCons(f: Flags, line: string, rest: seq<string>, header: string)
    ensures RegularFrom(f, [line] + rest, header) <==>
            RegularLine(f, line, header) && RegularFrom(NextFlags(f, line, header), rest, header)
  {
    hide RegularLine, NextFlags;
    assert ([line] + rest)[1..] == rest;
  }

  lemma LeftCons(f: Flags, line: string, rest: seq<string>, header: string, access: seq<string>)
    ensures Left(f, [line] + rest, header, access)
         == Written(f, line, header, access) + Left(NextFlags(f, line, header), rest, header, access)
  {
    hide Left, Written, NextFlags;
    PassLine(f, [line] + rest, header, access);
    assert ([line] + rest)[1..] == rest;
  }

  // ---- Lines that continue others -----------------------------------------------------

  /** A line that continues. */
  const CONTINUED := "x\\"

  lemma ContinuedLine()
    ensures Trim(CONTINUED) == CONTINUED && HeaderName(CONTINUED).None? && Bracketed(CONTINUED).None?
    ensures Continues(CONTINUED) && !IsAccessLine(CONTINUED) && SplitOnce(CONTINUED, '=').None? && !IsComment(CONTINUED)
    ensures OneLine(CONTINUED) && ChompCr(CONTINUED) == CONTINUED
  {
    TrimKeepsSolid(CONTINUED);
    FindAbsent(CONTINUED, '=');
  }

  const SET_WRITEABLE := "\twriteable = yes"
  const SET_PUBLIC := "\tpublic = yes"

  lemma SettingIs(key: string, value: string, line: string)
    requires line == "\t" + Setting(key, value) && PlainKey(key) && PlainValue(value) && IsAccessKey(NormalizeKey(key))
    ensures var t := Trim(line);
            && !IsComment(t) && Bracketed(t).None? && HeaderName(line).None?
            && SplitOnce(t, '=') == Some((key + " ", " " + value)) && Lower(Trim(key + " ")) == key
    ensures IsAccessLine(line) && !Continues(line) && OneLine(line) && ChompCr(line) == line
  {
    hide IsAccessKey, NormalizeKey, SplitOnce, Trim, IsComment, Bracketed;
    SettingReadsBack(key, value);
    InsertedLineIsClean(key, value);
    NoHeaderTrimmed(line);
  }

  lemma KeysRead()
    ensures KeyOf("writeable") == Writeable && KeyOf("public") == GuestOk
  {}

  lemma YesIs()
    ensures " " + "yes" == " yes"
  {}

  lemma SetWriteableIs()
    ensures SET_WRITEABLE == "\t" + Setting("writeable", "yes")
  {}

  lemma SetPublicIs()
    ensures SET_PUBLIC == "\t" + Setting("public", "yes")
  {}

  lemma SetWriteable()
    ensures var t := Trim(SET_WRITEABLE);
            && !IsComment(t) && Bracketed(t).None? && HeaderName(SET_WRITEABLE).None?
            && SplitOnce(t, '=') == Some(("writeable" + " ", " yes"))
            && KeyOf(Lower(Trim("writeable" + " "))) == Writeable
    ensures OneLine(SET_WRITEABLE) && ChompCr(SET_WRITEABLE) == SET_WRITEABLE && !Continues(SET_WRITEABLE)
  {
    hide *;
    AccessKeysPlain();
    KeysRead();
    FlagKeyIsAccessKey("writeable");
    YesIs();
    SetWriteableIs();
    SettingIs("writeable", "yes", SET_WRITEABLE);
  }

  lemma SetPublic()
    ensures var t := Trim(SET_PUBLIC);
            && !IsComment(t) && Bracketed(t).None? && HeaderName(SET_PUBLIC).None? && IsAccessLine(SET_PUBLIC)
            && SplitOnce(t, '=') == Some(("public" + " ", " yes")) && KeyOf(Lower(Trim("public" + " "))) == GuestOk
    ensures OneLine(SET_PUBLIC) && ChompCr(SET_PUBLIC) == SET_PUBLIC && !Continues(SET_PUBLIC)
  {
    hide *;
    AccessKeysPlain();
    KeysRead();
    FlagKeyIsAccessKey("public");
    YesIs();
    SetPublicIs();
    SettingIs("public", "yes", SET_PUBLIC);
  }

  /** The conf of some lines. */
  lemma ConfOf(lines: seq<string>)
    requires lines != [] && forall l | l in lines :: OneLine(l) && ChompCr(l) == l
    ensures Lines(Unlines(lines)) == lines
  {
    LinesUnlines(lines);
    hide ChompCr;
    assert Chomped(lines) == lines;
  }

  /** `x \`, continued by `writeable = yes`, in the share's section. */
  const STALE_LINES := ["[s]", CONTINUED, SET_WRITEABLE]

  lemma StaleLinesRead() returns (share: SmbShare)
    ensures ReadLines([], STALE_LINES) == [share] && share.name == "s"
  {
    HeaderOfS();
    ContinuedLine();
    SetWriteable();
    hide Trim, Yes, SplitOnce, KeyOf, Users, ReadLines, IsComment, Lower, HeaderName, Bracketed, IsAccessLine,
         Continues, OneLine, ChompCr, Matches;
    assert STALE_LINES == ["[s]"] + ([CONTINUED] + [SET_WRITEABLE]);
    ReadCons([], "[s]", [CONTINUED] + [SET_WRITEABLE]);
    assert ReadLine([], "[s]") == [NewShare("s")];
    ReadCons([NewShare("s")], CONTINUED, [SET_WRITEABLE]);
    ReadOne([NewShare("s")], SET_WRITEABLE);
    share := ReadLine([NewShare("s")], Trim(SET_WRITEABLE))[0];
  }

  lemma StaleLinesStale() returns (stale: Stale)
    ensures StaleFrom(START, [], STALE_LINES, "s") == [stale] && Regular(STALE_LINES, "s")
    ensures stale.said.name == "s" && Writeable in stale.keys && stale.said.writeable
    ensures stale.keys == {Writeable}
  {
    HeaderOfS();
    ContinuedLine();
    SetWriteable();
    FlagValues();
    hide Trim, Yes, SplitOnce, KeyOf, Users, StaleFrom, IsComment, Lower, IsOnlyGuest, HeaderName, Bracketed, Continues,
         RegularFrom, Matches, IsAccessLine;
    var f1, f2 := Flags(true, None), Flags(true, Some(false));
    var none := Stale(NewShare("s"), {});
    assert STALE_LINES == ["[s]"] + ([CONTINUED] + ([SET_WRITEABLE] + []));
    StaleCons(START, [], "[s]", [CONTINUED] + ([SET_WRITEABLE] + []), "s");
    RegularCons(START, "[s]", [CONTINUED] + ([SET_WRITEABLE] + []), "s");
    assert NextFlags(START, "[s]", "s") == f1 && StaleLine(START, [], "[s]") == [none];
    StaleCons(f1, [none], CONTINUED, [SET_WRITEABLE] + [], "s");
    RegularCons(f1, CONTINUED, [SET_WRITEABLE] + [], "s");
    assert NextFlags(f1, CONTINUED, "s") == f2 && StaleLine(f1, [none], CONTINUED) == [none];
    assert [SET_WRITEABLE] + [] == [SET_WRITEABLE];
    StaleOne(f2, [none], SET_WRITEABLE, "s");
    RegularCons(f2, SET_WRITEABLE, [], "s");
    assert RegularFrom(NextFlags(f2, SET_WRITEABLE, "s"), [], "s")
      by { RegularEnd(NextFlags(f2, SET_WRITEABLE, "s"), "s"); }
    stale := Saying(none, Writeable, " yes");
    assert StaleLine(f2, [none], Trim(SET_WRITEABLE)) == [stale];
  }

  lemma RegularEnd(f: Flags, header: string)
    ensures RegularFrom(f, [], header)
  {}

  /** After any valid secure request a share with such a line still reads as public. */
  lemma ContinuedLineSurvives(req: Request)
    requires ValidRequest(req) && req.share == "s" && req.security.Secure?
    ensures var once := RewriteText(Unlines(STALE_LINES), "s", AccessLines(req));
            once.Ok? && |ParseText(once.value)| == 1 && ParseText(once.value)[0].Mode() == "public"
  {
    hide AccessLines, ValidRequest, NewRequest, Lines, StaleFrom, Regular, ReadLines, RewriteText;
    var conf := Unlines(STALE_LINES);
    HeaderOfS();
    ContinuedLine();
    SetWriteable();
    ConfOf(STALE_LINES);
    SectionIsThere(STALE_LINES);
    HasTheSection(conf, req);
    var share := StaleLinesRead();
    var stale := StaleLinesStale();
    OneShare(conf, share);
    OneStale(conf, "s", stale);
    hide ParseText, StaleSettings;
    var after, left := RequestedShare(conf, req, 0);
  }

  lemma HasTheSection(conf: string, req: Request)
    requires req.share == "s" && HasSection(Lines(conf), "s")
    ensures RewriteText(conf, "s", AccessLines(req)).Ok? && Lower(req.share) == "s"
  {
    hide AccessLines, Lines, HasSection, Edited;
    assert Lower("s") == "s";
  }

  /** `x \`, continued by what the reader takes for a header, in the share's section. */
  const LOST_LINES := ["[s]", CONTINUED, "[t]", SET_PUBLIC]

  lemma HeaderOfT()
    ensures Trim("[t]") == "[t]" && HeaderName("[t]") == Some("t") == Bracketed("[t]") && !Continues("[t]")
    ensures !IsComment("[t]") && OneLine("[t]") && ChompCr("[t]") == "[t]"
  {
    TrimKeepsSolid("[t]");
    TrimKeepsSolid("t");
    assert "[t]"[1..2] == "t";
  }

  lemma LostLinesRead() returns (s: SmbShare, t: SmbShare)
    ensures ReadLines([], LOST_LINES) == [s, t] && s.name == "s" && t.name == "t" && t.guestOk
  {
    HeaderOfS();
    HeaderOfT();
    ContinuedLine();
    SetPublic();
    FlagValues();
    hide Trim, Yes, SplitOnce, KeyOf, Users, ReadLines, IsComment, Lower, Bracketed, IsAccessLine, HeaderName, OneLine,
         ChompCr, Matches, Continues;
    assert LOST_LINES == ["[s]"] + ([CONTINUED] + (["[t]"] + [SET_PUBLIC]));
    ReadCons([], "[s]", [CONTINUED] + (["[t]"] + [SET_PUBLIC]));
    assert ReadLine([], "[s]") == [NewShare("s")];
    ReadCons([NewShare("s")], CONTINUED, ["[t]"] + [SET_PUBLIC]);
    ReadCons([NewShare("s")], "[t]", [SET_PUBLIC]);
    assert ReadLine([NewShare("s")], "[t]") == [NewShare("s"), NewShare("t")];
    ReadOne([NewShare("s"), NewShare("t")], SET_PUBLIC);
    s, t := NewShare("s"), Set(NewShare("t"), GuestOk, " yes");
  }

  /** The rewrite takes the other share's setting, of a line of which it sees no header, for the named one's. */
  lemma LostLinesEdited(access: seq<string>)
    ensures Edited(LOST_LINES, "s", access, false) == ["[s]"] + Tabbed(access) + ([CONTINUED] + ["[t]"])
  {
    HeaderOfS();
    HeaderOfT();
    ContinuedLine();
    SetPublic();
    hide Trim, HeaderName, Continues, Matches, IsAccessLine, Tabbed, Edited;
    var (f1, f2) := (Flags(true, None), Flags(true, Some(false)));
    assert LOST_LINES == ["[s]"] + ([CONTINUED] + (["[t]"] + ([SET_PUBLIC] + [])));
    LeftCons(START, "[s]", [CONTINUED] + (["[t]"] + ([SET_PUBLIC] + [])), "s", access);
    LeftCons(f1, CONTINUED, ["[t]"] + ([SET_PUBLIC] + []), "s", access);
    LeftCons(f2, "[t]", [SET_PUBLIC] + [], "s", access);
    LeftCons(f1, SET_PUBLIC, [], "s", access);
    NothingIsLeft(f1, "s", access);
    assert ["[t]"] + [] == ["[t]"];
  }

  lemma LostLinesReread(req: Request) returns (s: SmbShare)
    requires ValidRequest(req)
    ensures s.name == "s"
    ensures ReadLines([], ["[s]"] + Tabbed(AccessLines(req)) + ([CONTINUED] + ["[t]"])) == [s, NewShare("t")]
  {
    HeaderOfS();
    HeaderOfT();
    ContinuedLine();
    hide Trim, ReadLines, IsComment, Bracketed, ValidRequest, AccessLines, Tabbed, AsRequested;
    var inserted := Tabbed(AccessLines(req));
    ReadCons([], "[s]", inserted + ([CONTINUED] + ["[t]"]));
    Assoc(["[s]"], inserted, [CONTINUED] + ["[t]"]);
    s := InsertedLinesRead([], "s", req);
    assert ReadLine([], "[s]") == [] + [NewShare("s")];
    ReadLinesAppend([NewShare("s")], inserted, [CONTINUED] + ["[t]"]);
    ReadCons([s], CONTINUED, ["[t]"]);
    ReadOne([s], "[t]");
    assert [] + [NewShare("s")] == [NewShare("s")] && [] + [s] == [s];
    assert ReadLine([s], CONTINUED) == [s];
    assert ReadLine([s], "[t]") == [s] + [NewShare("t")];
  }

  lemma TwoShares(out: seq<SmbShare>)
    requires |out| == 2 && out[0].name == "s" && out[1].name == "t"
    ensures Shares(out, GuestAccount(out)) == [out[0].(guestAccount := "nobody"), out[1].(guestAccount := "nobody")]
  {
    assert out[1..] == [out[1]] && [out[1]][1..] == [];
    assert "s" != "global" && "t" != "global";
    assert GuestAccount([out[1]]) == "nobody" && GuestAccount(out) == "nobody";
    assert !IsReserved("s") && !IsReserved("t");
    assert Shares([out[1]], "nobody") == [out[1].(guestAccount := "nobody")];
  }

  /** After any valid request for `s`, the share `t` of a continued header is no longer public. */
  lemma ContinuedHeaderLoses(req: Request)
    requires ValidRequest(req) && req.share == "s"
    ensures var (conf, once) := (Unlines(LOST_LINES), RewriteText(Unlines(LOST_LINES), "s", AccessLines(req)));
            && once.Ok? && |ParseText(conf)| == |ParseText(once.value)| == 2
            && ParseText(conf)[1].name == ParseText(once.value)[1].name == "t"
            && ParseText(conf)[1].guestOk && !ParseText(once.value)[1].guestOk
  {
    hide AccessLines, ValidRequest, NewRequest, Lines, ReadLines, RewriteText, Edited, Shares, GuestAccount;
    var conf := Unlines(LOST_LINES);
    HeaderOfS();
    HeaderOfT();
    ContinuedLine();
    SetPublic();
    ConfOf(LOST_LINES);
    SectionIsThere(LOST_LINES);
    HasTheSection(conf, req);
    var s0, t0 := LostLinesRead();
    TwoShares([s0, t0]);
    LostLinesEdited(AccessLines(req));
    var s1 := LostLinesReread(req);
    TwoShares([s1, NewShare("t")]);
    RewrittenIsRead(conf, req);
  }

  const OPEN_PUBLIC := "\tpublic = \\"
  const SET_PATH := "\tpath = x"

  /** An access line, continued by the share's path. */
  const PATH_LINES := ["[s]", OPEN_PUBLIC, SET_PATH]

  lemma OpenPublicIs()
    ensures OPEN_PUBLIC == "\t" + Setting("public", "\\") && Setting("public", "\\") == "public " + ['='] + " \\"
    ensures "public" + " " == "public "
  {}

  lemma OpenPublicTrims()
    ensures var t := Setting("public", "\\");
            && Trim(OPEN_PUBLIC) == t && !IsComment(t) && Bracketed(t).None? && EndsWith(t, '\\')
            && SplitOnce(t, '=') == Some(("public ", " \\"))
    ensures OneLine(OPEN_PUBLIC) && ChompCr(OPEN_PUBLIC) == OPEN_PUBLIC
  {
    OpenPublicIs();
    OpenPublicEnds();
    hide Setting, SplitOnce, Trim;
    TrimLeadingSpace('\t', Setting("public", "\\"));
    TrimKeepsSolid(Setting("public", "\\"));
    SplitOnceJoined("public ", '=', " \\");
    OpenPublicOneLine();
    hide OneLine, ChompCr;
  }

  lemma OpenPublicEnds()
    ensures var t := Setting("public", "\\"); t != "" && t[0] == 'p' && t[|t| - 1] == '\\' && '=' !in "public "
  {}

  lemma OpenPublicOneLine()
    ensures OneLine(OPEN_PUBLIC) && ChompCr(OPEN_PUBLIC) == OPEN_PUBLIC
  {}

  lemma PublicSpaced()
    ensures Lower(Trim("public ")) == "public" && KeyOf("public") == GuestOk && IsAccessKey(NormalizeKey("public "))
  {
    hide NormalizeKey, IsAccessKey, TrimEnd;
    KeysRead();
    OpenPublicIs();
    TrimEndSpaces("public", " ");
    TrimKeepsSolid("public");
    LowerWords("public");
    SameKey("public ");
    FlagKeyIsAccessKey("public");
  }

  lemma OpenPublicLine()
    ensures var t := Setting("public", "\\");
            && Trim(OPEN_PUBLIC) == t && !IsComment(t) && Bracketed(t).None?
            && SplitOnce(t, '=') == Some(("public ", " \\")) && KeyOf(Lower(Trim("public "))) == GuestOk
    ensures HeaderName(OPEN_PUBLIC).None? && Continues(OPEN_PUBLIC) && IsAccessLine(OPEN_PUBLIC)
    ensures OneLine(OPEN_PUBLIC) && ChompCr(OPEN_PUBLIC) == OPEN_PUBLIC
  {
    OpenPublicTrims();
    PublicSpaced();
    hide Trim, SplitOnce, NormalizeKey, IsAccessKey, KeyOf, Lower, Bracketed, IsComment, OneLine, ChompCr;
  }

  lemma PathIsPlain()
    ensures PlainKey("path") && PlainValue("x") && SET_PATH == "\t" + Setting("path", "x") && KeyOf("path") == Path
  {
    LowerWords("path");
    LowerWords("x");
  }

  lemma SetPathLine()
    ensures var t := Trim(SET_PATH);
            && !IsComment(t) && Bracketed(t).None? && HeaderName(SET_PATH).None?
            && SplitOnce(t, '=') == Some(("path" + " ", " " + "x")) && KeyOf(Lower(Trim("path" + " "))) == Path
            && Trim(" " + "x") == "x"
    ensures OneLine(SET_PATH) && ChompCr(SET_PATH) == SET_PATH
  {
    PathIsPlain();
    PathOneLine();
    hide PlainKey, PlainValue, SplitOnce, Trim, Lower, KeyOf, IsComment, Bracketed, OneLine, ChompCr;
    SettingReadsBack("path", "x");
    NoHeaderTrimmed(SET_PATH);
  }

  lemma PathOneLine()
    ensures OneLine(SET_PATH) && ChompCr(SET_PATH) == SET_PATH
  {}

  lemma PathLinesRead() returns (s: SmbShare)
    ensures ReadLines([], PATH_LINES) == [s] && s.name == "s" && s.path == "x"
  {
    HeaderOfS();
    OpenPublicLine();
    SetPathLine();
    hide Trim, Yes, SplitOnce, KeyOf, Users, ReadLines, IsComment, Lower, Bracketed, IsAccessLine, HeaderName, Setting;
    assert PATH_LINES == ["[s]"] + ([OPEN_PUBLIC] + [SET_PATH]);
    ReadCons([], "[s]", [OPEN_PUBLIC] + [SET_PATH]);
    assert ReadLine([], "[s]") == [NewShare("s")];
    ReadCons([NewShare("s")], OPEN_PUBLIC, [SET_PATH]);
    var one := Set(NewShare("s"), GuestOk, " \\");
    assert ReadLine([NewShare("s")], Trim(OPEN_PUBLIC)) == [one];
    ReadOne([one], SET_PATH);
    s := Set(one, Path, " " + "x");
  }

  lemma PathLinesEdited(access: seq<string>)
    ensures Edited(PATH_LINES, "s", access, false) == ["[s]"] + Tabbed(access)
  {
    HeaderOfS();
    OpenPublicLine();
    SetPathLine();
    hide Trim, HeaderName, Continues, Matches, IsAccessLine, Tabbed, Edited, SplitOnce, Setting, KeyOf, Lower;
    var (f1, f2) := (Flags(true, None), Flags(true, Some(true)));
    assert PATH_LINES == ["[s]"] + ([OPEN_PUBLIC] + ([SET_PATH] + []));
    LeftCons(START, "[s]", [OPEN_PUBLIC] + ([SET_PATH] + []), "s", access);
    LeftCons(f1, OPEN_PUBLIC, [SET_PATH] + [], "s", access);
    LeftCons(f2, SET_PATH, [], "s", access);
    NothingIsLeft(NextFlags(f2, SET_PATH, "s"), "s", access);
  }

  lemma NothingIsLeft(f: Flags, header: string, access: seq<string>)
    ensures Left(f, [], header, access) == []
  {}

  lemma PathLinesReread(req: Request) returns (s: SmbShare)
    requires ValidRequest(req)
    ensures s.name == "s" && s.path == "" && ReadLines([], ["[s]"] + Tabbed(AccessLines(req))) == [s]
  {
    HeaderOfS();
    hide Trim, ReadLines, IsComment, Bracketed, ValidRequest, AccessLines, Tabbed, AsRequested;
    ReadCons([], "[s]", Tabbed(AccessLines(req)));
    s := InsertedLinesRead([], "s", req);
    assert ReadLine([], "[s]") == [] + [NewShare("s")];
    assert [] + [s] == [s];
  }

  lemma SharesOfOne(share: SmbShare)
    requires share.name == "s"
    ensures Shares([share], GuestAccount([share])) == [share.(guestAccount := "nobody")]
  {
    assert [share][1..] == [] && "s" != "global" && !IsReserved("s");
    assert GuestAccount([share]) == "nobody";
  }

  /** After any valid request a path that continues an access line is gone with it. */
  lemma ContinuedPathGoes(req: Request)
    requires ValidRequest(req) && req.share == "s"
    ensures var (conf, once) := (Unlines(PATH_LINES), RewriteText(Unlines(PATH_LINES), "s", AccessLines(req)));
            && once.Ok? && |ParseText(conf)| == |ParseText(once.value)| == 1
            && ParseText(conf)[0].path == "x" && ParseText(once.value)[0].path == ""
  {
    hide AccessLines, ValidRequest, NewRequest, Lines, ReadLines, RewriteText, Edited, Shares, GuestAccount, Setting;
    var conf := Unlines(PATH_LINES);
    HeaderOfS();
    OpenPublicLine();
    SetPathLine();
    ConfOf(PATH_LINES);
    SectionIsThere(PATH_LINES);
    HasTheSection(conf, req);
    var before := PathLinesRead();
    SharesOfOne(before);
    PathLinesEdited(AccessLines(req));
    var after := PathLinesReread(req);
    SharesOfOne(after);
    RewrittenIsRead(conf, req);
  }

  // ---- A rewrite that is not final ------------------------------------------------------

  const TWO_RETURNS := "[s]\nx\r\r\n"

  lemma TwoReturnsLines()
    ensures Lines(TWO_RETURNS) == ["[s]", "x\r"]
  {
    hide Lines;
    var written := ["[s]", "x\r\r"];
    assert Unlines(written) == TWO_RETURNS by { assert Join(["x\r\r"], "\n") == "x\r\r"; }
    LinesUnlines(written);
    assert "x\r\r"[..2] == "x\r" && ChompCr("[s]") == "[s]";
    assert Chomped(written) == ["[s]", "x\r"];
  }

  /** A line that ends in two carriage returns loses one more on each rewrite, for any valid request. */
  lemma CarriageReturnsGo(req: Request)
    requires ValidRequest(req) && req.share == "s"
    ensures var once := RewriteText(TWO_RETURNS, "s", AccessLines(req));
            once.Ok? && RewriteText(once.value, "s", AccessLines(req)) != once
  {
    hide ValidRequest, AccessLines;
    AccessLinesClean(req);
    TwoReturnsLines();
    hide Lines, LogicalLines, KeptGroups, Edited, GroupLength;
    SectionIsThere(["[s]", "x\r"]);
    assert Lower("s") == "s";
    KeptLineOfS(["[s]", "x\r"]);
    assert RewriteText(TWO_RETURNS, "s", AccessLines(req)).Ok?;
    hide RewriteText;
    RewriteTwiceIff(TWO_RETURNS, "s", AccessLines(req));
    var last: Group := ["x\r"];
    assert last[0] in last && EndsWith(last[0], '\r') && !NoCarriageReturn(last);
  }

  lemma KeptLineOfS(lines: seq<string>)
    requires lines == ["[s]", "x\r"]
    ensures var last: Group := ["x\r"]; last in KeptGroups(LogicalLines(lines), "s", false)
  {
    HeaderOfS();
    TrimEndSpaces("x", "\r");
    TrimKeepsSolid("x");
    assert "x" + "\r" == "x\r";
    assert Trim("x\r") == "x" && HeaderName("x\r").None?;
    assert SplitOnce("x", '=').None? by { FindAbsent("x", '='); }
    assert !IsAccessLine("x\r") && !Continues("x\r");
    hide HeaderName, IsAccessLine, Continues, Matches;
    var first: Group, last: Group := ["[s]"], ["x\r"];
    assert lines[1..] == ["x\r"];
    assert lines[..1] == first && LogicalLines(lines) == [first] + LogicalLines(lines[1..]);
    assert GroupLength(["x\r"]) == 1 && ["x\r"][..1] == last && ["x\r"][1..] == [];
    assert LogicalLines(["x\r"]) == [last] + LogicalLines([]);
    assert [first, last][1..] == [last];
  }

  // ---- A secure share that guests may write -----------------------------------------------

  /** A secure request that lists the account guests run as reads back as public. */
  lemma GuestWriterIsNotSecure()
    ensures var req := Request("s", Secure, [], ["nobody"]);
            var once := RewriteText("[s]\nx\n", "s", AccessLines(req));
            && ValidRequest(req) && once.Ok?
            && |ParseText(once.value)| == 1 && ParseText(once.value)[0].Mode() != "secure"
  {
    hide *;
    var req := Request("s", Secure, [], ["nobody"]);
    SecureNobodyIsValid(req);
    var conf := "[s]\nx\n";
    PlainConf();
    HeaderOfS();
    SectionIsThere(Lines(conf));
    HasTheSection(conf, req);
    ShareOfPlain(conf);
    NothingStaleAgrees(conf, req);
    RequestedModeIsParsedMode(conf, req, 0);
    SecureSpelled();
    assert "nobody" in req.writeList;
  }

  lemma PlainConf()
    ensures Lines("[s]\nx\n") == ["[s]", "x"]
  {
    assert "[s]\nx\n" == "[s]\n" + "x" + "\n";
    TwoLines("x");
  }

  lemma SecureSpelled()
    ensures Secure.AsStr() == "secure" && Secure.Secure?
  {}

  lemma SecureNobodyIsValid(req: Request)
    requires req == Request("s", Secure, [], ["nobody"])
    ensures ValidRequest(req)
  {
    assert "secure" != "public";
    assert ValidUser("nobody") && ValidShareName("s");
    assert [] + ["nobody"] == ["nobody"];
  }

  lemma NothingStaleAgrees(conf: string, req: Request)
    requires NoContinuation(Lines(conf))
    ensures Regular(Lines(conf), "s")
    ensures forall s | s in StaleSettings(conf, "s") :: Agrees(s, req)
  {
    hide Regular, StaleSettings, Lines;
    UncontinuedConf(conf, "s");
    hide PrivateUsers;
  }

  lemma ShareOfPlain(conf: string)
    requires Lines(conf) == ["[s]", "x"]
    ensures NoContinuation(Lines(conf))
    ensures |ParseText(conf)| == 1 && ParseText(conf)[0].name == "s" && ParseText(conf)[0].guestAccount == "nobody"
  {
    HeaderOfS();
    TrimKeepsSolid("x");
    FindAbsent("x", '=');
    assert !Continues("x");
    hide Trim, Continues, ParseText;
    assert ["[s]", "x"] == ["[s]"] + ["x"];
    ReadCons([], "[s]", ["x"]);
    ReadOne([NewShare("s")], "x");
    assert ReadLine([], "[s]") == [NewShare("s")];
    assert ReadLine([NewShare("s")], "x") == [NewShare("s")];
    OneShare(conf, NewShare("s"));
  }
}
