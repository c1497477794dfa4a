/** The export check accepts exactly what was asked for, and what the printer writes for it. */
module NfsExportsLaws {
  import opened Wrappers
  import opened Text
  import opened Ordering
  import opened NfsExports

  // ---- What an empty report means ------------------------------------------------

  /** The line exports to the wanted clients, each with the wanted options, and no surprises. */
  ghost predicate ExportsExactly(want: ExportEntry, g: Groups) {
    && multiset(ClientNames(g.clients)) == multiset(want.allowedClients)
    && (forall c | c in g.clients :: multiset(c.1) == multiset(want.options))
    && forall d | d in g.defaults :: ExpectedDefault(d)
  }

  /** The reader keeps each client's options sorted. */
  ghost predicate OptionsSorted(g: Groups) {
    forall c | c in g.clients :: Sorted(c.1)
  }

  lemma {:induction false} NoOptionProblemsIff(clients: seq<ClientGroup>, want: seq<string>)
    ensures OptionProblems(clients, want) == [] <==> forall c | c in clients :: c.1 == want
  {
    if clients == [] {
    } else {
      NoOptionProblemsIff(clients[1..], want);
      assert clients == [clients[0]] + clients[1..];
    }
  }

  lemma {:induction false} NothingUnexpectedIff(defaults: seq<string>)
    ensures Unexpected(defaults) == [] <==> forall d | d in defaults :: ExpectedDefault(d)
  {
    if defaults == [] {
    } else {
      NothingUnexpectedIff(defaults[1..]);
      assert defaults == [defaults[0]] + defaults[1..];
    }
  }

  lemma SortedEqualsSort(s: seq<string>, want: seq<string>)
    requires Sorted(s)
    ensures s == Sort(want) <==> multiset(s) == multiset(want)
  {
    if multiset(s) == multiset(want) {
      SortSorted(want);
      SortedUnique(s, Sort(want));
    }
  }

  lemma NoGroupProblemsIff(want: ExportEntry, g: Groups)
    requires OptionsSorted(g)
    ensures GroupProblems(want, g) == [] <==> ExportsExactly(want, g)
  {
    SortEqualIffSameElements(want.allowedClients, ClientNames(g.clients));
    NoOptionProblemsIff(g.clients, Sort(want.options));
    NothingUnexpectedIff(g.defaults);
    forall c | c in g.clients ensures c.1 == Sort(want.options) <==> multiset(c.1) == multiset(want.options) {
      SortedEqualsSort(c.1, want.options);
    }
  }

  lemma {:induction false} AddTokensSorted(g: Groups, toks: seq<string>)
    requires OptionsSorted(g)
    ensures OptionsSorted(AddTokens(g, toks))
    decreases toks
  {
    if toks == [] {
    } else {
      if SplitOnce(toks[0], '(').Some? {
        SortSorted(NonEmpty(Split(TrimEndParens(SplitOnce(toks[0], '(').value.1), ',')));
      }
      AddTokensSorted(AddToken(g, toks[0]), toks[1..]);
    }
  }

  lemma {:induction false} FirstGroupsSorted(lines: seq<string>, path: string)
    ensures FirstGroups(lines, path).Some? ==> OptionsSorted(FirstGroups(lines, path).value)
  {
    if lines == [] {
    } else {
      if LineTokens(lines[0], path).Some? {
        AddTokensSorted(Groups([], []), LineTokens(lines[0], path).value);
      }
      FirstGroupsSorted(lines[1..], path);
    }
  }

  /**
   The report on a wanted entry is empty exactly when the path's live line has the
   wanted clients, counted, and each of them the wanted options, counted.
   */
  lemma EmptyReportIffExact(exports: string, path: string, want: ExportEntry)
    ensures Problems(exports, path, Some(want)) == [] <==>
              (FirstGroups(Lines(exports), path).Some?
               && ExportsExactly(want, FirstGroups(Lines(exports), path).value))
  {
    FirstGroupsSorted(Lines(exports), path);
    if FirstGroups(Lines(exports), path).Some? {
      NoGroupProblemsIff(want, FirstGroups(Lines(exports), path).value);
    }
  }

  /** A default is expected if it gives the fsid, the rest of the word being anything, or is one of two words. */
  lemma ExpectedSpelled(o: string)
    ensures ExpectedDefault(o) <==>
              || o == "async" || o == "no_subtree_check"
              || (|o| >= 5 && o[0] == 'f' && o[1] == 's' && o[2] == 'i' && o[3] == 'd' && o[4] == '=')
  {
    if |o| >= 5 { assert o == o[..5] + o[5..]; }
  }

  lemma {:induction false} NonEmptySpelled(parts: seq<string>, x: string)
    ensures x in NonEmpty(parts) <==> x in parts && x != ""
  {
    if parts == [] {
    } else {
      NonEmptySpelled(parts[1..], x);
      assert parts == [parts[0]] + parts[1..];
    }
  }

  /** A token that starts with `-`, even that alone, gives defaults and no client. */
  lemma DefaultsToken(g: Groups, rest: string, o: string)
    ensures AddToken(g, "-" + rest).clients == g.clients
    ensures o in AddToken(g, "-" + rest).defaults <==> o in g.defaults || (o != "" && o in Split(rest, ','))
  {
    assert ("-" + rest)[1..] == rest;
    NonEmptySpelled(Split(rest, ','), o);
    hide Split, NonEmpty;
  }

  // ---- What the printer writes is what the reader sees ------------------------------

  /** A validated entry, spelt out. */
  predicate Valid(e: ExportEntry) {
    && PathOk(e.path) && e.allowedClients != []
    && (forall c | c in e.allowedClients :: TokenOk(c, "[]"))
    && (forall o | o in e.options :: OptionOk(o))
  }

  lemma ValidatedIsValid(e: ExportEntry)
    requires ValidateEntry(e).Ok?
    ensures Valid(e)
  {}

  lemma TokenChars(c: char)
    requires TokenChar(c, "[]")
    ensures !IsSpace(c) && c !in "(),\""
  {}

  lemma OptionIsToken(o: string)
    requires OptionOk(o)
    ensures TokenOk(o, "[]")
  {}

  predicate Flagged(client: string) {
    client != "" && client[0] == '-'
  }

  function Unflagged(clients: seq<string>): seq<string> {
    if clients == [] then []
    else if Flagged(clients[0]) then Unflagged(clients[1..])
    else [clients[0]] + Unflagged(clients[1..])
  }

  lemma {:induction false} JoinedOptions(options: seq<string>)
    requires options != [] && forall o | o in options :: OptionOk(o)
    ensures var j := Join(options, ",");
            j != "" && forall i | 0 <= i < |j| :: TokenChar(j[i], "[]") || j[i] == ','
  {
    assert options[0] in options;
    OptionIsToken(options[0]);
    if |options| <= 1 {
    } else {
      JoinedOptions(options[1..]);
    }
  }

  lemma JoinedOptionsChars(options: seq<string>)
    requires options != [] && forall o | o in options :: OptionOk(o)
    ensures var j := Join(options, ",");
            j != "" && forall i | 0 <= i < |j| :: !IsSpace(j[i]) && j[i] != '(' && j[i] != ')'
  {
    JoinedOptions(options);
    var j := Join(options, ",");
    forall i | 0 <= i < |j| ensures !IsSpace(j[i]) && j[i] != '(' && j[i] != ')' {
      if j[i] != ',' { TokenChars(j[i]); }
    }
  }

  lemma ClientChars(client: string)
    requires TokenOk(client, "[]")
    ensures forall i | 0 <= i < |client| :: !IsSpace(client[i]) && client[i] != '('
    ensures '(' !in client
  {
    forall i | 0 <= i < |client| ensures !IsSpace(client[i]) && client[i] != '(' {
      TokenChars(client[i]);
    }
  }

  lemma OptionsReadBack(options: seq<string>)
    requires options != [] && forall o | o in options :: OptionOk(o)
    ensures NonEmpty(Split(TrimEndParens(Join(options, ",") + ")"), ',')) == options
  {
    var j := Join(options, ",");
    JoinedOptionsChars(options);
    assert (j + ")")[..|j|] == j;
    forall o | o in options ensures ',' !in o && o != "" {
      OptionIsToken(o);
      forall i | 0 <= i < |o| ensures o[i] != ',' { TokenChars(o[i]); }
    }
    SplitJoin(options, ',');
  }

  /** A printed client is one word; unless it starts with `-` it is read as itself. */
  lemma ClientReadsBack(client: string, options: seq<string>, g: Groups)
    requires TokenOk(client, "[]") && forall o | o in options :: OptionOk(o)
    ensures var tok := RenderClient(client, Join(options, ","));
            && IsWord(tok)
            && (!Flagged(client) && options != [] ==>
                  AddToken(g, tok) == g.(clients := g.clients + [(client, Sort(options))]))
            && (!Flagged(client) && options == [] ==> AddToken(g, tok) == g)
            && (Flagged(client) ==> AddToken(g, tok).clients == g.clients)
  {
    var j := Join(options, ",");
    ClientChars(client);
    if options == [] {
    } else {
      JoinedOptionsChars(options);
      var tok := RenderClient(client, j);
      assert tok == client + ['('] + (j + ")");
      SplitOnceJoined(client, '(', j + ")");
      OptionsReadBack(options);
    }
  }

  function Granted(clients: seq<string>, options: seq<string>): (r: seq<ClientGroup>)
    ensures |r| == |clients| && forall i | 0 <= i < |r| :: r[i] == (clients[i], Sort(options))
  {
    seq(|clients|, i requires 0 <= i < |clients| => (clients[i], Sort(options)))
  }

  lemma ClientsAreWords(clients: seq<string>, options: seq<string>)
    requires forall c | c in clients :: TokenOk(c, "[]")
    requires forall o | o in options :: OptionOk(o)
    ensures forall t | t in RenderClients(clients, Join(options, ",")) :: IsWord(t)
  {
    forall i | 0 <= i < |clients| ensures IsWord(RenderClient(clients[i], Join(options, ","))) {
      assert clients[i] in clients;
      ClientReadsBack(clients[i], options, Groups([], []));
    }
  }

  lemma GrantedFirst(clients: seq<string>, options: seq<string>)
    requires clients != []
    ensures Granted(Unflagged(clients), options)
         == (if Flagged(clients[0]) then [] else [(clients[0], Sort(options))])
            + Granted(Unflagged(clients[1..]), options)
  {
    hide Sort, Flagged;
  }

  lemma {:induction false} ClientsReadBack(clients: seq<string>, options: seq<string>, g: Groups)
    requires forall c | c in clients :: TokenOk(c, "[]")
    requires forall o | o in options :: OptionOk(o)
    ensures AddTokens(g, RenderClients(clients, Join(options, ","))).clients
         == g.clients + if options == [] then [] else Granted(Unflagged(clients), options)
    ensures (forall c | c in clients :: !Flagged(c)) ==>
              AddTokens(g, RenderClients(clients, Join(options, ","))).defaults == g.defaults
    decreases clients
  {
    hide AddToken, RenderClient, Join, Sort, Flagged, OptionOk, TokenOk;
    var toks := RenderClients(clients, Join(options, ","));
    if clients == [] {
    } else {
      var c, after := clients[0], AddToken(g, toks[0]);
      assert c in clients;
      ClientReadsBack(c, options, g);
      assert toks[1..] == RenderClients(clients[1..], Join(options, ","));
      ClientsReadBack(clients[1..], options, after);
      GrantedFirst(clients, options);
      if !Flagged(c) && options != [] {
        Assoc(g.clients, [(c, Sort(options))], Granted(Unflagged(clients[1..]), options));
      }
      hide Granted, RenderClients, Unflagged;
    }
  }

  lemma {:induction false} UnflaggedShorter(clients: seq<string>)
    ensures |Unflagged(clients)| <= |clients|
    ensures |Unflagged(clients)| == |clients| <==> Unflagged(clients) == clients
    ensures Unflagged(clients) == clients <==> forall c | c in clients :: !Flagged(c)
  {
    if clients == [] {
    } else {
      UnflaggedShorter(clients[1..]);
      assert clients == [clients[0]] + clients[1..];
    }
  }

  /** emhttp's default options: the fsid it assigned, if any, and its own two. */
  // ---- What validates, spelled out ---------------------------------------------------------

  ghost predicate AllIn(s: string, others: string) {
    s != "" && forall i | 0 <= i < |s| :: s[i] in LETTERS_AND_DIGITS || s[i] in others
  }

  lemma TokenSpelled(s: string, extra: string, others: string)
    requires forall c :: c in others <==> c in "._-:/=@*" || c in extra
    ensures TokenOk(s, extra) <==> AllIn(s, others)
  {
    forall c: char ensures TokenChar(c, extra) <==> c in LETTERS_AND_DIGITS || c in others { AlnumSpelled(c); }
    hide IsAlnumAscii, TokenChar;
  }

  lemma OptionSpelled(o: string)
    ensures OptionOk(o) <==> AllIn(o, "._-/=")
  {
    forall c: char ensures TokenChar(c, "") && c !in ":@*" <==> c in LETTERS_AND_DIGITS || c in "._-/=" {
      AlnumSpelled(c);
      NotLetters();
    }
    assert ":@*"[0] == ':' && ":@*"[1] == '@' && ":@*"[2] == '*';
    assert forall c :: c in ":@*" <==> c == ':' || c == '@' || c == '*';
    hide IsAlnumAscii, TokenChar;
  }

  lemma NotLetters()
    ensures ':' !in LETTERS_AND_DIGITS && '@' !in LETTERS_AND_DIGITS && '*' !in LETTERS_AND_DIGITS
  {
    AlnumSpelled(':');
    AlnumSpelled('@');
    AlnumSpelled('*');
  }

  /** A path is printable, and without quotes and backslashes; the other parts are words of the allowed characters. */
  lemma ValidatesIff(e: ExportEntry)
    ensures ValidateEntry(e).Ok? <==>
              && (forall c | c in e.path :: (' ' <= c <= '~' || '\U{00A0}' <= c) && c != '"' && c != '\\')
              && e.allowedClients != [] && (forall c | c in e.allowedClients :: AllIn(c, "._-:/=@*[]"))
              && (forall o | o in e.options :: AllIn(o, "._-/="))
              && (e.fsid.Some? ==> e.fsid.value == "" || AllIn(e.fsid.value, "._-:/=@*"))
  {
    PathSpelled(e.path);
    hide TokenOk, OptionOk, AllIn, PathOk;
    forall o: string { OptionSpelled(o); }
    BracketChars();
    forall c: string { TokenSpelled(c, "[]", "._-:/=@*[]"); }
    forall s: string { TokenSpelled(s, "", "._-:/=@*"); }
  }

  lemma PathSpelled(p: string)
    ensures PathOk(p) <==> forall c | c in p :: (' ' <= c <= '~' || '\U{00A0}' <= c) && c != '"' && c != '\\'
  {
    forall c: char ensures !IsControl(c) <==> ' ' <= c <= '~' || '\U{00A0}' <= c { ControlSpelled(c); }
    hide IsControl;
    assert forall i | 0 <= i < |p| :: p[i] in p;
  }

  lemma ControlSpelled(c: char)
    ensures !IsControl(c) <==> ' ' <= c <= '~' || '\U{00A0}' <= c
  {
    assert '~' as int == 0x7E && '\U{007F}' as int == 0x7F && '\U{009F}' as int == 0x9F && '\U{00A0}' as int == 0xA0;
  }

  lemma BracketChars()
    ensures forall c :: c in "._-:/=@*[]" <==> c in "._-:/=@*" || c in "[]"
  {
    assert "._-:/=@*[]" == "._-:/=@*" + "[]";
  }

  function DefaultOptions(fsid: Option<string>): seq<string> {
    (if fsid.Some? then ["fsid=" + fsid.value] else []) + ["async", "no_subtree_check"]
  }

  function DefaultGroup(fsid: Option<string>): string {
    "-" + Join(DefaultOptions(fsid), ",")
  }

  /** The line emhttp writes for the entry, from the printed host list. */
  function ExportLine(e: ExportEntry, fsid: Option<string>): string {
    "\"" + e.path + "\" " + DefaultGroup(fsid) + " " + RenderHostList(e.allowedClients, e.options)
  }

  predicate FsidOk(fsid: Option<string>) {
    fsid.None? || TokenOk(fsid.value, "")
  }

  lemma DefaultOptionWords(fsid: Option<string>)
    requires FsidOk(fsid)
    ensures forall o | o in DefaultOptions(fsid) :: IsWord(o) && ',' !in o && ExpectedDefault(o)
  {
    FixedOptionWords();
    if fsid.Some? { FsidOptionWord(fsid.value); }
    hide IsWord, ExpectedDefault;
  }

  lemma FixedOptionWords()
    ensures forall o | o in ["async", "no_subtree_check"] :: IsWord(o) && ',' !in o && ExpectedDefault(o)
  {}

  lemma FsidOptionWord(fsid: string)
    requires TokenOk(fsid, "")
    ensures IsWord("fsid=" + fsid) && ',' !in "fsid=" + fsid && ExpectedDefault("fsid=" + fsid)
  {
    forall i | 0 <= i < |fsid| ensures !IsSpace(fsid[i]) && fsid[i] != ',' {
      TokenChars(fsid[i]);
    }
  }

  lemma {:induction false} JoinedWords(words: seq<string>)
    requires forall w | w in words :: IsWord(w)
    ensures forall i | 0 <= i < |Join(words, ",")| :: !IsSpace(Join(words, ",")[i])
  {
    if words == [] {
    } else {
      assert words[0] in words;
      JoinedWords(words[1..]);
    }
  }

  /** A default group the check has nothing against. */
  lemma DefaultGroupReads(fsid: Option<string>)
    requires FsidOk(fsid)
    ensures IsWord(DefaultGroup(fsid))
    ensures var g := AddToken(Groups([], []), DefaultGroup(fsid));
            g.clients == [] && forall d | d in g.defaults :: ExpectedDefault(d)
  {
    hide DefaultOptions, ExpectedDefault, Join;
    var opts := DefaultOptions(fsid);
    DefaultOptionWords(fsid);
    JoinedWords(opts);
    assert opts != [] by { DefaultOptionsExist(fsid); }
    assert DefaultGroup(fsid)[1..] == Join(opts, ",");
    SplitJoin(opts, ',');
    assert "" !in opts;
    assert [] + opts == opts;
  }

  lemma DefaultOptionsExist(fsid: Option<string>)
    ensures DefaultOptions(fsid) != []
  {}

  /** The printed line, tokenised. */
  lemma ExportLineText(path: string, group: string, clients: seq<string>)
    requires clients != []
    ensures "\"" + path + "\" " + group + " " + Join(clients, " ")
         == "\"" + (path + ['"'] + (" " + Join([group] + clients, " ")))
  {
    var words := [group] + clients;
    assert words[1..] == clients;
    assert Join(words, " ") == group + " " + Join(clients, " ");
  }

  lemma QuotedIsSolid(path: string, more: string)
    requires more != "" && !IsSpace(more[|more| - 1])
    ensures var line := "\"" + (path + ['"'] + more); !IsSpace(line[0]) && !IsSpace(line[|line| - 1])
  {
    var line := "\"" + (path + ['"'] + more);
    assert line[|line| - 1] == more[|more| - 1];
  }

  lemma PrefixStripped(prefix: string, rest: string)
    ensures StripPrefix(prefix + rest, prefix) == Some(rest)
  {
    assert (prefix + rest)[..|prefix|] == prefix && (prefix + rest)[|prefix|..] == rest;
  }

  lemma QuotedLineTokens(path: string, more: string)
    requires '"' !in path && more != "" && !IsSpace(more[|more| - 1])
    ensures LineTokens("\"" + (path + ['"'] + more), path) == Some(Words(more))
  {
    hide Words, Trim, SplitOnce, StripPrefix;
    var rest := path + ['"'] + more;
    QuotedIsSolid(path, more);
    TrimKeepsSolid("\"" + rest);
    PrefixStripped("\"", rest);
    SplitOnceJoined(path, '"', more);
  }

  lemma ExportLineTokens(e: ExportEntry, fsid: Option<string>)
    requires Valid(e) && FsidOk(fsid)
    ensures LineTokens(ExportLine(e, fsid), e.path)
         == Some([DefaultGroup(fsid)] + RenderClients(e.allowedClients, Join(e.options, ",")))
  {
    hide DefaultGroup, AddToken, ExpectedDefault;
    var clients := RenderClients(e.allowedClients, Join(e.options, ","));
    var words := [DefaultGroup(fsid)] + clients;
    DefaultGroupReads(fsid);
    ClientsAreWords(e.allowedClients, e.options);
    LastOfJoin(words);
    WordsJoin(words);
    var more := " " + Join(words, " ");
    ExportLineText(e.path, DefaultGroup(fsid), clients);
    QuotedLineTokens(e.path, more);
  }

  lemma {:induction false} LastOfJoin(words: seq<string>)
    requires words != [] && forall w | w in words :: IsWord(w)
    ensures var j := Join(words, " "); j != "" && !IsSpace(j[|j| - 1])
  {
    assert words[0] in words;
    if |words| <= 1 {
    } else {
      LastOfJoin(words[1..]);
    }
  }

  /** The groups the printed line is read as. */
  lemma ExportLineGroups(e: ExportEntry, fsid: Option<string>)
    requires Valid(e) && FsidOk(fsid)
    ensures var g := LineGroups(ExportLine(e, fsid), e.path);
            && (g.Some? <==> e.options != [] && Unflagged(e.allowedClients) != [])
            && (g.Some? ==> g.value.clients == Granted(Unflagged(e.allowedClients), e.options))
            && (g.Some? && Unflagged(e.allowedClients) == e.allowedClients ==>
                  forall d | d in g.value.defaults :: ExpectedDefault(d))
  {
    hide DefaultGroup, AddToken, ExpectedDefault, Sort, Join, RenderClient;
    var clients := RenderClients(e.allowedClients, Join(e.options, ","));
    var g := AddToken(Groups([], []), DefaultGroup(fsid));
    ExportLineTokens(e, fsid);
    DefaultGroupReads(fsid);
    assert ([DefaultGroup(fsid)] + clients)[1..] == clients;
    ClientsReadBack(e.allowedClients, e.options, g);
    UnflaggedShorter(e.allowedClients);
    assert [] + Granted(Unflagged(e.allowedClients), e.options) == Granted(Unflagged(e.allowedClients), e.options);
  }

  lemma {:induction false} SkipOtherLines(before: seq<string>, rest: seq<string>, path: string)
    requires forall l | l in before :: LineGroups(l, path).None?
    ensures FirstGroups(before + rest, path) == FirstGroups(rest, path)
  {
    if before == [] {
      assert before + rest == rest;
    } else {
      assert before[0] in before;
      assert (before + rest)[1..] == before[1..] + rest;
      SkipOtherLines(before[1..], rest, path);
    }
  }

  lemma GrantedExactlyIff(e: ExportEntry, g: Groups)
    requires g.clients == Granted(Unflagged(e.allowedClients), e.options)
    requires Unflagged(e.allowedClients) == e.allowedClients ==> forall d | d in g.defaults :: ExpectedDefault(d)
    ensures ExportsExactly(e, g) <==> Unflagged(e.allowedClients) == e.allowedClients
  {
    UnflaggedShorter(e.allowedClients);
    assert ClientNames(g.clients) == Unflagged(e.allowedClients);
    if Unflagged(e.allowedClients) != e.allowedClients {
      assert |multiset(Unflagged(e.allowedClients))| < |multiset(e.allowedClients)|;
    }
  }

  /**
   The check has nothing to report about the line emhttp writes for a validated
   entry exactly when the entry has an option and no client starts with `-`.
   */
  lemma PrintedEntryChecksIff(before: seq<string>, e: ExportEntry, fsid: Option<string>,
                              after: seq<string>, exports: string)
    requires ValidateEntry(e).Ok? && FsidOk(fsid)
    requires Lines(exports) == before + [ExportLine(e, fsid)] + after
    requires forall l | l in before + after :: LineGroups(l, e.path).None?
    ensures Problems(exports, e.path, Some(e)) == [] <==>
              e.options != [] && forall c | c in e.allowedClients :: !Flagged(c)
  {
    hide LineGroups, ExportLine, Problems, ExportsExactly, Sort, Flagged;
    var line := ExportLine(e, fsid);
    ValidatedIsValid(e);
    ExportLineGroups(e, fsid);
    UnflaggedShorter(e.allowedClients);
    assert before + [line] + after == before + ([line] + after);
    SkipOtherLines(before, [line] + after, e.path);
    assert ([line] + after)[1..] == after && after + [] == after;
    SkipOtherLines(after, [], e.path);
    EmptyReportIffExact(exports, e.path, e);
    var g := LineGroups(line, e.path);
    if g.Some? {
      GrantedExactlyIff(e, g.value);
    }
  }

  // ---- Entries that validate and are reported all the same -----------------------------

  lemma {:induction false} WordsFitALine(words: seq<string>)
    requires forall w | w in words :: IsWord(w)
    ensures OneLine(Join(words, " "))
  {
    if words == [] {
    } else {
      assert words[0] in words && OneLine(words[0]);
      assert forall w | w in words[1..] :: w in words;
      WordsFitALine(words[1..]);
    }
  }

  /** The line of a valid entry is one line of text, kept whole by reading. */
  lemma ExportLineFits(e: ExportEntry, fsid: Option<string>)
    requires Valid(e) && FsidOk(fsid)
    ensures Lines(ExportLine(e, fsid) + "\n") == [ExportLine(e, fsid)]
  {
    hide DefaultGroup, AddToken, ExpectedDefault, IsWord, RenderClients;
    var clients := RenderClients(e.allowedClients, Join(e.options, ","));
    var words := [DefaultGroup(fsid)] + clients;
    DefaultGroupReads(fsid);
    ClientsAreWords(e.allowedClients, e.options);
    WordsFitALine(words);
    LastOfJoin(words);
    ExportLineText(e.path, DefaultGroup(fsid), clients);
    var line := ExportLine(e, fsid);
    assert OneLine(e.path) by { assert IsControl('\n'); }
    hide Join;
    assert line == "\"" + (e.path + ['"'] + (" " + Join(words, " ")));
    OneLineEnds(line);
  }

  lemma OneLineEnds(line: string)
    requires OneLine(line) && line != "" && !IsSpace(line[|line| - 1])
    ensures Lines(line + "\n") == [line]
  {
    assert Unlines([line]) == line + "\n";
    LinesUnlines([line]);
    assert Chomped([line]) == [line];
  }

  /** An entry alone in the table: the check reports it unless it has an option and no flagged client. */
  lemma LoneEntryChecksIff(e: ExportEntry)
    requires ValidateEntry(e).Ok?
    ensures Problems(ExportLine(e, None) + "\n", e.path, Some(e)) == [] <==>
              e.options != [] && forall c | c in e.allowedClients :: !Flagged(c)
  {
    ValidatedIsValid(e);
    ExportLineFits(e, None);
    var line := ExportLine(e, None);
    assert [] + [line] + [] == [line];
    PrintedEntryChecksIff([], e, None, [], line + "\n");
  }

  const FLAGGED := ExportEntry("/mnt/user/s", ["-x"], ["rw"], None)
  const BARE := ExportEntry("/mnt/user/s", ["nas"], [], None)

  /** A client that starts with `-` validates, and is reported missing once written. */
  lemma FlaggedClientIsReported()
    ensures ValidateEntry(FLAGGED).Ok? && Problems(ExportLine(FLAGGED, None) + "\n", FLAGGED.path, Some(FLAGGED)) != []
  {
    assert TokenOk("-x", "[]") && OptionOk("rw") && PathOk("/mnt/user/s");
    hide Problems, ExportLine, TokenOk, OptionOk, PathOk;
    assert ValidateEntry(FLAGGED).Ok?;
    LoneEntryChecksIff(FLAGGED);
    assert Flagged("-x") && "-x" in FLAGGED.allowedClients;
  }

  /** So does an entry without options. */
  lemma NoOptionIsReported()
    ensures ValidateEntry(BARE).Ok? && Problems(ExportLine(BARE, None) + "\n", BARE.path, Some(BARE)) != []
  {
    assert TokenOk("nas", "[]") && PathOk("/mnt/user/s");
    hide Problems, ExportLine, TokenOk, OptionOk, PathOk;
    assert ValidateEntry(BARE).Ok?;
    LoneEntryChecksIff(BARE);
  }
}
