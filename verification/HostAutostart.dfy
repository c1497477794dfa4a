/** The container names of the host's autostart file (src/docker_adopt/host.rs). */
module HostAutostart {
  import opened Wrappers
  import opened Text

  /** `l.split_whitespace().next()`: a line may carry a wait value after the name. */
  function FirstWord(l: string): Option<string> {
    var t := TrimStart(l);
    if t == "" then None else Some(t[..FindSpace(t)])
  }

  function FirstWords(ls: seq<string>): seq<string> {
    if ls == [] then []
    else (match FirstWord(ls[0]) case Some(w) => [w] case None => []) + FirstWords(ls[1..])
  }

  /** `parse_autostart`. */
  function ParseAutostart(s: string): seq<string> {
    FirstWords(Lines(s))
  }

  function LinesNotOf(ls: seq<string>, name: string): seq<string> {
    if ls == [] then []
    else if FirstWord(ls[0]) != Some(name) then [ls[0]] + LinesNotOf(ls[1..], name)
    else LinesNotOf(ls[1..], name)
  }

  function Terminated(s: string): string {
    if s != "" && !EndsWith(s, '\n') then s + "\n" else s
  }

  /** `autostart_with`: the new content for adding or removing `name`, if it is not so already. */
  function AutostartWith(cur: string, name: string, on: bool): Option<string> {
    if (name in ParseAutostart(cur)) == on then None
    else if on then Some(Terminated(cur) + name + "\n")
    else Some(Unlines(LinesNotOf(Lines(cur), name)))
  }

  /** The names other than `name`, in order. */
  function Without(names: seq<string>, name: string): (r: seq<string>)
    ensures name !in r
    ensures forall n :: n in r <==> n in names && n != name
  {
    if names == [] then []
    else
      assert names == [names[0]] + names[1..];
      (if names[0] == name then [] else [names[0]]) + Without(names[1..], name)
  }

  // ---- Lines and their first words ------------------------------------------------

  lemma FirstWordOfWord(w: string)
    requires IsWord(w)
    ensures FirstWord(w) == Some(w)
  {
    assert w[..|w|] == w;
  }

  lemma {:induction false} FirstWordCr(l: string)
    ensures FirstWord(l + "\r") == FirstWord(l)
    decreases |l|
  {
    if l == "" {
      assert l + "\r" == "\r";
      assert "\r"[1..] == "";
    } else if IsSpace(l[0]) {
      assert (l + "\r")[1..] == l[1..] + "\r";
      FirstWordCr(l[1..]);
    } else {
      FindSpaceCr(l);
      assert (l + "\r")[..FindSpace(l)] == l[..FindSpace(l)];
    }
  }

  lemma {:induction false} FindSpaceCr(l: string)
    ensures FindSpace(l + "\r") == FindSpace(l)
  {
    if l == "" {
      assert l + "\r" == "\r";
    } else {
      assert (l + "\r")[1..] == l[1..] + "\r";
      FindSpaceCr(l[1..]);
    }
  }

  lemma FirstWordChomp(l: string)
    ensures FirstWord(ChompCr(l)) == FirstWord(l)
  {
    if EndsWith(l, '\r') {
      assert l == l[..|l| - 1] + "\r";
      FirstWordCr(l[..|l| - 1]);
    }
  }

  lemma {:induction false} FirstWordsChomped(ls: seq<string>)
    ensures FirstWords(Chomped(ls)) == FirstWords(ls)
  {
    if ls == [] {
    } else {
      FirstWordChomp(ls[0]);
      assert Chomped(ls)[1..] == Chomped(ls[1..]);
      FirstWordsChomped(ls[1..]);
    }
  }

  lemma {:induction false} FirstWordsConcat(a: seq<string>, b: seq<string>)
    ensures FirstWords(a + b) == FirstWords(a) + FirstWords(b)
  {
    if a == [] {
      assert a + b == b;
    } else {
      assert (a + b)[1..] == a[1..] + b;
      FirstWordsConcat(a[1..], b);
    }
  }

  lemma FirstWordsCons(l: string, ls: seq<string>)
    ensures FirstWords([l] + ls) == (match FirstWord(l) case Some(w) => [w] case None => []) + FirstWords(ls)
  {
    assert ([l] + ls)[1..] == ls;
  }

  lemma WithoutCons(w: string, names: seq<string>, name: string)
    ensures Without([w] + names, name) == (if w == name then [] else [w]) + Without(names, name)
  {
    assert ([w] + names)[1..] == names;
  }

  lemma {:induction false} FirstWordsFiltered(ls: seq<string>, name: string)
    ensures FirstWords(LinesNotOf(ls, name)) == Without(FirstWords(ls), name)
  {
    if ls == [] {
      assert FirstWords([]) == [] && Without([], name) == [];
    } else {
      hide FirstWord, FirstWords, Without;
      var rest := LinesNotOf(ls[1..], name);
      FirstWordsFiltered(ls[1..], name);
      assert ls == [ls[0]] + ls[1..];
      FirstWordsCons(ls[0], ls[1..]);
      FirstWordsCons(ls[0], rest);
      if FirstWord(ls[0]).Some? {
        WithoutCons(FirstWord(ls[0]).value, FirstWords(ls[1..]), name);
      } else {
        assert [] + FirstWords(ls[1..]) == FirstWords(ls[1..]) && [] + FirstWords(rest) == FirstWords(rest);
      }
    }
  }

  lemma {:induction false} FilteredLinesAreOneLine(ls: seq<string>, name: string)
    requires forall l | l in ls :: OneLine(l)
    ensures forall l | l in LinesNotOf(ls, name) :: OneLine(l)
  {
    if ls == [] {
    } else {
      assert ls[0] in ls;
      assert forall l | l in ls[1..] :: l in ls;
      FilteredLinesAreOneLine(ls[1..], name);
    }
  }

  lemma LastLineTerminated(s: string)
    requires s != "" && OneLine(s)
    ensures FirstWords(Lines(s + "\n")) == FirstWords(Lines(s))
  {
    hide FirstWord;
    var t := s + "\n";
    FindAbsent(s, '\n');
    assert t[..|s|] == s && t[|s|] == '\n';
    FindUnique(t, '\n', |s|);
    assert t[|s| + 1..] == "";
    FirstWordChomp(s);
    assert Lines(t) == [ChompCr(s)];
    assert FirstWords([ChompCr(s)][1..]) == [] && FirstWords([s][1..]) == [];
  }

  /** A last line without its line feed reads the same with it. */
  lemma {:induction false} TerminatedReadsSame(s: string)
    ensures ParseAutostart(Terminated(s)) == ParseAutostart(s)
    decreases |s|
  {
    if s == "" || EndsWith(s, '\n') {
    } else {
      var i := Find(s, '\n');
      var t := s + "\n";
      if i == |s| {
        LastLineTerminated(s);
      } else {
        hide FirstWord, ChompCr;
        assert t[..i] == s[..i];
        FindUnique(t, '\n', i);
        assert t[i + 1..] == s[i + 1..] + "\n";
        TerminatedReadsSame(s[i + 1..]);
        assert Terminated(s[i + 1..]) == s[i + 1..] + "\n";
        assert Lines(t) == [ChompCr(t[..i])] + Lines(t[i + 1..]);
        assert Lines(s) == [ChompCr(s[..i])] + Lines(s[i + 1..]);
      }
    }
  }

  lemma {:induction false} LinesConcat(s: string, more: string)
    requires s == "" || EndsWith(s, '\n')
    ensures Lines(s + more) == Lines(s) + Lines(more)
    decreases |s|
  {
    hide Lines, ChompCr, Find;
    if s == "" {
      LinesNone();
      assert s + more == more;
    } else {
      var i := Find(s, '\n');
      assert s[..|s|] == s && s[|s| - 1] in s;
      assert i < |s|;
      assert (s + more)[..i] == s[..i] && (s + more)[i + 1..] == s[i + 1..] + more;
      LinesFirst(s, i);
      LinesFirst(s + more, i);
      LinesConcat(s[i + 1..], more);
      Assoc([ChompCr(s[..i])], Lines(s[i + 1..]), Lines(more));
    }
  }

  lemma ParseOneName(name: string)
    requires IsWord(name)
    ensures ParseAutostart(name + "\n") == [name]
  {
    assert forall c | c in name :: !IsSpace(c);
    assert IsSpace('\n') && OneLine(name);
    assert Unlines([name]) == name + "\n";
    LinesUnlines([name]);
    FirstWordsChomped([name]);
    FirstWordOfWord(name);
  }

  lemma ParseAdded(cur: string, name: string)
    requires IsWord(name)
    ensures ParseAutostart(Terminated(cur) + name + "\n") == ParseAutostart(cur) + [name]
  {
    var t := Terminated(cur);
    assert t + name + "\n" == t + (name + "\n");
    LinesConcat(t, name + "\n");
    FirstWordsConcat(Lines(t), Lines(name + "\n"));
    TerminatedReadsSame(cur);
    ParseOneName(name);
  }

  lemma ParseRemoved(cur: string, name: string)
    ensures ParseAutostart(Unlines(LinesNotOf(Lines(cur), name))) == Without(ParseAutostart(cur), name)
  {
    var kept := LinesNotOf(Lines(cur), name);
    FirstWordsFiltered(Lines(cur), name);
    if kept == [] {
      assert Unlines(kept) == Unlines([""]);
      LinesUnlines([""]);
      assert Chomped([""]) == [""];
      assert FirstWords([""]) == [];
    } else {
      LinesAreOneLine(cur);
      FilteredLinesAreOneLine(Lines(cur), name);
      LinesUnlines(kept);
      FirstWordsChomped(kept);
    }
  }

  /**
   Writing `name` present or absent and reading the file back: nothing is written exactly when
   it already reads so; otherwise exactly `name` is appended, or exactly its entries are gone.
   */
  lemma AutostartReadsBack(cur: string, name: string, on: bool)
    requires IsWord(name)
    ensures AutostartWith(cur, name, on).None? <==> (name in ParseAutostart(cur)) == on
    ensures AutostartWith(cur, name, on).Some? ==>
              ParseAutostart(AutostartWith(cur, name, on).value)
              == if on then ParseAutostart(cur) + [name] else Without(ParseAutostart(cur), name)
  {
    ParseAdded(cur, name);
    ParseRemoved(cur, name);
  }

  /** `kept` is `ls` in order, without lines whose first word is `name`. */
  ghost predicate OnlyLinesOfGone(ls: seq<string>, kept: seq<string>, name: string) {
    if ls == [] then kept == []
    else if Words(ls[0]) != [] && Words(ls[0])[0] == name then OnlyLinesOfGone(ls[1..], kept, name)
    else kept != [] && kept[0] == ls[0] && OnlyLinesOfGone(ls[1..], kept[1..], name)
  }

  lemma FirstWordIsOfWords(l: string)
    ensures FirstWord(l) == if Words(l) == [] then None else Some(Words(l)[0])
  {}

  lemma {:induction false} LinesNotOfKeeps(ls: seq<string>, name: string)
    ensures OnlyLinesOfGone(ls, LinesNotOf(ls, name), name)
  {
    hide FirstWord, Words;
    if ls == [] {
    } else {
      FirstWordIsOfWords(ls[0]);
      LinesNotOfKeeps(ls[1..], name);
      assert ([ls[0]] + LinesNotOf(ls[1..], name))[1..] == LinesNotOf(ls[1..], name);
    }
  }

  /**
   The other lines survive a write as they are, wait values and all: a name is added on a line
   of its own after the file's text, and removed with its lines and nothing else.
   */
  lemma OtherLinesSurvive(cur: string, name: string, on: bool)
    requires AutostartWith(cur, name, on).Some?
    ensures on ==>
              AutostartWith(cur, name, on).value
              == cur + (if cur == "" || cur[|cur| - 1] == '\n' then "" else "\n") + name + "\n"
    ensures !on ==>
              exists kept :: OnlyLinesOfGone(Lines(cur), kept, name)
                             && AutostartWith(cur, name, on).value == Join(kept, "\n") + "\n"
  {
    if on {
      assert cur + "" == cur;
    } else {
      LinesNotOfKeeps(Lines(cur), name);
    }
  }

  function AfterWrite(cur: string, name: string, on: bool): string {
    AutostartWith(cur, name, on).GetOr(cur)
  }

  /** Switching a name off and on again (or on and off) leaves every name's membership as it was. */
  lemma AutostartUndone(cur: string, name: string, n: string)
    requires IsWord(name)
    ensures var was := name in ParseAutostart(cur);
            n in ParseAutostart(AfterWrite(AfterWrite(cur, name, !was), name, was)) <==> n in ParseAutostart(cur)
  {
    hide ParseAutostart, AutostartWith;
    var was := name in ParseAutostart(cur);
    AutostartReadsBack(cur, name, !was);
    AutostartReadsBack(AfterWrite(cur, name, !was), name, was);
  }
}
