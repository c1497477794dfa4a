/**
 Share cfg files: the key writer (`write_cfg_keys`, src/exports.rs) against the
 ini reader (`parse_ini`, src/share_cache.rs).
 */
module ShareCfg {
  import opened Wrappers
  import opened Text

  type Update = (string, string)

  /** The key a cfg line sets; comments set none. */
  function LineKey(line: string): Option<string> {
    var t := Trim(line);
    match SplitOnce(t, '=')
    case Some((k, _)) => if t[..1] == "#" then None else Some(Trim(k))
    case None => None
  }

  /** A line sets what stands before its first `=`, white space around it aside, unless `#` opens it. */
  lemma LineKeySpelled(line: string)
    ensures var t := Trim(line);
            && ('=' !in t || t[0] == '#' ==> LineKey(line) == None)
            && (forall i | 0 <= i < |t| && t[i] == '=' && (forall j | 0 <= j < i :: t[j] != '=') ::
                  t[0] != '#' ==> LineKey(line) == Some(Trim(t[..i])))
  {
    var t := Trim(line);
    hide Trim;
    if '=' in t {
      forall i | 0 <= i < |t| && t[i] == '=' && (forall j | 0 <= j < i :: t[j] != '=') ensures Find(t, '=') == i {
        FindUnique(t, '=', i);
      }
      assert t[..1] == [t[0]];
    } else {
      FindAbsent(t, '=');
    }
    hide Find;
  }

  function UpdateFor(updates: seq<Update>, key: string): Option<Update> {
    if updates == [] then None
    else if updates[0].0 == key then Some(updates[0])
    else UpdateFor(updates[1..], key)
  }

  function LineUpdate(updates: seq<Update>, line: string): Option<Update> {
    match LineKey(line)
    case Some(k) => UpdateFor(updates, k)
    case None => None
  }

  function Rendered(u: Update): string {
    u.0 + "=\"" + u.1 + "\""
  }

  /** Each line, with the ones an update names replaced by it. */
  function Replaced(updates: seq<Update>, lines: seq<string>): (r: seq<string>)
    ensures |r| == |lines|
    ensures forall i | 0 <= i < |r| :: r[i] == ReplacedLine(updates, lines[i])
  {
    seq(|lines|, i requires 0 <= i < |lines| => ReplacedLine(updates, lines[i]))
  }

  function ReplacedLine(updates: seq<Update>, line: string): string {
    match LineUpdate(updates, line)
    case Some(u) => Rendered(u)
    case None => line
  }

  predicate Names(updates: seq<Update>, lines: seq<string>, key: string) {
    exists l | l in lines :: LineUpdate(updates, l).Some? && LineUpdate(updates, l).value.0 == key
  }

  /** The updates no line named, in order. */
  function Missing(updates: seq<Update>, rest: seq<Update>, lines: seq<string>): seq<string> {
    if rest == [] then []
    else
      (if Names(updates, lines, rest[0].0) then [] else [Rendered(rest[0])])
      + Missing(updates, rest[1..], lines)
  }

  function CfgLines(updates: seq<Update>, lines: seq<string>): seq<string> {
    Replaced(updates, lines) + Missing(updates, updates, lines)
  }

  /** The writer's loop: replace in place, remember what was applied, append the rest. */
  method WriteCfgKeys(text: string, updates: seq<Update>) returns (r: string)
    ensures r == Unlines(CfgLines(updates, Lines(text)))
  {
    var out: seq<string> := [];
    var applied: seq<string> := [];
    var lines := Lines(text);
    hide Lines, Rendered, Names;
    NamesNone(updates);
    for i := 0 to |lines|
      invariant out == Replaced(updates, lines[..i])
      invariant forall k :: k in applied <==> Names(updates, lines[..i], k)
    {
      assert lines[..i + 1] == lines[..i] + [lines[i]];
      NamesSnoc(updates, lines[..i], lines[i]);
      match LineUpdate(updates, lines[i]) {
        case Some(u) =>
          out := out + [Rendered(u)];
          applied := applied + [u.0];
        case None =>
          out := out + [lines[i]];
      }
    }
    assert lines[..|lines|] == lines;
    out := AppendMissing(out, updates, applied, lines);
    r := Unlines(out);
  }

  lemma NamesNone(updates: seq<Update>)
    ensures forall k :: !Names(updates, [], k)
  {}

  lemma NamesSnoc(updates: seq<Update>, lines: seq<string>, line: string)
    ensures forall k :: Names(updates, lines + [line], k) <==>
              Names(updates, lines, k) || (LineUpdate(updates, line).Some? && LineUpdate(updates, line).value.0 == k)
  {
    hide LineUpdate;
    assert line in lines + [line];
    assert forall l | l in lines :: l in lines + [line];
  }

  method AppendMissing(start: seq<string>, updates: seq<Update>, applied: seq<string>, ghost lines: seq<string>)
    returns (out: seq<string>)
    requires forall k :: k in applied <==> Names(updates, lines, k)
    ensures out == start + Missing(updates, updates, lines)
  {
    hide Names, Rendered;
    out := start;
    ghost var goal := start + Missing(updates, updates, lines);
    assert updates[0..] == updates;
    for i := 0 to |updates|
      invariant out + Missing(updates, updates[i..], lines) == goal
    {
      assert updates[i..][1..] == updates[i + 1..];
      var piece := if updates[i].0 in applied then [] else [Rendered(updates[i])];
      Assoc(out, piece, Missing(updates, updates[i + 1..], lines));
      out := out + piece;
    }
  }

  // ---- The reader ----------------------------------------------------------------

  function TrimStartQuotes(s: string): string {
    if s != "" && s[0] == '"' then TrimStartQuotes(s[1..]) else s
  }

  function TrimEndQuotes(s: string): string {
    if s != "" && s[|s| - 1] == '"' then TrimEndQuotes(s[..|s| - 1]) else s
  }

  /** `trim_matches('"')`. */
  function TrimQuotes(s: string): string {
    TrimStartQuotes(TrimEndQuotes(s))
  }

  function IniSection(line: string): Option<string> {
    Bracketed(Trim(line))
  }

  datatype Section = Section(name: string, values: map<string, string>)

  /** The `key = value` of one line, as the reader stores it. */
  function IniEntry(line: string): Option<(string, string)> {
    match SplitOnce(Trim(line), '=')
    case Some((k, v)) => Some((Trim(k), TrimQuotes(Trim(v))))
    case None => None
  }

  function Inserted(values: map<string, string>, line: string): map<string, string> {
    match IniEntry(line)
    case Some((k, v)) => values[k := v]
    case None => values
  }

  function ReadIni(out: seq<Section>, lines: seq<string>): seq<Section>
    requires out != []
    decreases lines
  {
    if lines == [] then out
    else match IniSection(lines[0])
      case Some(name) => ReadIni(out + [Section(TrimQuotes(name), map[])], lines[1..])
      case None =>
        var last := out[|out| - 1];
        ReadIni(out[|out| - 1 := Section(last.name, Inserted(last.values, lines[0]))], lines[1..])
  }

  /** `parse_ini`: keys go into the last section; those before any header into "". */
  method ParseIni(text: string) returns (out: seq<Section>)
    ensures out == ReadIni([Section("", map[])], Lines(text))
  {
    out := [Section("", map[])];
    var lines := Lines(text);
    for i := 0 to |lines|
      invariant out != [] && ReadIni(out, lines[i..]) == ReadIni([Section("", map[])], lines)
    {
      assert lines[i..][1..] == lines[i + 1..];
      match IniSection(lines[i]) {
        case Some(name) =>
          out := out + [Section(TrimQuotes(name), map[])];
        case None =>
          var last := |out| - 1;
          out := out[last := Section(out[last].name, Inserted(out[last].values, lines[i]))];
      }
    }
  }

  // ---- Reading back what was written -----------------------------------------------

  predicate SectionFree(lines: seq<string>) {
    forall l | l in lines :: IniSection(l).None?
  }

  function Values(values: map<string, string>, lines: seq<string>): map<string, string>
    decreases lines
  {
    if lines == [] then values else Values(Inserted(values, lines[0]), lines[1..])
  }

  lemma {:induction false} SectionFreeReads(name: string, values: map<string, string>, lines: seq<string>)
    requires SectionFree(lines)
    ensures ReadIni([Section(name, values)], lines) == [Section(name, Values(values, lines))]
    decreases lines
  {
    hide Inserted, IniSection;
    if lines == [] {
    } else {
      assert lines[0] in lines;
      assert [Section(name, values)][0 := Section(name, Inserted(values, lines[0]))]
          == [Section(name, Inserted(values, lines[0]))];
      SectionFreeReads(name, Inserted(values, lines[0]), lines[1..]);
    }
  }

  function UpdateMap(updates: seq<Update>): map<string, string> {
    if updates == [] then map[] else UpdateMap(updates[1..])[updates[0].0 := updates[0].1]
  }

  predicate PlainKeyword(k: string) {
    k != "" && forall i | 0 <= i < |k| :: IsAlnumAscii(k[i])
  }

  predicate PlainText(v: string) {
    OneLine(v) && (v != "" ==> v[0] != '"' && v[|v| - 1] != '"')
  }

  /** Updates that survive printing: distinct plain keys, values without quotes at their ends. */
  predicate PlainUpdates(updates: seq<Update>) {
    && (forall i, j | 0 <= i < j < |updates| :: updates[i].0 != updates[j].0)
    && forall u | u in updates :: PlainKeyword(u.0) && PlainText(u.1)
  }

  lemma QuotesTrimmed(v: string)
    requires PlainText(v)
    ensures TrimQuotes("\"" + v + "\"") == v
  {
    var open, quoted := "\"" + v, "\"" + v + "\"";
    assert quoted[..|quoted| - 1] == open && open[1..] == v;
    assert TrimEndQuotes(quoted) == TrimEndQuotes(open);
    if v == "" {
      assert open[..|open| - 1] == "" && TrimEndQuotes(open) == TrimEndQuotes("");
    } else {
      assert TrimEndQuotes(open) == open && TrimStartQuotes(open) == TrimStartQuotes(v);
    }
  }

  /** A written line is read as exactly its update. */
  lemma RenderedReads(u: Update)
    requires PlainKeyword(u.0) && PlainText(u.1)
    ensures IniEntry(Rendered(u)) == Some(u) && IniSection(Rendered(u)).None? && OneLine(Rendered(u))
    ensures ChompCr(Rendered(u)) == Rendered(u)
  {
    hide TrimQuotes, Trim;
    var (k, v) := u;
    var quoted := "\"" + v + "\"";
    assert Rendered(u) == k + ['='] + quoted;
    assert IsAlnumAscii(k[0]) && IsAlnumAscii(k[|k| - 1]);
    TrimKeepsSolid(Rendered(u));
    SplitOnceJoined(k, '=', quoted);
    TrimKeepsSolid(k);
    TrimKeepsSolid(quoted);
    QuotesTrimmed(v);
  }

  lemma {:induction false} UpdateForFinds(updates: seq<Update>, key: string)
    ensures UpdateFor(updates, key).Some? ==>
              UpdateFor(updates, key).value in updates && UpdateFor(updates, key).value.0 == key
    ensures UpdateFor(updates, key).Some? <==> key in UpdateMap(updates)
    ensures UpdateFor(updates, key).Some? ==> UpdateMap(updates)[key] == UpdateFor(updates, key).value.1
  {
    if updates == [] {
    } else {
      UpdateForFinds(updates[1..], key);
    }
  }

  /** A line is left alone only if the reader would store no updated key from it. */
  lemma UnnamedLine(updates: seq<Update>, line: string)
    requires PlainUpdates(updates) && LineUpdate(updates, line).None? && IniEntry(line).Some?
    ensures IniEntry(line).value.0 !in UpdateMap(updates)
  {
    hide UpdateMap;
    var t := Trim(line);
    var (k, _) := SplitOnce(t, '=').value;
    UpdateForFinds(updates, Trim(k));
    if LineKey(line).None? {
      assert t[0] == '#' && k[0] == '#';
      TrimEndKeepsHead(k);
    }
  }

  lemma {:induction false} TrimEndKeepsHead(k: string)
    requires k != "" && !IsSpace(k[0])
    ensures Trim(k) != "" && Trim(k)[0] == k[0]
  {
    if IsSpace(k[|k| - 1]) {
      TrimEndKeepsHead(k[..|k| - 1]);
    }
  }

  /** Two readings agree outside the updates; those in `done` have their new value. */
  ghost predicate Agrees(before: map<string, string>, after: map<string, string>,
                         updates: seq<Update>, done: set<string>)
  {
    && (forall k | k !in UpdateMap(updates) :: k in before <==> k in after)
    && (forall k | k !in UpdateMap(updates) && k in before :: before[k] == after[k])
    && (forall k | k in UpdateMap(updates) :: k in after <==> k in done)
    && (forall k | k in UpdateMap(updates) && k in done :: after[k] == UpdateMap(updates)[k])
  }

  ghost function Named(updates: seq<Update>, line: string): set<string> {
    if LineUpdate(updates, line).Some? then {LineUpdate(updates, line).value.0} else {}
  }

  lemma OneLineAgrees(before: map<string, string>, after: map<string, string>, updates: seq<Update>,
                      done: set<string>, line: string)
    requires PlainUpdates(updates) && Agrees(before, after, updates, done)
    ensures Agrees(Inserted(before, line), Inserted(after, ReplacedLine(updates, line)),
                   updates, done + Named(updates, line))
  {
    match LineUpdate(updates, line)
    case Some(u) =>
      UpdateForFinds(updates, LineKey(line).value);
      RenderedReads(u);
    case None =>
      if IniEntry(line).Some? {
        UnnamedLine(updates, line);
      }
  }

  ghost function AllNamed(updates: seq<Update>, lines: seq<string>): set<string> {
    if lines == [] then {} else Named(updates, lines[0]) + AllNamed(updates, lines[1..])
  }

  lemma {:induction false} AllNamedIsNames(updates: seq<Update>, lines: seq<string>, key: string)
    ensures key in AllNamed(updates, lines) <==> Names(updates, lines, key)
  {
    if lines == [] {
    } else {
      AllNamedIsNames(updates, lines[1..], key);
      assert lines == [lines[0]] + lines[1..];
    }
  }

  lemma {:induction false} LinesAgree(before: map<string, string>, after: map<string, string>,
                                      updates: seq<Update>, done: set<string>, lines: seq<string>)
    requires PlainUpdates(updates) && Agrees(before, after, updates, done)
    ensures Agrees(Values(before, lines), Values(after, Replaced(updates, lines)), updates,
                   done + AllNamed(updates, lines))
    decreases lines
  {
    if lines == [] {
      assert done + {} == done;
    } else {
      OneLineAgrees(before, after, updates, done, lines[0]);
      assert Replaced(updates, lines)[1..] == Replaced(updates, lines[1..]);
      assert done + AllNamed(updates, lines)
          == done + Named(updates, lines[0]) + AllNamed(updates, lines[1..]);
      LinesAgree(Inserted(before, lines[0]), Inserted(after, ReplacedLine(updates, lines[0])),
                 updates, done + Named(updates, lines[0]), lines[1..]);
    }
  }

  lemma {:induction false} ValuesAppend(values: map<string, string>, a: seq<string>, b: seq<string>)
    ensures Values(values, a + b) == Values(Values(values, a), b)
    decreases a
  {
    if a == [] {
      assert a + b == b;
    } else {
      assert (a + b)[1..] == a[1..] + b;
      ValuesAppend(Inserted(values, a[0]), a[1..], b);
    }
  }

  ghost function KeysIn(updates: seq<Update>): set<string> {
    set u | u in updates :: u.0
  }

  /** The appended lines supply what no line named. */
  lemma {:induction false} MissingAgree(before: map<string, string>, after: map<string, string>,
                                        updates: seq<Update>, done: set<string>, rest: seq<Update>,
                                        lines: seq<string>)
    requires Agrees(before, after, updates, done)
    requires forall u | u in rest :: u in updates && PlainKeyword(u.0) && PlainText(u.1)
    requires forall u | u in updates :: u.0 in UpdateMap(updates) && UpdateMap(updates)[u.0] == u.1
    requires forall u | u in rest :: Names(updates, lines, u.0) ==> u.0 in done
    ensures Agrees(before, Values(after, Missing(updates, rest, lines)), updates, done + KeysIn(rest))
    decreases rest
  {
    hide Inserted, Names, PlainKeyword, PlainText;
    if rest == [] {
      assert done + KeysIn(rest) == done;
    } else {
      var u, more := rest[0], Missing(updates, rest[1..], lines);
      assert rest == [u] + rest[1..];
      assert KeysIn(rest) == {u.0} + KeysIn(rest[1..]);
      assert done + KeysIn(rest) == done + {u.0} + KeysIn(rest[1..]);
      if Names(updates, lines, u.0) {
        assert [] + more == more && done + {u.0} == done;
        MissingAgree(before, after, updates, done, rest[1..], lines);
      } else {
        assert ([Rendered(u)] + more)[1..] == more;
        RenderedInserted(after, u);
        MissingAgree(before, after[u.0 := u.1], updates, done + {u.0}, rest[1..], lines);
      }
    }
  }

  lemma RenderedInserted(values: map<string, string>, u: Update)
    requires PlainKeyword(u.0) && PlainText(u.1)
    ensures Inserted(values, Rendered(u)) == values[u.0 := u.1]
  {
    RenderedReads(u);
  }

  lemma {:induction false} UpdateAt(updates: seq<Update>, i: nat)
    requires PlainUpdates(updates) && i < |updates|
    ensures updates[i].0 in UpdateMap(updates) && UpdateMap(updates)[updates[i].0] == updates[i].1
  {
    if i == 0 {
    } else {
      UpdateAt(updates[1..], i - 1);
    }
  }

  lemma {:induction false} UpdateMapKeys(updates: seq<Update>)
    ensures UpdateMap(updates).Keys == KeysIn(updates)
  {
    if updates == [] {
    } else {
      UpdateMapKeys(updates[1..]);
      assert updates == [updates[0]] + updates[1..];
    }
  }

  /** Every key the updates do not name keeps its value; the others have theirs. */
  lemma CfgValues(updates: seq<Update>, lines: seq<string>)
    requires PlainUpdates(updates)
    ensures Values(map[], CfgLines(updates, lines)) == Values(map[], lines) + UpdateMap(updates)
  {
    var before := Values(map[], lines);
    var mid := Values(map[], Replaced(updates, lines));
    LinesAgree(map[], map[], updates, {}, lines);
    forall k ensures k in AllNamed(updates, lines) <==> Names(updates, lines, k) {
      AllNamedIsNames(updates, lines, k);
    }
    assert {} + AllNamed(updates, lines) == AllNamed(updates, lines);
    forall u | u in updates ensures u.0 in UpdateMap(updates) && UpdateMap(updates)[u.0] == u.1 {
      var i :| 0 <= i < |updates| && updates[i] == u;
      UpdateAt(updates, i);
    }
    MissingAgree(before, mid, updates, AllNamed(updates, lines), updates, lines);
    ValuesAppend(map[], Replaced(updates, lines), Missing(updates, updates, lines));
    UpdateMapKeys(updates);
    AgreedWithAll(before, Values(map[], CfgLines(updates, lines)), updates,
                  AllNamed(updates, lines) + KeysIn(updates));
  }

  lemma AgreedWithAll(before: map<string, string>, after: map<string, string>,
                      updates: seq<Update>, done: set<string>)
    requires Agrees(before, after, updates, done) && UpdateMap(updates).Keys <= done
    ensures after == before + UpdateMap(updates)
  {}

  lemma {:induction false} ValuesChomped(values: map<string, string>, lines: seq<string>)
    ensures Values(values, Chomped(lines)) == Values(values, lines)
    ensures SectionFree(lines) ==> SectionFree(Chomped(lines))
    decreases lines
  {
    if lines == [] {
    } else {
      TrimChompCr(lines[0]);
      assert Chomped(lines)[1..] == Chomped(lines[1..]);
      ValuesChomped(Inserted(values, lines[0]), lines[1..]);
      forall l | l in Chomped(lines) ensures SectionFree(lines) ==> IniSection(l).None? {
        var i :| 0 <= i < |lines| && l == ChompCr(lines[i]);
        TrimChompCr(lines[i]);
        assert lines[i] in lines;
      }
    }
  }

  lemma {:induction false} MissingPlain(updates: seq<Update>, rest: seq<Update>, lines: seq<string>)
    requires forall u | u in rest :: PlainKeyword(u.0) && PlainText(u.1)
    ensures forall l | l in Missing(updates, rest, lines) :: OneLine(l) && IniSection(l).None?
  {
    if rest == [] {
    } else {
      RenderedReads(rest[0]);
      MissingPlain(updates, rest[1..], lines);
    }
  }

  lemma ReplacedPlain(updates: seq<Update>, lines: seq<string>)
    requires PlainUpdates(updates) && SectionFree(lines) && forall l | l in lines :: OneLine(l)
    ensures forall l | l in Replaced(updates, lines) :: OneLine(l) && IniSection(l).None?
  {
    forall i | 0 <= i < |lines|
      ensures OneLine(ReplacedLine(updates, lines[i])) && IniSection(ReplacedLine(updates, lines[i])).None?
    {
      assert lines[i] in lines;
      if LineUpdate(updates, lines[i]).Some? {
        UpdateForFinds(updates, LineKey(lines[i]).value);
        RenderedReads(LineUpdate(updates, lines[i]).value);
      }
    }
  }

  lemma CfgLinesNotEmpty(updates: seq<Update>, lines: seq<string>)
    requires updates != []
    ensures CfgLines(updates, lines) != []
  {}

  /**
   A section-free cfg, written and read back, is one section with the requested
   keys set and every other key as it was.
   */
  lemma CfgReadsBack(text: string, updates: seq<Update>)
    requires PlainUpdates(updates) && updates != [] && SectionFree(Lines(text))
    ensures ReadIni([Section("", map[])], Lines(Unlines(CfgLines(updates, Lines(text)))))
         == [Section("", Values(map[], Lines(text)) + UpdateMap(updates))]
  {
    var lines := Lines(text);
    var out := CfgLines(updates, lines);
    LinesAreOneLine(text);
    ReplacedPlain(updates, lines);
    MissingPlain(updates, updates, lines);
    CfgLinesNotEmpty(updates, lines);
    LinesUnlines(out);
    ValuesChomped(map[], out);
    CfgValues(updates, lines);
    SectionFreeReads("", map[], Chomped(out));
  }
}
