/**
 Which anonymous volumes of a container become named ones, and under what names
 (src/docker_adopt/ownership.rs).
 */
module Conversions {
  import opened Wrappers
  import opened Text
  import opened Names
  import opened Docker

  // ---- Names ---------------------------------------------------------------------------

  function SlugChar(c: char): char {
    if IsAlnumAscii(c) then LowerChar(c) else '_'
  }

  function SlugChars(path: string): (r: string)
    ensures |r| == |path| && forall i | 0 <= i < |r| :: r[i] == SlugChar(path[i])
  {
    seq(|path|, i requires 0 <= i < |path| => SlugChar(path[i]))
  }

  /** `slug`: the path's words of letters and digits, lower-cased, joined by `_`. */
  function Slug(path: string): string {
    var s := Join(NonEmpty(Split(SlugChars(path), '_')), "_");
    if s == "" then "root" else s
  }

  /** `converted_name`. */
  function ConvertedName(name: string, target: string): string {
    name + "_" + Slug(target)
  }

  predicate IsSlugChar(c: char) {
    'a' <= c <= 'z' || '0' <= c <= '9' || c == '_'
  }

  predicate SlugText(s: string) {
    forall c | c in s :: IsSlugChar(c)
  }

  lemma {:induction false} PiecesAreSlugText(s: string)
    requires SlugText(s)
    ensures forall p | p in Split(s, '_') :: SlugText(p) && '_' !in p
    decreases |s|
  {
    var i := Find(s, '_');
    assert forall c | c in s[..i] :: c in s;
    assert forall c | c in s[i..] :: c in s;
    if i < |s| {
      assert forall c | c in s[i + 1..] :: c in s;
      PiecesAreSlugText(s[i + 1..]);
    } else {
      assert s[..i] == s;
    }
  }

  lemma {:induction false} NonEmptyKeeps(parts: seq<string>)
    ensures forall p :: p in NonEmpty(parts) <==> p in parts && p != ""
  {
    if parts == [] {
    } else {
      assert parts == [parts[0]] + parts[1..];
      NonEmptyKeeps(parts[1..]);
    }
  }

  lemma {:induction false} JoinIsSlugText(parts: seq<string>)
    requires forall p | p in parts :: SlugText(p) && p != ""
    ensures SlugText(Join(parts, "_")) && (Join(parts, "_") == "" <==> parts == [])
  {
    if |parts| > 1 {
      assert parts[0] in parts && forall p | p in parts[1..] :: p in parts;
      JoinIsSlugText(parts[1..]);
    } else if |parts| == 1 {
      assert parts[0] in parts;
    }
  }

  lemma SlugParts(path: string) returns (parts: seq<string>)
    ensures parts == NonEmpty(Split(SlugChars(path), '_'))
    ensures forall p | p in parts :: SlugText(p) && '_' !in p && p != ""
  {
    var s := SlugChars(path);
    assert forall c | c in s :: IsSlugChar(c);
    PiecesAreSlugText(s);
    NonEmptyKeeps(Split(s, '_'));
    parts := NonEmpty(Split(s, '_'));
  }

  /** A slug is never empty and holds only lower-case letters, digits and `_`. */
  lemma SlugShape(path: string)
    ensures Slug(path) != "" && SlugText(Slug(path))
  {
    var parts := SlugParts(path);
    JoinIsSlugText(parts);
  }

  lemma SlugCharsFixed(s: string)
    requires SlugText(s)
    ensures SlugChars(s) == s
  {
    forall i | 0 <= i < |s| ensures SlugChars(s)[i] == s[i] { assert s[i] in s; }
  }

  /** A slug is its own slug. */
  lemma SlugTwice(path: string)
    ensures Slug(Slug(path)) == Slug(path)
  {
    SlugShape(path);
    SlugCharsFixed(Slug(path));
    var parts := SlugParts(path);
    JoinIsSlugText(parts);
    var words := if parts == [] then ["root"] else parts;
    assert Slug(path) == Join(words, "_");
    SplitJoin(words, '_');
    assert "" !in words;
  }

  // ---- A slug in one pass ------------------------------------------------------------------

  predicate IsLetterOrDigit(c: char) {
    'a' <= c <= 'z' || 'A' <= c <= 'Z' || '0' <= c <= '9'
  }

  function Small(c: char): char {
    if 'A' <= c <= 'Z' then 'a' + (c - 'A') else c
  }

  /**
   The letters and digits of the path, in order and in small letters, with one `_` where something
   else stood between two of them; `started`: one was written already, `gap`: something else since.
   */
  function Squeezed(path: string, started: bool, gap: bool): string {
    if path == "" then ""
    else if IsLetterOrDigit(path[0]) then
      (if started && gap then "_" else "") + [Small(path[0])] + Squeezed(path[1..], true, false)
    else Squeezed(path[1..], started, true)
  }

  function WordsOf(s: string): seq<string> {
    NonEmpty(Split(s, '_'))
  }

  lemma WordsOfGap(s: string)
    requires s != "" && s[0] == '_'
    ensures WordsOf(s) == WordsOf(s[1..])
  {}

  lemma WordsOfLast(s: string)
    requires s != "" && '_' !in s
    ensures WordsOf(s) == [s]
  {
    FindAbsent(s, '_');
  }

  lemma WordsOfFirst(s: string, i: nat)
    requires 0 < i < |s| && s[i] == '_' && '_' !in s[..i]
    ensures WordsOf(s) == [s[..i]] + WordsOf(s[i + 1..])
  {
    FindUnique(s, '_', i);
  }

  lemma JoinFirst(w: string, words: seq<string>)
    ensures Join([w] + words, "_") == w + if words == [] then "" else "_" + Join(words, "_")
  {
    assert ([w] + words)[1..] == words;
  }

  /** Where the next word begins a character further on. */
  lemma WordsOfLetter(s: string)
    requires s != "" && s[0] != '_'
    ensures WordsOf(s) != []
    ensures Join(WordsOf(s), "_")
         == [s[0]] + (if |s| > 1 && s[1] == '_' && WordsOf(s[1..]) != [] then "_" else "") + Join(WordsOf(s[1..]), "_")
  {
    var i := Find(s, '_');
    hide Find, Split, NonEmpty, Join;
    assert s[..|s|] == s;
    if |s| == 1 {
      assert s == [s[0]] && s[1..] == "" && [s] + [] == [s];
      WordsOfLast(s);
      NoWordsOf();
      JoinNone();
      JoinFirst(s, []);
    } else if s[1] == '_' {
      assert s[..1] == [s[0]];
      WordsOfFirst(s, 1);
      WordsOfGap(s[1..]);
      assert s[1..][1..] == s[2..];
      JoinFirst([s[0]], WordsOf(s[2..]));
      JoinNone();
    } else if i == |s| {
      WordsOfLast(s);
      assert forall c | c in s[1..] :: c in s;
      WordsOfLast(s[1..]);
      JoinFirst(s, []);
      JoinFirst(s[1..], []);
      assert s == [s[0]] + s[1..] && [s] + [] == [s] && [s[1..]] + [] == [s[1..]];
    } else {
      assert i > 1;
      assert s[1..][..i - 1] == s[1..i] && s[..i] == [s[0]] + s[1..i];
      assert forall c | c in s[1..i] :: c in s[..i];
      WordsOfFirst(s, i);
      WordsOfFirst(s[1..], i - 1);
      assert s[1..][i..] == s[i + 1..];
      JoinFirst(s[..i], WordsOf(s[i + 1..]));
      JoinFirst(s[1..i], WordsOf(s[i + 1..]));
    }
  }

  lemma NoWordsOf()
    ensures WordsOf("") == []
  {}

  lemma JoinNone()
    ensures Join([], "_") == ""
  {}

  lemma SlugCharSpelled(c: char)
    ensures SlugChar(c) == if IsLetterOrDigit(c) then Small(c) else '_'
    ensures IsLetterOrDigit(c) ==> SlugChar(c) != '_'
  {}

  /** The rest of `Squeezed`, told of the words that are left. */
  function Unwritten(path: string, started: bool, gap: bool): string {
    var words := WordsOf(SlugChars(path));
    (if words != [] && started && (gap || (path != "" && SlugChars(path)[0] == '_')) then "_" else "")
    + Join(words, "_")
  }

  lemma UnwrittenLetter(path: string, started: bool, gap: bool)
    requires path != "" && IsLetterOrDigit(path[0])
    ensures Unwritten(path, started, gap)
         == (if started && gap then "_" else "") + [Small(path[0])] + Unwritten(path[1..], true, false)
  {
    hide Join, SlugChar, IsLetterOrDigit, Small, WordsOf;
    var (s, rest) := (SlugChars(path), SlugChars(path[1..]));
    assert s[1..] == rest;
    SlugCharSpelled(path[0]);
    WordsOfLetter(s);
    if |path| == 1 { NoWordsOf(); }
  }

  lemma UnwrittenGap(path: string, started: bool, gap: bool)
    requires path != "" && !IsLetterOrDigit(path[0])
    ensures Unwritten(path, started, gap) == Unwritten(path[1..], started, true)
  {
    hide Join, SlugChar, IsLetterOrDigit, Small, WordsOf;
    assert SlugChars(path)[1..] == SlugChars(path[1..]);
    SlugCharSpelled(path[0]);
    WordsOfGap(SlugChars(path));
  }

  lemma {:induction false} SqueezedIsUnwritten(path: string, started: bool, gap: bool)
    ensures Squeezed(path, started, gap) == Unwritten(path, started, gap)
  {
    hide IsLetterOrDigit, Small;
    if path == "" {
      NoWordsOf();
      JoinNone();
    } else if IsLetterOrDigit(path[0]) {
      hide Unwritten;
      UnwrittenLetter(path, started, gap);
      SqueezedIsUnwritten(path[1..], true, false);
    } else {
      hide Unwritten;
      UnwrittenGap(path, started, gap);
      SqueezedIsUnwritten(path[1..], started, true);
    }
  }

  /** A slug keeps the path's letters and digits, in order, and no other character of it. */
  lemma SlugIsSqueezed(path: string)
    ensures Slug(path) == if Squeezed(path, false, false) == "" then "root" else Squeezed(path, false, false)
  {
    SqueezedIsUnwritten(path, false, false);
    hide Split, NonEmpty, Join;
  }

  /** For a valid container name only the length can make a converted name invalid. */
  lemma ConvertedNameValidIff(name: string, target: string)
    requires ValidName(name)
    ensures ValidName(ConvertedName(name, target)) <==> |name| + 1 + |Slug(target)| <= 128
  {
    SlugShape(target);
    var named := ConvertedName(name, target);
    assert forall i | |name| < i < |named| :: named[i] == Slug(target)[i - |name| - 1] && named[i] in Slug(target);
    assert named[0] == name[0];
  }

  /** Two targets of a container clash, ignoring case, exactly when their slugs are the same. */
  lemma NamesClashIff(name: string, s: string, t: string)
    ensures Lower(ConvertedName(name, s)) == Lower(ConvertedName(name, t)) <==> Slug(s) == Slug(t)
  {
    SlugShape(s);
    SlugShape(t);
    LowerConcat(name + "_", Slug(s));
    LowerConcat(name + "_", Slug(t));
    LowerSlug(Slug(s));
    LowerSlug(Slug(t));
    var n := |name| + 1;
    assert Lower(ConvertedName(name, s))[n..] == Slug(s) && Lower(ConvertedName(name, t))[n..] == Slug(t);
  }

  lemma LowerConcat(a: string, b: string)
    ensures Lower(a + b) == Lower(a) + Lower(b)
  {}

  lemma LowerSlug(s: string)
    requires SlugText(s)
    ensures Lower(s) == s
  {
    forall i | 0 <= i < |s| ensures Lower(s)[i] == s[i] { assert s[i] in s; }
  }

  // ---- Labels ---------------------------------------------------------------------------

  /** `volume_labels`: what orca stamps on the volume of `name` at `target`. */
  function VolumeLabels(name: string, target: string): Labels {
    map["orca.managed" := "true", "orca.owner" := "unraid", "orca.stack" := name, "orca.service" := name,
        "orca.mount" := target]
  }

  // ---- Conversions ------------------------------------------------------------------------

  datatype Conversion = Conversion(anon: string, named: string, target: string, readOnly: bool,
                                   labels: Labels, reuse: bool, nocopy: bool)

  datatype Problem =
    | NotPlainLocal(volume: string)
    | BindOverlaps(volume: string)
    | AlsoMounted(volume: string)
    | UnsafeTarget(volume: string)
    | InvalidNewName(volume: string)
    | SameNewName(volume: string)
    | NewNameTaken(volume: string)

  /** What the planner knows of the volumes and containers. */
  datatype Known = Known(volumes: map<string, VolumeInspect>, existing: map<string, VolumeInspect>, empty: set<string>,
                         all: seq<ContainerInspect>)

  /** `mount_safe`: the path can be a `--mount` field. */
  predicate MountSafe(path: string) {
    path != "" && path[0] == '/' && ',' !in path && '"' !in path && '&' !in path && '\n' !in path && '\r' !in path
  }

  /** The mounts to convert: anonymous volumes that are not skipped. */
  predicate Converts(m: Mount, volumes: map<string, VolumeInspect>, skip: seq<string>) {
    NamesAnonymous(m, volumes) && m.name.value !in skip
  }

  /** The planned name is there, labeled for just this mount, and unused: a re-run takes it over. */
  predicate Reusable(name: string, target: string, h: Known) {
    var named := ConvertedName(name, target);
    && named in h.existing && h.existing[named].labels.GetOr(map[]) == VolumeLabels(name, target)
    && !MountedByAny(named, h.all)
  }

  function ConversionOf(name: string, m: Mount, h: Known): Conversion
    requires m.name.Some?
  {
    var target := m.destination;
    Conversion(m.name.value, ConvertedName(name, target), target, !m.rw, VolumeLabels(name, target),
               Reusable(name, target, h), m.name.value in h.empty)
  }

  function ConversionsOf(name: string, mounts: seq<Mount>, h: Known, skip: seq<string>): seq<Conversion> {
    if mounts == [] then []
    else if Converts(mounts[0], h.volumes, skip) then
      [ConversionOf(name, mounts[0], h)] + ConversionsOf(name, mounts[1..], h, skip)
    else ConversionsOf(name, mounts[1..], h, skip)
  }

  /** Nothing but a clash with another conversion stands in the way of converting `m`. */
  predicate Convertible(name: string, m: Mount, h: Known)
    requires m.name.Some?
  {
    var (anon, target, named) := (m.name.value, m.destination, ConvertedName(name, m.destination));
    && PlainLocal(anon, VolumeNamed(h.volumes, anon), m.source)
    && !MountedByOthers(anon, name, h.all)
    && MountSafe(target)
    && ValidName(named)
    && (named in h.existing ==> Reusable(name, target, h))
  }

  predicate AllConvertible(name: string, mounts: seq<Mount>, h: Known, skip: seq<string>) {
    forall m | m in mounts && Converts(m, h.volumes, skip) :: Convertible(name, m, h)
  }

  predicate DistinctNew(cs: seq<Conversion>) {
    forall i, j | 0 <= i < j < |cs| :: Lower(cs[i].named) != Lower(cs[j].named)
  }

  /** The rules on a volume to convert, spelled out. */
  ghost predicate MayConvert(name: string, m: Mount, h: Known)
    requires m.name.Some?
  {
    var (volume, path, named) := (m.name.value, m.destination, name + "_" + Slug(m.destination));
    && PlainVolume(volume, h.volumes, m.source)
    && OnlyMountedBy(volume, name, h.all)
    && path != "" && path[0] == '/' && (forall c | c in path :: c !in ",\"&\n\r")
    && ValidName(named)
    && (named in h.existing ==>
          && h.existing[named].labels
             == Some(map["orca.managed" := "true", "orca.owner" := "unraid", "orca.stack" := name,
                         "orca.service" := name, "orca.mount" := path])
          && forall c, m' | c in h.all && m' in c.volumes :: m'.name != Some(named))
  }

  lemma ConvertibleSpelled(name: string, m: Mount, h: Known)
    requires m.name.Some?
    ensures Convertible(name, m, h) <==> MayConvert(name, m, h)
  {
    hide PlainLocal, PlainVolume, MountedByOthers, OnlyMountedBy, ValidName, Slug, MountSafe, Reusable;
    PlainLocalSpelled(m.name.value, h.volumes, m.source);
    OthersSpelled(m.name.value, name, h.all);
    SafeSpelled(m.destination);
    ReusableSpelled(name, m.destination, h);
  }

  lemma SafeSpelled(path: string)
    ensures MountSafe(path) <==> path != "" && path[0] == '/' && forall c | c in path :: c !in ",\"&\n\r"
  {}

  lemma ReusableSpelled(name: string, path: string, h: Known)
    ensures var named := name + "_" + Slug(path);
            Reusable(name, path, h) <==>
              && named in h.existing
              && h.existing[named].labels
                 == Some(map["orca.managed" := "true", "orca.owner" := "unraid", "orca.stack" := name,
                             "orca.service" := name, "orca.mount" := path])
              && forall c, m | c in h.all && m in c.volumes :: m.name != Some(named)
  {
    hide Slug;
    var (named, labels) := (name + "_" + Slug(path), VolumeLabels(name, path));
    assert labels == map["orca.managed" := "true", "orca.owner" := "unraid", "orca.stack" := name,
                         "orca.service" := name, "orca.mount" := path];
    assert "orca.managed" in labels;
    hide VolumeLabels;
    assert named in h.existing ==>
        (h.existing[named].labels.GetOr(map[]) == labels <==> h.existing[named].labels == Some(labels));
    assert MountedByAny(named, h.all) <==> exists c, m :: c in h.all && m in c.volumes && m.name == Some(named);
  }

  lemma ConversionsSnoc(name: string, mounts: seq<Mount>, m: Mount, h: Known, skip: seq<string>)
    ensures ConversionsOf(name, mounts + [m], h, skip)
         == ConversionsOf(name, mounts, h, skip)
            + if Converts(m, h.volumes, skip) then [ConversionOf(name, m, h)] else []
  {
    if mounts == [] {
      assert mounts + [m] == [m];
      assert ConversionsOf(name, [m][1..], h, skip) == [];
    } else {
      assert (mounts + [m])[1..] == mounts[1..] + [m];
      ConversionsSnoc(name, mounts[1..], m, h, skip);
    }
  }

  /**
   `plan_conversions`. It reports no problem exactly when every volume to convert is
   convertible and no two of them get the same name ignoring case.
   */
  method PlanConversions(name: string, mounts: seq<Mount>, h: Known, skip: seq<string>)
    returns (out: seq<Conversion>, blockers: seq<Problem>)
    ensures out == ConversionsOf(name, mounts, h, skip)
    ensures blockers == [] <==> AllConvertible(name, mounts, h, skip) && DistinctNew(out)
  {
    hide AllConvertible, DistinctNew, ConversionsOf, NewNames, Lower, PlainLocal, MountedByOthers, MountSafe, ValidName,
         Reusable, VolumeLabels, ConvertedName;
    out, blockers := [], [];
    var taken: set<string> := {};
    NothingToConvert(name, h, skip);
    for k := 0 to |mounts|
      invariant out == ConversionsOf(name, mounts[..k], h, skip)
      invariant taken == NewNames(out)
      invariant blockers == [] <==> AllConvertible(name, mounts[..k], h, skip) && DistinctNew(out)
    {
      var m := mounts[k];
      assert mounts[..k + 1] == mounts[..k] + [m];
      ConversionsSnoc(name, mounts[..k], m, h, skip);
      ConvertibleSnoc(name, mounts[..k], m, h, skip);
      if Converts(m, h.volumes, skip) {
        var anon, target, named := m.name.value, m.destination, ConvertedName(name, m.destination);
        var problems := [];
        if !PlainLocal(anon, VolumeNamed(h.volumes, anon), m.source) { problems := problems + [NotPlainLocal(anon)]; }
        if MountedByOthers(anon, name, h.all) { problems := problems + [AlsoMounted(anon)]; }
        if !MountSafe(target) { problems := problems + [UnsafeTarget(anon)]; }
        if !ValidName(named) { problems := problems + [InvalidNewName(anon)]; }
        if Lower(named) in taken { problems := problems + [SameNewName(anon)]; }
        var reuse := Reusable(name, target, h);
        if named in h.existing && !reuse { problems := problems + [NewNameTaken(named)]; }
        assert problems == [] <==> Convertible(name, m, h) && Lower(named) !in taken;
        var cv := Conversion(anon, named, target, !m.rw, VolumeLabels(name, target), reuse, anon in h.empty);
        DistinctSnoc(out, cv);
        taken := taken + {Lower(named)};
        blockers := blockers + problems;
        out := out + [cv];
      }
    }
    assert mounts[..|mounts|] == mounts;
  }

  lemma NothingToConvert(name: string, h: Known, skip: seq<string>)
    ensures ConversionsOf(name, [], h, skip) == [] && NewNames([]) == {}
    ensures AllConvertible(name, [], h, skip) && DistinctNew([])
  {}

  function NewNames(cs: seq<Conversion>): set<string> {
    set c | c in cs :: Lower(c.named)
  }

  lemma ConvertibleSnoc(name: string, mounts: seq<Mount>, m: Mount, h: Known, skip: seq<string>)
    ensures AllConvertible(name, mounts + [m], h, skip) <==>
            AllConvertible(name, mounts, h, skip) && (Converts(m, h.volumes, skip) ==> Convertible(name, m, h))
  {
    hide Converts, Convertible;
    assert m in mounts + [m];
    assert forall x | x in mounts :: x in mounts + [m];
  }

  lemma DistinctSnoc(cs: seq<Conversion>, c: Conversion)
    ensures DistinctNew(cs + [c]) <==> DistinctNew(cs) && Lower(c.named) !in NewNames(cs)
    ensures NewNames(cs + [c]) == NewNames(cs) + {Lower(c.named)}
  {
    hide Lower;
    var more := cs + [c];
    assert forall i | 0 <= i < |cs| :: more[i] == cs[i];
    assert more[|cs|] == c;
    if DistinctNew(more) {
      forall d | d in cs ensures Lower(d.named) != Lower(c.named) {
        var i :| 0 <= i < |cs| && cs[i] == d;
        assert Lower(more[i].named) != Lower(more[|cs|].named);
      }
    }
    if DistinctNew(cs) && Lower(c.named) !in NewNames(cs) {
      forall i, j | 0 <= i < j < |more| ensures Lower(more[i].named) != Lower(more[j].named) {
        if j < |cs| { assert Lower(cs[i].named) != Lower(cs[j].named); } else { assert cs[i] in cs; }
      }
    }
  }

  /** A conversion is of a mount: it copies to a volume named after the mount's path, with the mount's access. */
  lemma {:induction false} ConversionNamed(name: string, mounts: seq<Mount>, h: Known, skip: seq<string>, c: Conversion)
    requires c in ConversionsOf(name, mounts, h, skip)
    ensures c.named == ConvertedName(name, c.target)
    ensures exists m :: m in mounts && m.name == Some(c.anon) && m.destination == c.target && m.rw == !c.readOnly
  {
    hide ConvertedName, VolumeLabels, Reusable;
    assert mounts[0] in mounts && forall m | m in mounts[1..] :: m in mounts;
    if !(Converts(mounts[0], h.volumes, skip) && c == ConversionOf(name, mounts[0], h)) {
      ConversionNamed(name, mounts[1..], h, skip, c);
    }
  }

  /** Without problems each conversion is of a volume of this container alone, to a valid free or reusable name. */
  lemma {:induction false} ConversionsSound(name: string, mounts: seq<Mount>, h: Known, skip: seq<string>,
                                            c: Conversion)
    requires c in ConversionsOf(name, mounts, h, skip) && AllConvertible(name, mounts, h, skip)
    ensures c.anon in h.volumes && IsAnonymous(h.volumes[c.anon]) && c.anon !in skip
    ensures !MountedByOthers(c.anon, name, h.all) && ValidName(c.named)
    ensures c.reuse <==> c.named in h.existing
    ensures c.reuse ==> h.existing[c.named].labels.GetOr(map[]) == c.labels && !MountedByAny(c.named, h.all)
  {
    hide ValidName, MountSafe, PlainLocal, MountedByOthers, MountedByAny, VolumeLabels, ConvertedName;
    assert mounts != [];
    assert mounts[0] in mounts && forall m | m in mounts[1..] :: m in mounts;
    if !(Converts(mounts[0], h.volumes, skip) && c == ConversionOf(name, mounts[0], h)) {
      ConversionsSound(name, mounts[1..], h, skip, c);
    }
  }
}
