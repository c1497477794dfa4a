/**
 What the streaming redaction means: on every well-nested stream (section 3 of
 XML 1.0) it is a recursive redaction of the document tree.
 */
module VmXmlTree {
  import opened Wrappers
  import opened VmXml

  /** Sibling nodes, in order. */
  datatype Forest =
    | Nil
    | Leaves(leaf: Leaf, rest: Forest)
    | Void(name: Name, attrs: seq<Attr>, rest: Forest)
    | Element(name: Name, attrs: seq<Attr>, kids: Forest, rest: Forest)

  function Flatten(f: Forest): seq<Event> {
    match f
    case Nil => []
    case Leaves(leaf, rest) => [Content(leaf)] + Flatten(rest)
    case Void(name, attrs, rest) => [Empty(name, attrs)] + Flatten(rest)
    case Element(name, attrs, kids, rest) =>
      [Start(name, attrs)] + (Flatten(kids) + ([End(name)] + Flatten(rest)))
  }

  /** Redaction of a tree below the open elements `path`. */
  function RedactForest(f: Forest, path: seq<string>): Forest {
    match f
    case Nil => Nil
    case Leaves(leaf, rest) =>
      if IsText(leaf) && DropsText(path) then RedactForest(rest, path)
      else Leaves(leaf, RedactForest(rest, path))
    case Void(name, attrs, rest) =>
      if name.local == "metadata" then RedactForest(rest, path)
      else Void(name, Stripped(name.local, attrs, InCmdline(path, name.local)), RedactForest(rest, path))
    case Element(name, attrs, kids, rest) =>
      if name.local == "metadata" then RedactForest(rest, path)
      else Element(name, Stripped(name.local, attrs, InCmdline(path, name.local)),
                   RedactForest(kids, path + [name.local]), RedactForest(rest, path))
  }

  /** Some position of the tree must not be shown. */
  predicate HasSecret(f: Forest, path: seq<string>) {
    match f
    case Nil => false
    case Leaves(leaf, rest) => (IsText(leaf) && DropsText(path)) || HasSecret(rest, path)
    case Void(name, attrs, rest) =>
      || name.local == "metadata"
      || HasSecretAttr(name.local, attrs, InCmdline(path, name.local))
      || HasSecret(rest, path)
    case Element(name, attrs, kids, rest) =>
      || name.local == "metadata"
      || HasSecretAttr(name.local, attrs, InCmdline(path, name.local))
      || HasSecret(kids, path + [name.local])
      || HasSecret(rest, path)
  }

  // ---- Laws of the tree redaction ---------------------------------------------------

  lemma {:induction false} StrippedClean(element: string, attrs: seq<Attr>, cmd: bool)
    ensures !HasSecretAttr(element, Stripped(element, attrs, cmd), cmd)
    ensures Stripped(element, attrs, cmd) == attrs <==> !HasSecretAttr(element, attrs, cmd)
    ensures |Stripped(element, attrs, cmd)| <= |attrs|
    ensures forall a :: a in Stripped(element, attrs, cmd) <==> a in attrs && !SecretAttr(element, a, cmd)
  {
    hide SecretAttr;
    if attrs == [] {
    } else {
      StrippedClean(element, attrs[1..], cmd);
      assert attrs == [attrs[0]] + attrs[1..];
    }
  }

  /** Nothing secret is left. */
  lemma {:induction false} RedactedIsClean(f: Forest, path: seq<string>)
    ensures !HasSecret(RedactForest(f, path), path)
  {
    match f
    case Nil =>
    case Leaves(leaf, rest) => RedactedIsClean(rest, path);
    case Void(name, attrs, rest) =>
      StrippedClean(name.local, attrs, InCmdline(path, name.local));
      RedactedIsClean(rest, path);
    case Element(name, attrs, kids, rest) =>
      StrippedClean(name.local, attrs, InCmdline(path, name.local));
      RedactedIsClean(kids, path + [name.local]);
      RedactedIsClean(rest, path);
  }

  function Size(f: Forest): nat {
    match f
    case Nil => 0
    case Leaves(_, rest) => 1 + Size(rest)
    case Void(_, _, rest) => 1 + Size(rest)
    case Element(_, _, kids, rest) => 1 + Size(kids) + Size(rest)
  }

  lemma {:induction false} RedactedNoLarger(f: Forest, path: seq<string>)
    ensures Size(RedactForest(f, path)) <= Size(f)
  {
    match f
    case Nil =>
    case Leaves(_, rest) => RedactedNoLarger(rest, path);
    case Void(_, _, rest) => RedactedNoLarger(rest, path);
    case Element(name, _, kids, rest) =>
      RedactedNoLarger(kids, path + [name.local]);
      RedactedNoLarger(rest, path);
  }

  /** Only secret positions are touched: a tree is its own redaction exactly when it has none. */
  lemma {:induction false} UnchangedIffClean(f: Forest, path: seq<string>)
    ensures RedactForest(f, path) == f <==> !HasSecret(f, path)
  {
    match f
    case Nil =>
    case Leaves(leaf, rest) =>
      UnchangedIffClean(rest, path);
      RedactedNoLarger(rest, path);
    case Void(name, attrs, rest) =>
      StrippedClean(name.local, attrs, InCmdline(path, name.local));
      UnchangedIffClean(rest, path);
      RedactedNoLarger(rest, path);
    case Element(name, attrs, kids, rest) =>
      StrippedClean(name.local, attrs, InCmdline(path, name.local));
      UnchangedIffClean(kids, path + [name.local]);
      UnchangedIffClean(rest, path);
      RedactedNoLarger(rest, path);
  }

  // ---- The stream follows the tree -----------------------------------------------------

  /** Inside `metadata` a whole forest is skipped. */
  lemma {:induction false} SkipForest(f: Forest, after: seq<Event>, open: seq<string>, skip: nat)
    requires skip > 0
    ensures RedactFrom(Flatten(f) + after, open, skip) == RedactFrom(after, open, skip)
    decreases f
  {
    match f
    case Nil =>
      assert Flatten(f) + after == after;
    case Leaves(leaf, rest) =>
      assert Flatten(f) + after == [Content(leaf)] + (Flatten(rest) + after);
      assert ([Content(leaf)] + (Flatten(rest) + after))[1..] == Flatten(rest) + after;
      SkipForest(rest, after, open, skip);
    case Void(name, attrs, rest) =>
      assert Flatten(f) + after == [Empty(name, attrs)] + (Flatten(rest) + after);
      assert ([Empty(name, attrs)] + (Flatten(rest) + after))[1..] == Flatten(rest) + after;
      SkipForest(rest, after, open, skip);
    case Element(name, attrs, kids, rest) =>
      ElementThen(name, attrs, kids, rest, after);
      var tail := [End(name)] + (Flatten(rest) + after);
      SkipForest(kids, tail, open, skip + 1);
      assert tail[1..] == Flatten(rest) + after;
      SkipForest(rest, after, open, skip);
  }

  lemma ElementThen(name: Name, attrs: seq<Attr>, kids: Forest, rest: Forest, after: seq<Event>)
    ensures var all := Flatten(Element(name, attrs, kids, rest)) + after;
            && all != [] && all[0] == Start(name, attrs)
            && all[1..] == Flatten(kids) + ([End(name)] + (Flatten(rest) + after))
  {
    var all := Flatten(Element(name, attrs, kids, rest)) + after;
    assert all == [Start(name, attrs)] + (Flatten(kids) + ([End(name)] + (Flatten(rest) + after)));
  }

  /** The loop over a forest writes its redaction, notes its secrets and goes on as it was. */
  lemma {:induction false} StreamForest(f: Forest, after: seq<Event>, open: seq<string>)
    ensures RedactFrom(Flatten(f) + after, open, 0)
         == Then(Flatten(RedactForest(f, open)), HasSecret(f, open), RedactFrom(after, open, 0))
    decreases f
  {
    hide SecretAttr, HasSecretAttr, Stripped, InCmdline, DropsText;
    var run := RedactFrom(after, open, 0);
    match f
    case Nil =>
      assert Flatten(f) + after == after;
      assert run.Done? ==> [] + run.out == run.out;
    case Leaves(leaf, rest) =>
      assert Flatten(f) + after == [Content(leaf)] + (Flatten(rest) + after);
      assert ([Content(leaf)] + (Flatten(rest) + after))[1..] == Flatten(rest) + after;
      StreamForest(rest, after, open);
      var drop := IsText(leaf) && DropsText(open);
      var piece := if drop then [] else [Content(leaf)];
      ThenThen(piece, drop, Flatten(RedactForest(rest, open)), HasSecret(rest, open), run);
      assert [] + Flatten(RedactForest(rest, open)) == Flatten(RedactForest(rest, open));
    case Void(name, attrs, rest) =>
      assert Flatten(f) + after == [Empty(name, attrs)] + (Flatten(rest) + after);
      assert ([Empty(name, attrs)] + (Flatten(rest) + after))[1..] == Flatten(rest) + after;
      StreamForest(rest, after, open);
      var cmd := InCmdline(open, name.local);
      var gone := name.local == "metadata";
      var piece := if gone then [] else [Empty(name, Stripped(name.local, attrs, cmd))];
      var hit := gone || HasSecretAttr(name.local, attrs, cmd);
      ThenThen(piece, hit, Flatten(RedactForest(rest, open)), HasSecret(rest, open), run);
      assert [] + Flatten(RedactForest(rest, open)) == Flatten(RedactForest(rest, open));
    case Element(name, attrs, kids, rest) =>
      StreamForest(rest, after, open);
      if name.local == "metadata" {
        StreamMetadata(f, after, open);
      } else {
        StreamForest(kids, [End(name)] + (Flatten(rest) + after), open + [name.local]);
        StreamElement(f, after, open);
      }
  }

  lemma StreamMetadata(f: Forest, after: seq<Event>, open: seq<string>)
    requires f.Element? && f.name.local == "metadata"
    requires RedactFrom(Flatten(f.rest) + after, open, 0)
          == Then(Flatten(RedactForest(f.rest, open)), HasSecret(f.rest, open), RedactFrom(after, open, 0))
    ensures RedactFrom(Flatten(f) + after, open, 0)
         == Then(Flatten(RedactForest(f, open)), HasSecret(f, open), RedactFrom(after, open, 0))
  {
    hide SecretAttr, HasSecretAttr, Stripped, InCmdline, DropsText;
    var tail := [End(f.name)] + (Flatten(f.rest) + after);
    ElementThen(f.name, f.attrs, f.kids, f.rest, after);
    SkipForest(f.kids, tail, open, 1);
    assert tail[1..] == Flatten(f.rest) + after;
    ThenThen([], true, Flatten(RedactForest(f.rest, open)), HasSecret(f.rest, open), RedactFrom(after, open, 0));
    assert [] + Flatten(RedactForest(f.rest, open)) == Flatten(RedactForest(f.rest, open));
  }

  lemma StreamElement(f: Forest, after: seq<Event>, open: seq<string>)
    requires f.Element? && f.name.local != "metadata"
    requires RedactFrom(Flatten(f.rest) + after, open, 0)
          == Then(Flatten(RedactForest(f.rest, open)), HasSecret(f.rest, open), RedactFrom(after, open, 0))
    requires var (tail, below) := ([End(f.name)] + (Flatten(f.rest) + after), open + [f.name.local]);
             RedactFrom(Flatten(f.kids) + tail, below, 0)
               == Then(Flatten(RedactForest(f.kids, below)), HasSecret(f.kids, below), RedactFrom(tail, below, 0))
    ensures RedactFrom(Flatten(f) + after, open, 0)
         == Then(Flatten(RedactForest(f, open)), HasSecret(f, open), RedactFrom(after, open, 0))
  {
    hide SecretAttr, HasSecretAttr, Stripped, InCmdline, DropsText;
    var name, below := f.name, open + [f.name.local];
    var tail := [End(name)] + (Flatten(f.rest) + after);
    var run := RedactFrom(after, open, 0);
    var cmd := InCmdline(open, name.local);
    var start := [Start(name, Stripped(name.local, f.attrs, cmd))];
    var hit := HasSecretAttr(name.local, f.attrs, cmd);
    var kids, rest := Flatten(RedactForest(f.kids, below)), Flatten(RedactForest(f.rest, open));
    ElementThen(name, f.attrs, f.kids, f.rest, after);
    assert tail[1..] == Flatten(f.rest) + after && Pop(below) == open;
    ThenThen([End(name)], false, rest, HasSecret(f.rest, open), run);
    ThenThen(kids, HasSecret(f.kids, below), [End(name)] + rest, HasSecret(f.rest, open), run);
    ThenThen(start, hit, kids + ([End(name)] + rest), HasSecret(f.kids, below) || HasSecret(f.rest, open), run);
  }

  /** A whole document: the redaction of its tree, flagged exactly when it had a secret. */
  lemma StreamingIsTreeRedaction(f: Forest)
    ensures RedactStream(Flatten(f)) == Ok(Redacted(Flatten(RedactForest(f, [])), HasSecret(f, [])))
  {
    assert Flatten(f) + [] == Flatten(f);
    var out := Flatten(RedactForest(f, []));
    assert out + [] == out;
    StreamForest(f, [], []);
    UnchangedIffClean(f, []);
  }

  /** Redacting the output again changes nothing and reports nothing. */
  lemma RedactTwice(f: Forest)
    ensures var once := RedactStream(Flatten(f));
            once.Ok? && RedactStream(once.value.events) == Ok(Redacted(once.value.events, false))
  {
    var g := RedactForest(f, []);
    StreamingIsTreeRedaction(f);
    StreamingIsTreeRedaction(g);
    RedactedIsClean(f, []);
    UnchangedIffClean(g, []);
  }

  // ---- Which streams are trees ------------------------------------------------------------

  /** Every start has its end, names matching, under the open elements `stack`. */
  predicate WellNested(events: seq<Event>, stack: seq<Name>)
    decreases |events|
  {
    if events == [] then stack == []
    else match events[0]
      case Start(name, _) => WellNested(events[1..], stack + [name])
      case End(name) => stack != [] && stack[|stack| - 1] == name && WellNested(events[1..], stack[..|stack| - 1])
      case _ => WellNested(events[1..], stack)
  }

  /** The siblings at the head of a well-nested stream, and what is left from their parent's end. */
  lemma {:induction false} ReadForest(events: seq<Event>, stack: seq<Name>) returns (f: Forest, left: seq<Event>)
    requires WellNested(events, stack)
    ensures events == Flatten(f) + left && WellNested(left, stack)
    ensures left == [] || (left[0].End? && stack != [])
    ensures |left| <= |events|
    decreases |events|
  {
    if events == [] || events[0].End? {
      f, left := Nil, events;
      assert [] + events == events;
    } else {
      assert events == [events[0]] + events[1..];
      match events[0]
      case Start(name, attrs) =>
        var kids, more := ReadForest(events[1..], stack + [name]);
        assert more != [];
        assert more == [End(name)] + more[1..];
        assert (stack + [name])[..|stack|] == stack;
        var rest;
        rest, left := ReadForest(more[1..], stack);
        f := Element(name, attrs, kids, rest);
        ElementThen(name, attrs, kids, rest, left);
        assert Flatten(f) + left == [Start(name, attrs)] + (Flatten(kids) + ([End(name)] + (Flatten(rest) + left)));
      case Empty(name, attrs) =>
        var rest;
        rest, left := ReadForest(events[1..], stack);
        f := Void(name, attrs, rest);
      case Content(leaf) =>
        var rest;
        rest, left := ReadForest(events[1..], stack);
        f := Leaves(leaf, rest);
    }
  }

  lemma {:induction false} FlattenWellNested(f: Forest, after: seq<Event>, stack: seq<Name>)
    ensures WellNested(Flatten(f) + after, stack) == WellNested(after, stack)
    decreases f
  {
    match f
    case Nil => assert Flatten(f) + after == after;
    case Leaves(leaf, rest) =>
      assert Flatten(f) + after == [Content(leaf)] + (Flatten(rest) + after);
      assert ([Content(leaf)] + (Flatten(rest) + after))[1..] == Flatten(rest) + after;
      FlattenWellNested(rest, after, stack);
    case Void(name, attrs, rest) =>
      assert Flatten(f) + after == [Empty(name, attrs)] + (Flatten(rest) + after);
      assert ([Empty(name, attrs)] + (Flatten(rest) + after))[1..] == Flatten(rest) + after;
      FlattenWellNested(rest, after, stack);
    case Element(name, attrs, kids, rest) =>
      ElementThen(name, attrs, kids, rest, after);
      var tail := [End(name)] + (Flatten(rest) + after);
      FlattenWellNested(kids, tail, stack + [name]);
      assert tail[1..] == Flatten(rest) + after && (stack + [name])[..|stack|] == stack;
      FlattenWellNested(rest, after, stack);
  }

  /**
   Every well-nested stream is redacted as the tree it spells, the output is well
   nested again, and redacting it once more changes nothing.
   */
  lemma WellNestedRedaction(events: seq<Event>) returns (f: Forest)
    requires WellNested(events, [])
    ensures events == Flatten(f)
    ensures RedactStream(events) == Ok(Redacted(Flatten(RedactForest(f, [])), HasSecret(f, [])))
    ensures WellNested(RedactStream(events).value.events, [])
    ensures RedactStream(RedactStream(events).value.events).Ok?
         && !RedactStream(RedactStream(events).value.events).value.redacted
  {
    var left;
    f, left := ReadForest(events, []);
    assert left == [] && Flatten(f) + [] == Flatten(f);
    StreamingIsTreeRedaction(f);
    RedactTwice(f);
    var g := RedactForest(f, []);
    FlattenWellNested(g, [], []);
    assert Flatten(g) + [] == Flatten(g);
  }
}
