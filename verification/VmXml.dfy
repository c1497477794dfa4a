/**
 Redaction of libvirt domain XML (src/vm_xml.rs), from parsed events: a stream
 loop with a stack of open elements and a skip counter.
 */
module VmXml {
  import opened Wrappers
  import opened Text

  datatype Name = Name(prefix: string, local: string)

  datatype Attr = Attr(name: Name, value: string)

  /** What is neither markup nor a child element: text, CDATA, or anything passed through. */
  datatype Leaf = Chars(text: string) | CData(text: string) | Misc(text: string)

  datatype Event =
    | Start(name: Name, attrs: seq<Attr>)
    | Empty(name: Name, attrs: seq<Attr>)
    | End(name: Name)
    | Content(leaf: Leaf)

  /** Whether an attribute is a credential or may carry one. */
  predicate IsSecret(element: string, attr: string, value: string, inCmdline: bool) {
    var lower := Lower(value);
    || attr == "passwd" || attr == "password"
    || ((element == "auth" || element == "secret") && attr != "type")
    || (element == "source" && attr == "query")
    || (inCmdline && attr == "value")
    || Contains(lower, "password=") || Contains(lower, "token=") || Contains(lower, "secret=")
  }

  predicate SecretAttr(element: string, a: Attr, inCmdline: bool) {
    IsSecret(element, a.name.local, a.value, inCmdline)
  }

  function Stripped(element: string, attrs: seq<Attr>, inCmdline: bool): seq<Attr> {
    if attrs == [] then []
    else
      (if SecretAttr(element, attrs[0], inCmdline) then [] else [attrs[0]])
      + Stripped(element, attrs[1..], inCmdline)
  }

  predicate HasSecretAttr(element: string, attrs: seq<Attr>, inCmdline: bool) {
    exists a | a in attrs :: SecretAttr(element, a, inCmdline)
  }

  /** An element's attributes without the secret ones, built one by one. */
  method Strip(element: string, attrs: seq<Attr>, inCmdline: bool) returns (out: seq<Attr>, hit: bool)
    ensures out == Stripped(element, attrs, inCmdline)
    ensures hit == HasSecretAttr(element, attrs, inCmdline)
  {
    out := [];
    hit := false;
    for i := 0 to |attrs|
      invariant out + Stripped(element, attrs[i..], inCmdline) == Stripped(element, attrs, inCmdline)
      invariant hit == HasSecretAttr(element, attrs[..i], inCmdline)
    {
      assert attrs[i..][1..] == attrs[i + 1..];
      assert attrs[..i + 1] == attrs[..i] + [attrs[i]];
      var piece := if SecretAttr(element, attrs[i], inCmdline) then [] else [attrs[i]];
      hit := hit || SecretAttr(element, attrs[i], inCmdline);
      Assoc(out, piece, Stripped(element, attrs[i + 1..], inCmdline));
      out := out + piece;
    }
    assert attrs[..|attrs|] == attrs;
  }

  /** The innermost open elements are ones whose text is not shown. */
  predicate DropsText(open: seq<string>) {
    || (open != [] && open[|open| - 1] == "cookie")
    || (|open| >= 2 && open[|open| - 2] == "oemStrings" && open[|open| - 1] == "entry")
  }

  predicate InCmdline(open: seq<string>, local: string) {
    "commandline" in open || local == "commandline"
  }

  predicate IsText(leaf: Leaf) {
    leaf.Chars? || leaf.CData?
  }

  // ---- The stream ---------------------------------------------------------------

  datatype Run = Done(out: seq<Event>, hit: bool) | EndsInMetadata

  function Then(piece: seq<Event>, hit: bool, run: Run): Run {
    match run
    case Done(out, h) => Done(piece + out, hit || h)
    case EndsInMetadata => EndsInMetadata
  }

  function Pop(open: seq<string>): seq<string> {
    if open == [] then [] else open[..|open| - 1]
  }

  /** The rest of the stream, from the loop's state. */
  function RedactFrom(events: seq<Event>, open: seq<string>, skip: nat): Run
    decreases |events|
  {
    if events == [] then (if skip > 0 then EndsInMetadata else Done([], false))
    else
      var ev, rest := events[0], events[1..];
      if skip > 0 then
        RedactFrom(rest, open, if ev.Start? then skip + 1 else if ev.End? then skip - 1 else skip)
      else match ev
        case Start(name, attrs) =>
          if name.local == "metadata" then Then([], true, RedactFrom(rest, open, 1))
          else
            var cmd := InCmdline(open, name.local);
            Then([Start(name, Stripped(name.local, attrs, cmd))], HasSecretAttr(name.local, attrs, cmd),
                 RedactFrom(rest, open + [name.local], 0))
        case Empty(name, attrs) =>
          if name.local == "metadata" then Then([], true, RedactFrom(rest, open, 0))
          else
            var cmd := InCmdline(open, name.local);
            Then([Empty(name, Stripped(name.local, attrs, cmd))], HasSecretAttr(name.local, attrs, cmd),
                 RedactFrom(rest, open, 0))
        case End(_) => Then([ev], false, RedactFrom(rest, Pop(open), 0))
        case Content(leaf) =>
          if IsText(leaf) && DropsText(open) then Then([], true, RedactFrom(rest, open, 0))
          else Then([ev], false, RedactFrom(rest, open, 0))
  }

  datatype Redacted = Redacted(events: seq<Event>, redacted: bool)

  function RedactStream(events: seq<Event>): Result<Redacted, string> {
    match RedactFrom(events, [], 0)
    case EndsInMetadata => Err("VM XML ends inside <metadata>")
    case Done(out, hit) => Ok(if hit then Redacted(out, true) else Redacted(events, false))
  }

  lemma ThenThen(a: seq<Event>, x: bool, b: seq<Event>, y: bool, run: Run)
    ensures Then(a, x, Then(b, y, run)) == Then(a + b, x || y, run)
  {
    if run.Done? {
      Assoc(a, b, run.out);
    }
  }

  /** The event loop over its mutable stack, skip counter, flag and writer. */
  method Redact(events: seq<Event>) returns (r: Result<Redacted, string>)
    ensures r == RedactStream(events)
  {
    var hit := false;
    var open: seq<string> := [];
    var skipDepth := 0;
    var writer: seq<Event> := [];
    ghost var goal := RedactFrom(events, [], 0);
    assert events[0..] == events;
    for i := 0 to |events|
      invariant skipDepth >= 0
      invariant Then(writer, hit, RedactFrom(events[i..], open, skipDepth)) == goal
    {
      var ev := events[i];
      ghost var rest := events[i + 1..];
      assert events[i..][1..] == rest && events[i..][0] == ev;
      if skipDepth > 0 {
        match ev {
          case Start(_, _) => skipDepth := skipDepth + 1;
          case End(_) => skipDepth := skipDepth - 1;
          case _ =>
        }
        continue;
      }
      var piece, found := [ev], false;
      match ev {
        case Start(name, attrs) =>
          if name.local == "metadata" {
            piece, found, skipDepth := [], true, 1;
          } else {
            var attrs';
            attrs', found := Strip(name.local, attrs, InCmdline(open, name.local));
            open := open + [name.local];
            piece := [Start(name, attrs')];
          }
        case Empty(name, attrs) =>
          if name.local == "metadata" {
            piece, found := [], true;
          } else {
            var attrs';
            attrs', found := Strip(name.local, attrs, InCmdline(open, name.local));
            piece := [Empty(name, attrs')];
          }
        case End(_) =>
          open := Pop(open);
        case Content(leaf) =>
          if IsText(leaf) && DropsText(open) {
            piece, found := [], true;
          }
      }
      ThenThen(writer, hit, piece, found, RedactFrom(rest, open, skipDepth));
      writer := writer + piece;
      hit := hit || found;
    }
    if skipDepth > 0 {
      r := Err("VM XML ends inside <metadata>");
    } else if !hit {
      r := Ok(Redacted(events, false));
    } else {
      assert writer + [] == writer;
      r := Ok(Redacted(writer, true));
    }
  }
}
