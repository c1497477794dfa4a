/**
 What the redaction of a domain's XML shows and hides (src/vm_xml.rs), said of the events
 themselves: which names, values and texts are not in the output, and that nothing else is
 missing from it. Nothing here speaks of how the redaction decides.
 */
module VmXmlShown {
  import opened VmXml
  import Text

  /** The local names of the elements open after one more event. */
  function Opened(open: seq<string>, ev: Event): seq<string> {
    match ev
    case Start(name, _) => open + [name.local]
    case End(_) => if open == [] then [] else open[..|open| - 1]
    case _ => open
  }

  ghost predicate MentionsSecret(value: string) {
    exists p: nat, word | word in ["password=", "token=", "secret="] :: Text.SpelledAt(value, p, word)
  }

  /** A credential, or a value that may carry one, on an element below or at `open`. */
  ghost predicate Hidden(open: seq<string>, element: string, a: Attr) {
    || a.name.local == "passwd"
    || a.name.local == "password"
    || (element == "auth" && a.name.local != "type")
    || (element == "secret" && a.name.local != "type")
    || (element == "source" && a.name.local == "query")
    || (element == "commandline" && a.name.local == "value")
    || ("commandline" in open && a.name.local == "value")
    || MentionsSecret(a.value)
  }

  /** Text whose innermost element is a cookie, or an entry right in `oemStrings`. */
  ghost predicate HiddenText(open: seq<string>) {
    && open != []
    && (open[|open| - 1] == "cookie"
        || (open[|open| - 1] == "entry" && |open| > 1 && open[|open| - 2] == "oemStrings"))
  }

  // ---- Nothing hidden is shown ------------------------------------------------------------

  /** An event that may be in the output. */
  ghost predicate Shown(ev: Event, open: seq<string>) {
    match ev
    case Start(name, attrs) => name.local != "metadata" && forall a | a in attrs :: !Hidden(open, name.local, a)
    case Empty(name, attrs) => name.local != "metadata" && forall a | a in attrs :: !Hidden(open, name.local, a)
    case Content(Chars(_)) => !HiddenText(open)
    case Content(CData(_)) => !HiddenText(open)
    case _ => true
  }

  ghost predicate AllShown(events: seq<Event>, open: seq<string>)
    decreases |events|
  {
    events == [] || (Shown(events[0], open) && AllShown(events[1..], Opened(open, events[0])))
  }

  // ---- Nothing else is missing --------------------------------------------------------------

  /** `kept` is `attrs` in order without hidden ones. */
  ghost predicate OnlyHiddenGone(attrs: seq<Attr>, kept: seq<Attr>, open: seq<string>, element: string) {
    if attrs == [] then kept == []
    else
      || (kept != [] && kept[0] == attrs[0] && OnlyHiddenGone(attrs[1..], kept[1..], open, element))
      || (Hidden(open, element, attrs[0]) && OnlyHiddenGone(attrs[1..], kept, open, element))
  }

  ghost predicate SameButHidden(ev: Event, out: Event, open: seq<string>) {
    match (ev, out)
    case (Start(n, attrs), Start(m, kept)) => n == m && OnlyHiddenGone(attrs, kept, open, n.local)
    case (Empty(n, attrs), Empty(m, kept)) => n == m && OnlyHiddenGone(attrs, kept, open, n.local)
    case _ => ev == out
  }

  /** A whole event that is not shown: of a `metadata` element, or hidden text. */
  ghost predicate MayGo(ev: Event, open: seq<string>) {
    || "metadata" in open
    || ((ev.Start? || ev.Empty?) && ev.name.local == "metadata")
    || (ev.Content? && !ev.leaf.Misc? && HiddenText(open))
  }

  /** `out` is `events` in order without what is not to be shown. */
  ghost predicate OnlyHiddenMissing(events: seq<Event>, out: seq<Event>, open: seq<string>)
    decreases |events|
  {
    if events == [] then out == []
    else
      var next := Opened(open, events[0]);
      || (out != [] && SameButHidden(events[0], out[0], open) && OnlyHiddenMissing(events[1..], out[1..], next))
      || (MayGo(events[0], open) && OnlyHiddenMissing(events[1..], out, next))
  }

  /** The elements still open when the events end. */
  function OpenAtEnd(events: seq<Event>, open: seq<string>): seq<string>
    decreases |events|
  {
    if events == [] then open else OpenAtEnd(events[1..], Opened(open, events[0]))
  }

  // ---- The decisions of the redaction -----------------------------------------------------------

  lemma ContainsSpelled(value: string, word: string)
    requires Text.IsSmall(word)
    ensures Text.Contains(Text.Lower(value), word) <==> exists p: nat :: Text.SpelledAt(value, p, word)
  {
    Text.ContainsAt(Text.Lower(value), word);
    forall p: nat ensures Text.StandsAt(Text.Lower(value), p, word) <==> Text.SpelledAt(value, p, word) {
      Text.LowerAt(value, p, word);
    }
    hide Text.StandsAt, Text.SpelledAt, Text.Lower, Text.Contains;
  }

  lemma MentionsIffContains(value: string)
    ensures var low := Text.Lower(value);
            MentionsSecret(value) <==>
              Text.Contains(low, "password=") || Text.Contains(low, "token=") || Text.Contains(low, "secret=")
  {
    ContainsSpelled(value, "password=");
    ContainsSpelled(value, "token=");
    ContainsSpelled(value, "secret=");
    hide Text.SpelledAt, Text.Contains, Text.Lower;
    if p: nat :| Text.SpelledAt(value, p, "password=") {
      assert "password=" in ["password=", "token=", "secret="];
    }
    if p: nat :| Text.SpelledAt(value, p, "token=") {
      assert "token=" in ["password=", "token=", "secret="];
    }
    if p: nat :| Text.SpelledAt(value, p, "secret=") {
      assert "secret=" in ["password=", "token=", "secret="];
    }
  }

  /** An attribute is dropped exactly if it is hidden. */
  lemma SecretIffHidden(open: seq<string>, element: string, a: Attr)
    ensures SecretAttr(element, a, InCmdline(open, element)) <==> Hidden(open, element, a)
  {
    MentionsIffContains(a.value);
    hide MentionsSecret, Text.Contains, Text.Lower;
  }

  lemma DropsIffHidden(open: seq<string>)
    ensures DropsText(open) <==> HiddenText(open)
  {}

  lemma {:induction false} StrippedShows(element: string, attrs: seq<Attr>, open: seq<string>)
    ensures var kept := Stripped(element, attrs, InCmdline(open, element));
            && OnlyHiddenGone(attrs, kept, open, element)
            && (forall a | a in kept :: !Hidden(open, element, a))
            && (!HasSecretAttr(element, attrs, InCmdline(open, element)) ==> kept == attrs)
  {
    hide SecretAttr, Hidden;
    if attrs == [] {
    } else {
      SecretIffHidden(open, element, attrs[0]);
      StrippedShows(element, attrs[1..], open);
      assert attrs == [attrs[0]] + attrs[1..];
      var (kept, rest) := (Stripped(element, attrs, InCmdline(open, element)),
                           Stripped(element, attrs[1..], InCmdline(open, element)));
      assert kept == rest || (kept == [attrs[0]] + rest && kept[1..] == rest);
    }
  }

  // ---- The stream --------------------------------------------------------------------------------

  /** Where the loop is, as the open elements tell: outside `metadata`, or `skip` elements deep in it. */
  ghost predicate Follows(all: seq<string>, open: seq<string>, skip: nat) {
    && "metadata" !in open && |all| == |open| + skip && all[..|open|] == open
    && (skip > 0 ==> all[|open|] == "metadata")
  }

  lemma FollowsInside(all: seq<string>, open: seq<string>, skip: nat)
    requires Follows(all, open, skip)
    ensures "metadata" !in open && (skip == 0 ==> all == open)
    ensures skip > 0 <==> "metadata" in all
  {
    if skip == 0 { assert all == all[..|open|]; }
  }

  lemma FollowsStep(all: seq<string>, open: seq<string>, skip: nat, ev: Event)
    requires Follows(all, open, skip) && skip > 0
    ensures Follows(Opened(all, ev), open, if ev.Start? then skip + 1 else if ev.End? then skip - 1 else skip)
  {}

  lemma ConsIs(piece: Event, out: seq<Event>)
    ensures [piece] + out != [] && ([piece] + out)[0] == piece && ([piece] + out)[1..] == out
  {}

  /** From any state the loop can be in: what it writes shows nothing hidden and misses nothing else. */
  lemma {:induction false} RestShows(events: seq<Event>, all: seq<string>, open: seq<string>, skip: nat)
    requires Follows(all, open, skip)
    ensures var run := RedactFrom(events, open, skip);
            run.Done? ==> && AllShown(run.out, open) && OnlyHiddenMissing(events, run.out, all)
                          && (!run.hit && skip == 0 ==> run.out == events)
    ensures RedactFrom(events, open, skip).EndsInMetadata? <==> "metadata" in OpenAtEnd(events, all)
    decreases |events|
  {
    hide SecretAttr, Hidden, HasSecretAttr, Stripped, InCmdline, DropsText, HiddenText, OnlyHiddenGone, Follows;
    FollowsInside(all, open, skip);
    if events == [] {
    } else {
      var (ev, rest) := (events[0], events[1..]);
      assert events == [ev] + rest;
      if skip > 0 {
        FollowsStep(all, open, skip, ev);
        RestShows(rest, Opened(all, ev), open, if ev.Start? then skip + 1 else if ev.End? then skip - 1 else skip);
      } else {
        match ev
        case Start(name, attrs) =>
          if name.local == "metadata" {
            EntersMetadata(open);
            RestShows(rest, open + ["metadata"], open, 1);
            NothingBefore(RedactFrom(rest, open, 1));
          } else {
            EntersElement(open, name.local);
            RestShows(rest, open + [name.local], open + [name.local], 0);
            StrippedShows(name.local, attrs, open);
            PieceShows(ev, Start(name, Stripped(name.local, attrs, InCmdline(open, name.local))), rest, open);
          }
        case Empty(name, attrs) =>
          RestShows(rest, open, open, 0);
          if name.local == "metadata" {
            NothingBefore(RedactFrom(rest, open, 0));
          } else {
            StrippedShows(name.local, attrs, open);
            PieceShows(ev, Empty(name, Stripped(name.local, attrs, InCmdline(open, name.local))), rest, open);
          }
        case End(_) =>
          LeavesElement(open);
          RestShows(rest, Pop(open), Pop(open), 0);
          PieceShows(ev, ev, rest, open);
        case Content(leaf) =>
          RestShows(rest, open, open, 0);
          DropsIffHidden(open);
          if IsText(leaf) && DropsText(open) {
            NothingBefore(RedactFrom(rest, open, 0));
          } else {
            PieceShows(ev, ev, rest, open);
          }
      }
    }
  }

  lemma EntersMetadata(open: seq<string>)
    requires "metadata" !in open
    ensures Follows(open + ["metadata"], open, 1)
  {}

  lemma EntersElement(open: seq<string>, local: string)
    requires "metadata" !in open && local != "metadata"
    ensures Follows(open + [local], open + [local], 0)
  {}

  lemma LeavesElement(open: seq<string>)
    requires "metadata" !in open
    ensures Follows(Pop(open), Pop(open), 0) && Opened(open, End(Name("", ""))) == Pop(open)
  {}

  lemma NothingBefore(run: Run)
    ensures run.Done? ==> Then([], true, run).out == run.out
  {}

  /** One event shown, and the rest. */
  lemma PieceShows(ev: Event, piece: Event, rest: seq<Event>, open: seq<string>)
    requires Shown(piece, open) && SameButHidden(ev, piece, open) && Opened(open, ev) == Opened(open, piece)
    requires var run := RedactFrom(rest, Opened(open, ev), 0);
             run.Done? ==> && AllShown(run.out, Opened(open, ev)) && OnlyHiddenMissing(rest, run.out, Opened(open, ev))
    ensures var run := RedactFrom(rest, Opened(open, ev), 0);
            run.Done? ==> && AllShown([piece] + run.out, open)
                          && OnlyHiddenMissing([ev] + rest, [piece] + run.out, open)
  {
    var run := RedactFrom(rest, Opened(open, ev), 0);
    if run.Done? {
      ConsIs(piece, run.out);
      ConsIs(ev, rest);
    }
    hide Shown, SameButHidden, RedactFrom;
  }

  // ---- The output ---------------------------------------------------------------------------------

  /**
   Of every stream of events, well nested or not: the output shows no credential, no text of a
   cookie or of an OEM string, and nothing of a `metadata` element; and nothing else is missing.
   It fails exactly if the stream ends in a `metadata` element.
   */
  lemma RedactedShows(events: seq<Event>)
    ensures var r := RedactStream(events);
            r.Ok? ==> && AllShown(r.value.events, []) && OnlyHiddenMissing(events, r.value.events, [])
                      && (!r.value.redacted ==> r.value.events == events)
    ensures RedactStream(events).Err? <==> "metadata" in OpenAtEnd(events, [])
  {
    assert Follows([], [], 0);
    RestShows(events, [], [], 0);
  }
}
