/**
 The autostart list of a server's containers (src/unit_provider.rs): the entries
 a single change sends, and the verification of what was read back.
 */
module Autostart {
  import opened Wrappers
  import opened StableSort

  const I64_MAX: int := 0x7FFF_FFFF_FFFF_FFFF

  datatype Container = Container(id: string, name: string, autoStart: bool, order: Option<int>, wait: Option<int>)

  /** One entry of the update: the flag, and the wait when one is to be set. */
  datatype Entry = Entry(id: string, autoStart: bool, wait: Option<int>)

  function OrderKey(c: Container): int {
    c.order.GetOr(I64_MAX)
  }

  predicate IsOn(c: Container) {
    c.autoStart
  }

  predicate EntryOn(e: Entry) {
    e.autoStart
  }

  ghost predicate UniqueIds(cs: seq<Container>) {
    forall i, j | 0 <= i < j < |cs| :: cs[i].id != cs[j].id
  }

  // ---- What is sent -----------------------------------------------------------------

  datatype Change = Change(target: string, enabled: bool, wait: Option<int>)

  function EntryFor(c: Container, ch: Change): Entry {
    if c.id == ch.target then Entry(c.id, ch.enabled, if ch.wait.Some? then ch.wait else c.wait)
    else Entry(c.id, c.autoStart, c.wait)
  }

  function EntriesFor(cs: seq<Container>, ch: Change): (r: seq<Entry>)
    ensures |r| == |cs| && forall i | 0 <= i < |r| :: r[i] == EntryFor(cs[i], ch)
  {
    seq(|cs|, i requires 0 <= i < |cs| => EntryFor(cs[i], ch))
  }

  predicate TargetIsOn(cs: seq<Container>, target: string) {
    exists c | c in cs :: c.id == target && c.autoStart
  }

  datatype EntriesError = EmptyList | WouldDrop(count: int)

  /** `autostart_entries`: the whole list, in reported order, with one container edited. */
  function AutostartEntries(cs: seq<Container>, ch: Change): Result<seq<Entry>, EntriesError> {
    if cs == [] then Err(EmptyList)
    else
      var entries := EntriesFor(SortBy(cs, OrderKey), ch);
      var kept := Count(entries, EntryOn);
      var floor := Count(cs, IsOn) - if TargetIsOn(cs, ch.target) && !ch.enabled then 1 else 0;
      if kept < floor then Err(WouldDrop(floor - kept)) else Ok(entries)
  }

  // ---- What is read back ---------------------------------------------------------------

  datatype State = State(autoStart: bool, wait: Option<int>, rank: Option<nat>)

  /** An entry's state: an enabled one ranks after the enabled ones before it. */
  function SentState(entries: seq<Entry>, i: nat): State
    requires i < |entries|
  {
    State(entries[i].autoStart, entries[i].wait,
          if entries[i].autoStart then Some(Count(entries[..i], EntryOn)) else None)
  }

  lemma CountSnoc<T>(s: seq<T>, x: T, p: T -> bool)
    ensures Count(s + [x], p) == Count(s, p) + if p(x) then 1 else 0
  {
    if s == [] {
      assert s + [x] == [x];
    } else {
      assert (s + [x])[1..] == s[1..] + [x];
      CountSnoc(s[1..], x, p);
    }
  }

  /** `sent_states`: one pass with a running rank. */
  method SentStates(entries: seq<Entry>) returns (out: seq<(string, State)>)
    ensures |out| == |entries|
    ensures forall i | 0 <= i < |out| :: out[i] == (entries[i].id, SentState(entries, i))
  {
    var rank: nat := 0;
    out := [];
    for i := 0 to |entries|
      invariant |out| == i
      invariant rank == Count(entries[..i], EntryOn)
      invariant forall j | 0 <= j < i :: out[j] == (entries[j].id, SentState(entries, j))
    {
      var e := entries[i];
      assert entries[..i + 1] == entries[..i] + [e];
      CountSnoc(entries[..i], e, EntryOn);
      out := out + [(e.id, State(e.autoStart, e.wait, if e.autoStart then Some(rank) else None))];
      if e.autoStart { rank := rank + 1; }
    }
  }

  function Enabled(cs: seq<Container>): seq<Container> {
    if cs == [] then []
    else if cs[0].autoStart then [cs[0]] + Enabled(cs[1..])
    else Enabled(cs[1..])
  }

  /** The enabled containers in reported order. */
  function StartOrder(cs: seq<Container>): seq<Container> {
    SortBy(Enabled(cs), OrderKey)
  }

  function PositionOf(cs: seq<Container>, id: string): (p: Option<nat>)
    ensures p.Some? ==> p.value < |cs| && cs[p.value].id == id
    ensures p.None? ==> forall i | 0 <= i < |cs| :: cs[i].id != id
  {
    if cs == [] then None
    else if cs[0].id == id then Some(0)
    else match PositionOf(cs[1..], id)
      case Some(p) => Some(p + 1)
      case None => None
  }

  /** A container's state: it has a rank when it reports an order and is enabled. */
  function ReadState(cs: seq<Container>, c: Container): State {
    State(c.autoStart, c.wait, if c.order.Some? then PositionOf(StartOrder(cs), c.id) else None)
  }

  method ReadStates(cs: seq<Container>) returns (out: seq<(string, State)>)
    ensures |out| == |cs|
    ensures forall i | 0 <= i < |out| :: out[i] == (cs[i].id, ReadState(cs, cs[i]))
  {
    var enabled: seq<Container> := [];
    for i := 0 to |cs|
      invariant enabled + Enabled(cs[i..]) == Enabled(cs)
    {
      assert cs[i..][1..] == cs[i + 1..];
      if cs[i].autoStart { enabled := enabled + [cs[i]]; }
    }
    assert enabled == Enabled(cs);
    enabled := SortBy(enabled, OrderKey);
    out := [];
    for i := 0 to |cs|
      invariant |out| == i
      invariant forall j | 0 <= j < i :: out[j] == (cs[j].id, ReadState(cs, cs[j]))
    {
      var c := cs[i];
      var rank := if c.order.Some? then PositionOf(enabled, c.id) else None;
      out := out + [(c.id, State(c.autoStart, c.wait, rank))];
    }
  }

  /** What was read back is what was sent, as far as either says. */
  predicate Landed(sent: State, read: State) {
    && sent.autoStart == read.autoStart
    && (sent.wait.None? || sent.wait == read.wait)
    && (read.rank.None? || sent.rank == read.rank)
  }

  datatype Verdict = Applied | OthersChanged(ids: seq<string>) | NotApplied

  predicate EntryLanded(entries: seq<Entry>, i: nat, after: seq<Container>)
    requires i < |entries|
  {
    var p := PositionOf(after, entries[i].id);
    p.Some? && Landed(SentState(entries, i), ReadState(after, after[p.value]))
  }

  predicate IsSent(entries: seq<Entry>, id: string) {
    exists e | e in entries :: e.id == id
  }

  function Find(states: seq<(string, State)>, id: string): (p: Option<State>)
    ensures p.None? ==> forall i | 0 <= i < |states| :: states[i].0 != id
  {
    if states == [] then None
    else if states[0].0 == id then Some(states[0].1)
    else Find(states[1..], id)
  }

  lemma {:induction false} FindIsPosition(states: seq<(string, State)>, cs: seq<Container>,
                                          read: seq<State>, id: string)
    requires |states| == |cs| == |read|
    requires forall i | 0 <= i < |cs| :: states[i] == (cs[i].id, read[i])
    ensures var p := PositionOf(cs, id);
            Find(states, id) == if p.Some? then Some(read[p.value]) else None
  {
    if cs == [] || cs[0].id == id {
    } else {
      FindIsPosition(states[1..], cs[1..], read[1..], id);
    }
  }

  /** The sent ids, other than the target's, that did not land. */
  ghost predicate DidNotLand(entries: seq<Entry>, after: seq<Container>, target: string, id: string) {
    exists i | 0 <= i < |entries| :: entries[i].id == id && id != target && !EntryLanded(entries, i, after)
  }

  ghost predicate Appeared(entries: seq<Entry>, after: seq<Container>, id: string) {
    (exists c | c in after :: c.id == id) && !IsSent(entries, id)
  }

  /** The first entry of the target, as the source looks it up. */
  function TargetEntry(entries: seq<Entry>, target: string): (p: Option<nat>)
    ensures p.Some? ==> p.value < |entries| && entries[p.value].id == target
    ensures p.None? ==> !IsSent(entries, target)
  {
    if entries == [] then None
    else if entries[0].id == target then Some(0)
    else match TargetEntry(entries[1..], target)
      case Some(p) => Some(p + 1)
      case None => None
  }

  predicate TargetLanded(entries: seq<Entry>, after: seq<Container>, target: string) {
    var p := TargetEntry(entries, target);
    p.Some? && EntryLanded(entries, p.value, after)
  }

  /** `verify_autostart`: not applied, others changed, or exactly what was sent. */
  method VerifyAutostart(entries: seq<Entry>, after: seq<Container>, target: string) returns (v: Verdict)
    ensures v.NotApplied? <==> !TargetLanded(entries, after, target)
    ensures v.Applied? <==>
              && TargetLanded(entries, after, target)
              && forall id :: !DidNotLand(entries, after, target, id) && !Appeared(entries, after, id)
    ensures v.OthersChanged? ==>
              forall id :: id in v.ids <==>
                DidNotLand(entries, after, target, id) || Appeared(entries, after, id)
  {
    var sent := SentStates(entries);
    var read := ReadStates(after);
    ghost var states := seq(|after|, i requires 0 <= i < |after| => ReadState(after, after[i]));
    forall id ensures Find(read, id) ==
        if PositionOf(after, id).Some? then Some(states[PositionOf(after, id).value]) else None
    {
      FindIsPosition(read, after, states, id);
    }
    var ours := TargetEntry(entries, target);
    if ours.None? || Find(read, target).None? || !Landed(sent[ours.value].1, Find(read, target).value) {
      return NotApplied;
    }
    var others: seq<string> := [];
    for i := 0 to |sent|
      invariant forall id :: id in others <==>
                  exists j | 0 <= j < i :: entries[j].id == id && id != target && !EntryLanded(entries, j, after)
    {
      var (id, s) := sent[i];
      var r := Find(read, id);
      assert EntryLanded(entries, i, after) <==> r.Some? && Landed(s, r.value);
      if id != target && (r.None? || !Landed(s, r.value)) {
        others := others + [id];
      }
    }
    ghost var changed := others;
    assert forall id :: id in changed <==> DidNotLand(entries, after, target, id);
    for i := 0 to |read|
      invariant forall id :: id in others <==>
                  id in changed || exists j | 0 <= j < i :: after[j].id == id && !IsSent(entries, id)
    {
      if !IsSent(entries, read[i].0) {
        others := others + [read[i].0];
      }
    }
    assert forall id :: id in others <==> id in changed || Appeared(entries, after, id);
    if others == [] {
      v := Applied;
    } else {
      assert others[0] in others;
      v := OthersChanged(others);
    }
  }
}
