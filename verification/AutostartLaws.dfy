/** Sending and verifying an autostart change agree, and a change edits one container only. */
module AutostartLaws {
  import opened Wrappers
  import opened StableSort
  import opened Autostart

  // ---- The refusal to drop containers ---------------------------------------------------

  ghost predicate UniqueEntries(entries: seq<Entry>) {
    forall i, j | 0 <= i < j < |entries| :: entries[i].id != entries[j].id
  }

  function CountTarget(cs: seq<Container>, target: string): nat {
    Count(cs, (c: Container) => c.id == target && c.autoStart)
  }

  lemma {:induction false} EntriesKeep(cs: seq<Container>, ch: Change)
    ensures Count(EntriesFor(cs, ch), EntryOn) + CountTarget(cs, ch.target) >= Count(cs, IsOn)
    ensures ch.enabled ==> Count(EntriesFor(cs, ch), EntryOn) >= Count(cs, IsOn)
  {
    if cs == [] {
    } else {
      EntriesKeep(cs[1..], ch);
      assert EntriesFor(cs, ch)[1..] == EntriesFor(cs[1..], ch);
    }
  }

  lemma {:induction false} TargetCountedOnce(cs: seq<Container>, target: string)
    requires UniqueIds(cs)
    ensures CountTarget(cs, target) == if TargetIsOn(cs, target) then 1 else 0
  {
    if cs == [] {
    } else {
      TargetCountedOnce(cs[1..], target);
      assert cs == [cs[0]] + cs[1..];
      assert TargetIsOn(cs, target) <==> (cs[0].id == target && cs[0].autoStart) || TargetIsOn(cs[1..], target);
    }
  }

  /** With distinct ids the floor check never refuses: only an empty list does. */
  lemma EntriesOkIffNotEmpty(cs: seq<Container>, ch: Change)
    requires UniqueIds(cs)
    ensures AutostartEntries(cs, ch)
         == if cs == [] then Err(EmptyList) else Ok(EntriesFor(SortBy(cs, OrderKey), ch))
  {
    var sorted := SortBy(cs, OrderKey);
    var on := (c: Container) => c.id == ch.target && c.autoStart;
    EntriesKeep(sorted, ch);
    SortByCount(cs, OrderKey, IsOn);
    SortByCount(cs, OrderKey, on);
    assert CountTarget(sorted, ch.target) == Count(sorted, on) by { SameCount(sorted, ch.target, on); }
    assert CountTarget(cs, ch.target) == Count(cs, on) by { SameCount(cs, ch.target, on); }
    TargetCountedOnce(cs, ch.target);
  }

  lemma {:induction false} SameCount(cs: seq<Container>, target: string, p: Container -> bool)
    requires forall c :: p(c) <==> c.id == target && c.autoStart
    ensures CountTarget(cs, target) == Count(cs, p)
  {
    if cs == [] {
    } else {
      SameCount(cs[1..], target, p);
    }
  }

  lemma {:induction false} EntriesKept(cs: seq<Container>, ch: Change)
    requires !ch.enabled
    ensures Count(EntriesFor(cs, ch), EntryOn) + CountTarget(cs, ch.target) == Count(cs, IsOn)
  {
    if cs == [] {
    } else {
      EntriesKept(cs[1..], ch);
      assert EntriesFor(cs, ch)[1..] == EntriesFor(cs[1..], ch);
    }
  }

  lemma {:induction false} CountedIsThere(cs: seq<Container>, target: string)
    ensures CountTarget(cs, target) > 0 <==> TargetIsOn(cs, target)
  {
    if cs == [] {
    } else {
      CountedIsThere(cs[1..], target);
      assert cs == [cs[0]] + cs[1..];
      assert TargetIsOn(cs, target) <==> (cs[0].id == target && cs[0].autoStart) || TargetIsOn(cs[1..], target);
    }
  }

  /**
   Whatever the list: the change is refused if the list is empty, or if it switches off an id that
   more than one enabled container has, which would switch off all but one too many.
   */
  lemma RefusedIff(cs: seq<Container>, ch: Change)
    ensures AutostartEntries(cs, ch)
         == if cs == [] then Err(EmptyList)
            else if !ch.enabled && CountTarget(cs, ch.target) > 1 then Err(WouldDrop(CountTarget(cs, ch.target) - 1))
            else Ok(EntriesFor(SortBy(cs, OrderKey), ch))
  {
    KeptCounted(cs, ch);
    CountedIsThere(cs, ch.target);
    hide Count, EntriesFor, SortBy, CountTarget, TargetIsOn;
  }

  lemma KeptCounted(cs: seq<Container>, ch: Change)
    ensures var kept := Count(EntriesFor(SortBy(cs, OrderKey), ch), EntryOn);
            if ch.enabled then kept >= Count(cs, IsOn) else kept + CountTarget(cs, ch.target) == Count(cs, IsOn)
  {
    var sorted := SortBy(cs, OrderKey);
    var on := (c: Container) => c.id == ch.target && c.autoStart;
    SortByCount(cs, OrderKey, IsOn);
    if ch.enabled {
      EntriesKeep(sorted, ch);
    } else {
      EntriesKept(sorted, ch);
      SortByCount(cs, OrderKey, on);
      SameCount(sorted, ch.target, on);
      SameCount(cs, ch.target, on);
    }
    hide Count, EntriesFor, SortBy, CountTarget;
  }

  // ---- Ranks ---------------------------------------------------------------------------

  function EnabledEntryIds(entries: seq<Entry>): seq<string> {
    if entries == [] then []
    else if entries[0].autoStart then [entries[0].id] + EnabledEntryIds(entries[1..])
    else EnabledEntryIds(entries[1..])
  }

  function Ids(cs: seq<Container>): (r: seq<string>)
    ensures |r| == |cs| && forall i | 0 <= i < |r| :: r[i] == cs[i].id
  {
    seq(|cs|, i requires 0 <= i < |cs| => cs[i].id)
  }

  /** An enabled entry's rank is its place among the enabled entries. */
  lemma {:induction false} RankIsPlace(entries: seq<Entry>, i: nat)
    requires i < |entries| && entries[i].autoStart
    ensures var rank := Count(entries[..i], EntryOn);
            rank < |EnabledEntryIds(entries)| && EnabledEntryIds(entries)[rank] == entries[i].id
  {
    if i == 0 {
    } else {
      assert entries[..i][1..] == entries[1..][..i - 1];
      RankIsPlace(entries[1..], i - 1);
    }
  }

  lemma {:induction false} EnabledKeepsUnique(cs: seq<Container>)
    requires UniqueIds(cs)
    ensures UniqueIds(Enabled(cs))
    ensures forall c | c in Enabled(cs) :: c in cs && c.autoStart
  {
    if cs == [] {
    } else {
      EnabledKeepsUnique(cs[1..]);
      assert cs == [cs[0]] + cs[1..];
      forall j | 0 <= j < |Enabled(cs[1..])| ensures Enabled(cs[1..])[j].id != cs[0].id {
        assert Enabled(cs[1..])[j] in cs[1..];
      }
    }
  }

  lemma ConsUnique(c: Container, rest: seq<Container>)
    requires UniqueIds(rest) && forall d | d in rest :: d.id != c.id
    ensures UniqueIds([c] + rest)
  {}

  lemma {:induction false} InsertByUnique(cs: seq<Container>, x: Container)
    requires UniqueIds(cs) && forall c | c in cs :: c.id != x.id
    ensures UniqueIds(InsertBy(cs, x, OrderKey))
  {
    if cs == [] || OrderKey(x) <= OrderKey(cs[0]) {
      ConsUnique(x, cs);
    } else {
      InsertByUnique(cs[1..], x);
      InsertByMembers(cs[1..], x, OrderKey);
      ConsUnique(cs[0], InsertBy(cs[1..], x, OrderKey));
    }
  }

  lemma {:induction false} SortByUnique(cs: seq<Container>)
    requires UniqueIds(cs)
    ensures UniqueIds(SortBy(cs, OrderKey))
  {
    if cs == [] {
    } else {
      SortByUnique(cs[1..]);
      SameMembers(cs[1..], OrderKey);
      InsertByUnique(SortBy(cs[1..], OrderKey), cs[0]);
    }
  }

  lemma PositionUnique(cs: seq<Container>, i: nat)
    requires UniqueIds(cs) && i < |cs|
    ensures PositionOf(cs, cs[i].id) == Some(i)
  {}

  // ---- The order sent and read ---------------------------------------------------------------

  /**
   A container with the reported order `a` comes before one with `b`: by number, and one that
   reports none as if it had the largest 64-bit number.
   */
  predicate GoesBefore(a: Option<int>, b: Option<int>) {
    match (a, b)
    case (Some(m), Some(n)) => m < n
    case (Some(m), None) => m < 9223372036854775807
    case (None, Some(n)) => 9223372036854775807 < n
    case (None, None) => false
  }

  lemma OrderedBy(c: Container, d: Container)
    ensures OrderKey(c) < OrderKey(d) <==> GoesBefore(c.order, d.order)
  {}

  /** Which of two containers comes first when they are sorted, in a list of distinct ids. */
  lemma SortedOrder(cs: seq<Container>, x: nat, y: nat, i: nat, j: nat)
    requires UniqueIds(cs) && x < y < |cs| && i < |cs| && j < |cs|
    requires SortBy(cs, OrderKey)[i].id == cs[x].id && SortBy(cs, OrderKey)[j].id == cs[y].id
    ensures i < j <==> !GoesBefore(cs[y].order, cs[x].order)
  {
    var sorted := SortBy(cs, OrderKey);
    SortByStable(cs, OrderKey, x, y);
    SortByUnique(cs);
    OrderedBy(cs[y], cs[x]);
    hide GoesBefore, OrderKey, SortBy, Precedes;
    if GoesBefore(cs[y].order, cs[x].order) {
      PlacesOf(sorted, cs[y], cs[x], j, i);
    } else {
      PlacesOf(sorted, cs[x], cs[y], i, j);
    }
  }

  lemma PlacesOf(s: seq<Container>, c: Container, d: Container, i: nat, j: nat)
    requires UniqueIds(s) && Precedes(s, c, d) && i < |s| && j < |s| && s[i].id == c.id && s[j].id == d.id
    ensures i < j
  {
    var k, l :| 0 <= k < l < |s| && s[k] == c && s[l] == d;
  }

  /**
   The entries come in reported order, those that report none last, and those no order tells
   apart as the server listed them.
   */
  lemma EntriesInOrder(cs: seq<Container>, ch: Change, x: nat, y: nat, i: nat, j: nat)
    requires UniqueIds(cs) && AutostartEntries(cs, ch).Ok? && x < y < |cs|
    requires var entries := AutostartEntries(cs, ch).value;
             i < |entries| && j < |entries| && entries[i].id == cs[x].id && entries[j].id == cs[y].id
    ensures i < j <==> !GoesBefore(cs[y].order, cs[x].order)
  {
    SortedOrder(cs, x, y, i, j);
  }

  /** So do the enabled containers that are read back, among which a rank is a place. */
  lemma StartOrderInOrder(cs: seq<Container>, x: nat, y: nat, i: nat, j: nat)
    requires UniqueIds(cs) && x < y < |cs| && i < |StartOrder(cs)| && j < |StartOrder(cs)|
    requires StartOrder(cs)[i].id == cs[x].id && StartOrder(cs)[j].id == cs[y].id
    ensures i < j <==> !GoesBefore(cs[y].order, cs[x].order)
  {
    hide GoesBefore, OrderKey;
    EnabledKeepsUnique(cs);
    SameMembers(Enabled(cs), OrderKey);
    SortByUnique(Enabled(cs));
    assert StartOrder(cs)[i] in Enabled(cs) && StartOrder(cs)[j] in Enabled(cs);
    SameContainer(cs, StartOrder(cs)[i], x);
    SameContainer(cs, StartOrder(cs)[j], y);
    var x', y' := EnabledInOrder(cs, x, y);
    SortedOrder(Enabled(cs), x', y', i, j);
  }

  lemma SameContainer(cs: seq<Container>, c: Container, x: nat)
    requires UniqueIds(cs) && x < |cs| && c in cs && c.id == cs[x].id
    ensures c == cs[x]
  {
    var k :| 0 <= k < |cs| && cs[k] == c;
  }

  /** Leaving out those not enabled keeps the order of the others. */
  lemma {:induction false} EnabledInOrder(cs: seq<Container>, x: nat, y: nat) returns (x': nat, y': nat)
    requires x < y < |cs| && cs[x].autoStart && cs[y].autoStart
    ensures x' < y' < |Enabled(cs)| && Enabled(cs)[x'] == cs[x] && Enabled(cs)[y'] == cs[y]
  {
    var more := if cs[0].autoStart then 1 else 0;
    if x == 0 {
      EnabledHas(cs[1..], y - 1);
      var k :| 0 <= k < |Enabled(cs[1..])| && Enabled(cs[1..])[k] == cs[y];
      x', y' := 0, k + 1;
    } else {
      x', y' := EnabledInOrder(cs[1..], x - 1, y - 1);
      x', y' := x' + more, y' + more;
    }
  }

  // ---- Verify matches send -----------------------------------------------------------------

  /** The server holds exactly what the entries say, enabled containers in the order sent. */
  ghost predicate Stored(entries: seq<Entry>, after: seq<Container>) {
    && UniqueIds(after) && UniqueEntries(entries)
    && (forall id :: IsSent(entries, id) <==> exists c | c in after :: c.id == id)
    && (forall e, c | e in entries && c in after && e.id == c.id ::
          e.autoStart == c.autoStart && (e.wait.Some? ==> e.wait == c.wait))
    && Ids(StartOrder(after)) == EnabledEntryIds(entries)
  }

  /** Everything sent was read back, and nothing else. */
  ghost predicate AllAsSent(entries: seq<Entry>, after: seq<Container>) {
    && (forall i | 0 <= i < |entries| :: EntryLanded(entries, i, after))
    && forall c | c in after :: IsSent(entries, c.id)
  }

  lemma StoredEntryLanded(entries: seq<Entry>, after: seq<Container>, i: nat)
    requires Stored(entries, after) && i < |entries|
    ensures EntryLanded(entries, i, after)
  {
    var id := entries[i].id;
    assert entries[i] in entries && IsSent(entries, id);
    var c :| c in after && c.id == id;
    var k :| 0 <= k < |after| && after[k] == c;
    PositionUnique(after, k);
    var order := StartOrder(after);
    EnabledKeepsUnique(after);
    SortByUnique(Enabled(after));
    SameMembers(Enabled(after), OrderKey);
    assert forall d | d in order :: d in after && d.autoStart;
    if entries[i].autoStart {
      RankIsPlace(entries, i);
      var rank := Count(entries[..i], EntryOn);
      assert Ids(order)[rank] == id;
      PositionUnique(order, rank);
    }
  }

  /** If the server stores exactly what was sent, every entry is found to have landed. */
  lemma StoredIsApplied(entries: seq<Entry>, after: seq<Container>, target: string)
    requires Stored(entries, after) && IsSent(entries, target)
    ensures TargetLanded(entries, after, target)
    ensures forall id :: !DidNotLand(entries, after, target, id) && !Appeared(entries, after, id)
  {
    forall i | 0 <= i < |entries| ensures EntryLanded(entries, i, after) {
      StoredEntryLanded(entries, after, i);
    }
  }

  /** The verdict `Applied`, whose condition VerifyAutostart states, says exactly this. */
  lemma AppliedIffAllAsSent(entries: seq<Entry>, after: seq<Container>, target: string)
    requires UniqueEntries(entries)
    ensures (&& TargetLanded(entries, after, target)
             && forall id :: !DidNotLand(entries, after, target, id) && !Appeared(entries, after, id))
       <==> IsSent(entries, target) && AllAsSent(entries, after)
  {
    if TargetLanded(entries, after, target)
       && forall id :: !DidNotLand(entries, after, target, id) && !Appeared(entries, after, id) {
      var t := TargetEntry(entries, target).value;
      assert entries[t] in entries;
      forall i | 0 <= i < |entries| ensures EntryLanded(entries, i, after) {
        if entries[i].id == target {
          assert i == t;
        } else {
          assert !DidNotLand(entries, after, target, entries[i].id);
        }
      }
      forall c | c in after ensures IsSent(entries, c.id) {
        assert !Appeared(entries, after, c.id);
      }
    }
  }

  /** What AllAsSent means for each container: its flag, any wait given, and any rank reported. */
  lemma AllAsSentMeans(entries: seq<Entry>, after: seq<Container>, i: nat, k: nat)
    requires UniqueIds(after) && AllAsSent(entries, after)
    requires i < |entries| && k < |after| && entries[i].id == after[k].id
    ensures after[k].autoStart == entries[i].autoStart
    ensures entries[i].wait.Some? ==> after[k].wait == entries[i].wait
    ensures after[k].order.Some? && after[k].autoStart ==>
              PositionOf(StartOrder(after), after[k].id) == Some(Count(entries[..i], EntryOn))
  {
    PositionUnique(after, k);
    assert EntryLanded(entries, i, after);
    if after[k].order.Some? && after[k].autoStart {
      var order := StartOrder(after);
      EnabledHas(after, k);
      SameMembers(Enabled(after), OrderKey);
      assert after[k] in order;
      var p :| 0 <= p < |order| && order[p] == after[k];
      assert PositionOf(order, after[k].id).Some?;
    }
  }

  lemma {:induction false} EnabledHas(cs: seq<Container>, k: nat)
    requires k < |cs| && cs[k].autoStart
    ensures cs[k] in Enabled(cs)
  {
    if k == 0 {
    } else {
      EnabledHas(cs[1..], k - 1);
    }
  }
}
