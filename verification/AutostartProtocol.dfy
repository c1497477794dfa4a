/**
 Any number of writers change one server's autostart list (`write_autostart`,
 src/unit_provider.rs): each plans without the lock, then takes it, re-reads,
 compares, writes and verifies, while others outside change the list too. The writes come out
 as if made one after another, each on the list it found.
 */
module AutostartProtocol {
  import opened Wrappers
  import opened StableSort
  import opened Autostart
  import opened AutostartLaws

  // ---- Snapshots ------------------------------------------------------------------------

  datatype Row = Row(id: string, autoStart: bool, order: Option<int>, wait: Option<int>)

  function RowOf(c: Container): Row {
    Row(c.id, c.autoStart, c.order, c.wait)
  }

  function RowsOf(cs: seq<Container>): (r: seq<Row>)
    ensures |r| == |cs| && forall i | 0 <= i < |r| :: r[i] == RowOf(cs[i])
  {
    seq(|cs|, i requires 0 <= i < |cs| => RowOf(cs[i]))
  }

  /** `autostart_snapshot`: the sorted rows, compared as what they hold. */
  function Snapshot(cs: seq<Container>): multiset<Row> {
    multiset(RowsOf(cs))
  }

  lemma SnapshotFinds(a: seq<Container>, b: seq<Container>, c: Container) returns (d: Container)
    requires Snapshot(a) == Snapshot(b) && c in a
    ensures d in b && RowOf(d) == RowOf(c)
  {
    var i :| 0 <= i < |a| && a[i] == c;
    assert RowsOf(a)[i] in Snapshot(a);
    assert RowOf(c) in RowsOf(b);
    var j :| 0 <= j < |b| && RowsOf(b)[j] == RowOf(c);
    d := b[j];
  }

  // ---- The server -------------------------------------------------------------------------

  /** The two lists hold the same containers, in any order. */
  ghost predicate SameListing(a: seq<Container>, b: seq<Container>) {
    multiset(a) == multiset(b)
  }

  /** An accepted update: exactly the entries, a wait not given kept, places distinct. */
  ghost predicate Stores(before: seq<Container>, entries: seq<Entry>, after: seq<Container>) {
    && Stored(entries, after)
    && (forall e, c, d | e in entries && c in before && d in after && e.id == c.id == d.id && e.wait.None? ::
          d.wait == c.wait)
    && forall c, d | c in after && d in after && c.autoStart && d.autoStart && c.id != d.id ::
         OrderKey(c) != OrderKey(d)
  }

  ghost predicate SameIds(before: seq<Container>, after: seq<Container>) {
    && (forall c {:trigger HasId(after, c.id)} | c in before :: HasId(after, c.id))
    && (forall d {:trigger HasId(before, d.id)} | d in after :: HasId(before, d.id))
  }

  predicate HasId(cs: seq<Container>, id: string) {
    exists c | c in cs :: c.id == id
  }

  /** One container before and after: the target as asked, any other unchanged. */
  predicate Edited(ch: Change, c: Container, d: Container) {
    if c.id == ch.target
    then d.autoStart == ch.enabled && d.wait == (if ch.wait.Some? then ch.wait else c.wait)
    else d.autoStart == c.autoStart && d.wait == c.wait
  }

  ghost predicate OthersKept(before: seq<Container>, ch: Change, after: seq<Container>) {
    forall c, d | c in before && d in after && c.id == d.id :: Edited(ch, c, d)
  }

  /** Two containers with distinct orders, enabled before and after, stay in order. */
  ghost predicate OrderKept(before: seq<Container>, after: seq<Container>) {
    forall c1, c2, d1, d2 | c1 in before && c2 in before && d1 in after && d2 in after ::
      StaysInOrder(c1, c2, d1, d2)
  }

  predicate StaysInOrder(c1: Container, c2: Container, d1: Container, d2: Container) {
    (c1.id == d1.id && c2.id == d2.id && c1.autoStart && c2.autoStart && d1.autoStart && d2.autoStart) ==>
      (OrderKey(c1) < OrderKey(c2) ==> OrderKey(d1) < OrderKey(d2))
  }

  /** Only the target differs: same containers, others' flags, waits and order kept. */
  ghost predicate IsSingleEdit(before: seq<Container>, ch: Change, after: seq<Container>) {
    SameIds(before, after) && OthersKept(before, ch, after) && OrderKept(before, after)
  }

  // ---- A write planned from an equal snapshot is a single edit of the server --------------

  /** `entries` are those of a list with the server's snapshot. */
  ghost predicate PlannedFor(planned: seq<Container>, ch: Change, entries: seq<Entry>, server: seq<Container>) {
    && UniqueIds(planned) && UniqueIds(server) && planned != []
    && Snapshot(planned) == Snapshot(server)
    && entries == EntriesFor(SortBy(planned, OrderKey), ch)
  }

  lemma EntryOfContainer(planned: seq<Container>, ch: Change, entries: seq<Entry>, server: seq<Container>, c: Container)
    returns (i: nat)
    requires PlannedFor(planned, ch, entries, server) && c in server
    ensures i < |entries| && RowOf(SortBy(planned, OrderKey)[i]) == RowOf(c)
    ensures entries[i] == EntryFor(SortBy(planned, OrderKey)[i], ch) && entries[i].id == c.id
  {
    var d := SnapshotFinds(server, planned, c);
    SameMembers(planned, OrderKey);
    i :| 0 <= i < |SortBy(planned, OrderKey)| && SortBy(planned, OrderKey)[i] == d;
  }

  lemma ContainerOfEntry(planned: seq<Container>, ch: Change, entries: seq<Entry>, server: seq<Container>, i: nat)
    returns (c: Container)
    requires PlannedFor(planned, ch, entries, server) && i < |entries|
    ensures c in server && RowOf(SortBy(planned, OrderKey)[i]) == RowOf(c) && entries[i].id == c.id
  {
    var p := SortBy(planned, OrderKey)[i];
    assert p in SortBy(planned, OrderKey);
    SameMembers(planned, OrderKey);
    c := SnapshotFinds(planned, server, p);
  }

  lemma {:induction false} CountBelow(entries: seq<Entry>, i: nat, j: nat)
    requires i < j <= |entries| && entries[i].autoStart
    ensures Count(entries[..i], EntryOn) < Count(entries[..j], EntryOn)
    decreases j
  {
    assert entries[..j] == entries[..j - 1] + [entries[j - 1]];
    CountSnoc(entries[..j - 1], entries[j - 1], EntryOn);
    if i < j - 1 {
      CountBelow(entries, i, j - 1);
    }
  }

  /** Of two enabled entries the earlier has the smaller place after the write. */
  lemma EarlierEntryEarlierPlace(before: seq<Container>, entries: seq<Entry>, after: seq<Container>,
                                 i: nat, j: nat, d1: Container, d2: Container)
    requires Stores(before, entries, after)
    requires i < j < |entries| && d1 in after && d2 in after
    requires entries[i].id == d1.id && entries[j].id == d2.id && d1.autoStart && d2.autoStart
    ensures OrderKey(d1) < OrderKey(d2)
  {
    var order := StartOrder(after);
    assert entries[i] in entries && entries[j] in entries;
    RankIsPlace(entries, i);
    RankIsPlace(entries, j);
    CountBelow(entries, i, j);
    var (p, q) := (Count(entries[..i], EntryOn), Count(entries[..j], EntryOn));
    SameMembers(Enabled(after), OrderKey);
    EnabledKeepsUnique(after);
    SortBySorted(Enabled(after), OrderKey);
    assert Ids(order)[p] == order[p].id && Ids(order)[q] == order[q].id;
    assert order[p] in order && order[q] in order;
    SameIdSameContainer(after, order[p], d1);
    SameIdSameContainer(after, order[q], d2);
  }

  lemma SameIdSameContainer(cs: seq<Container>, c: Container, d: Container)
    requires UniqueIds(cs) && c in cs && d in cs && c.id == d.id
    ensures c == d
  {
    var i :| 0 <= i < |cs| && cs[i] == c;
    var j :| 0 <= j < |cs| && cs[j] == d;
  }

  lemma WriteKeepsOrder(planned: seq<Container>, ch: Change, entries: seq<Entry>, server: seq<Container>,
                        after: seq<Container>, c1: Container, c2: Container, d1: Container, d2: Container)
    requires PlannedFor(planned, ch, entries, server) && Stores(server, entries, after)
    requires c1 in server && c2 in server && d1 in after && d2 in after && c1.id == d1.id && c2.id == d2.id
    requires d1.autoStart && d2.autoStart && OrderKey(c1) < OrderKey(c2)
    ensures OrderKey(d1) < OrderKey(d2)
  {
    hide Stores, Stored, Snapshot, UniqueIds, SortBy, EntryFor;
    var i := EntryOfContainer(planned, ch, entries, server, c1);
    var j := EntryOfContainer(planned, ch, entries, server, c2);
    SortBySorted(planned, OrderKey);
    var sorted := SortBy(planned, OrderKey);
    assert OrderKey(sorted[i]) == OrderKey(c1) && OrderKey(sorted[j]) == OrderKey(c2);
    hide PlannedFor, OrderKey;
    EarlierEntryEarlierPlace(server, entries, after, i, j, d1, d2);
  }

  lemma WriteEdits(planned: seq<Container>, ch: Change, entries: seq<Entry>, server: seq<Container>,
                   after: seq<Container>, c: Container, d: Container)
    requires PlannedFor(planned, ch, entries, server) && Stores(server, entries, after)
    requires c in server && d in after && c.id == d.id
    ensures Edited(ch, c, d)
  {
    var i := EntryOfContainer(planned, ch, entries, server, c);
    assert entries[i] in entries;
  }

  lemma WriteKeepsIds(planned: seq<Container>, ch: Change, entries: seq<Entry>, server: seq<Container>,
                      after: seq<Container>)
    requires PlannedFor(planned, ch, entries, server) && Stores(server, entries, after)
    ensures SameIds(server, after)
  {
    forall c | c in server ensures HasId(after, c.id) {
      var i := EntryOfContainer(planned, ch, entries, server, c);
      assert entries[i] in entries && IsSent(entries, c.id);
    }
    forall d | d in after ensures HasId(server, d.id) {
      assert IsSent(entries, d.id);
      var e :| e in entries && e.id == d.id;
      var i :| 0 <= i < |entries| && entries[i] == e;
      var c := ContainerOfEntry(planned, ch, entries, server, i);
    }
  }

  /** Writing entries planned from an equal snapshot changes the target and nothing else. */
  lemma WriteIsSingleEdit(planned: seq<Container>, ch: Change, entries: seq<Entry>, server: seq<Container>,
                          after: seq<Container>)
    requires PlannedFor(planned, ch, entries, server) && Stores(server, entries, after)
    ensures IsSingleEdit(server, ch, after)
  {
    hide Stores, OrderKey, PlannedFor, Edited;
    WriteKeepsIds(planned, ch, entries, server, after);
    forall c, d | c in server && d in after && c.id == d.id ensures Edited(ch, c, d) {
      WriteEdits(planned, ch, entries, server, after, c, d);
    }
    forall c1, c2, d1, d2 | c1 in server && c2 in server && d1 in after && d2 in after
      ensures StaysInOrder(c1, c2, d1, d2)
    {
      if c1.id == d1.id && c2.id == d2.id && d1.autoStart && d2.autoStart && OrderKey(c1) < OrderKey(c2) {
        WriteKeepsOrder(planned, ch, entries, server, after, c1, c2, d1, d2);
      }
    }
  }

  // ---- The writers ---------------------------------------------------------------------------

  type Writer = nat

  datatype Pc =
    | Idle
    | Planned(planned: seq<Container>, ch: Change)
    | Holding(planned: seq<Container>, ch: Change)
    | Checked(planned: seq<Container>, ch: Change)
    | Written(ch: Change, entries: seq<Entry>)

  /** What happened to the list: a writer's update, or anything done by others. */
  datatype Deed =
    | Commit(ch: Change, before: seq<Container>, after: seq<Container>)
    | Outside(before: seq<Container>, after: seq<Container>)

  datatype World = World(server: seq<Container>, holder: Option<Writer>, pcs: map<Writer, Pc>, log: seq<Deed>)

  predicate HoldsLock(pc: Pc) {
    pc.Holding? || pc.Checked? || pc.Written?
  }

  /** A writer reads the list and plans a change of one of its containers. */
  ghost predicate PlanStep(w: World, w': World, i: Writer, planned: seq<Container>, ch: Change) {
    && i in w.pcs && w.pcs[i].Idle?
    && SameListing(planned, w.server)
    && HasId(planned, ch.target)
    && AutostartEntries(planned, ch).Ok?
    && w' == w.(pcs := w.pcs[i := Planned(planned, ch)])
  }

  ghost predicate AcquireStep(w: World, w': World, i: Writer) {
    && i in w.pcs && w.pcs[i].Planned? && w.holder.None?
    && w' == w.(holder := Some(i), pcs := w.pcs[i := Holding(w.pcs[i].planned, w.pcs[i].ch)])
  }

  /** The re-read under the lock: equal snapshots go on, different ones give up. */
  ghost predicate CheckStep(w: World, w': World, i: Writer, reread: seq<Container>) {
    && i in w.pcs && w.pcs[i].Holding? && SameListing(reread, w.server)
    && if Snapshot(reread) == Snapshot(w.pcs[i].planned)
       then w' == w.(pcs := w.pcs[i := Checked(w.pcs[i].planned, w.pcs[i].ch)])
       else w' == w.(holder := None, pcs := w.pcs[i := Idle])
  }

  ghost predicate WriteStep(w: World, w': World, i: Writer) {
    && i in w.pcs && w.pcs[i].Checked?
    && AutostartEntries(w.pcs[i].planned, w.pcs[i].ch).Ok?
    && var entries := AutostartEntries(w.pcs[i].planned, w.pcs[i].ch).value;
       && Stores(w.server, entries, w'.server)
       && w' == World(w'.server, w.holder, w.pcs[i := Written(w.pcs[i].ch, entries)],
                      w.log + [Commit(w.pcs[i].ch, w.server, w'.server)])
  }

  /** The server refuses the update: nothing is stored and the lock is released. */
  ghost predicate RefusedStep(w: World, w': World, i: Writer) {
    && i in w.pcs && w.pcs[i].Checked?
    && w' == w.(holder := None, pcs := w.pcs[i := Idle])
  }

  /** The verifying read, still under the lock, which is then released. */
  ghost predicate VerifyStep(w: World, w': World, i: Writer) {
    && i in w.pcs && w.pcs[i].Written?
    && w' == w.(holder := None, pcs := w.pcs[i := Idle])
  }

  /**
   Someone outside the process changes the list at will, at any moment but between a writer's
   re-read and its update.
   */
  ghost predicate OutsideStep(w: World, w': World) {
    && (forall i | i in w.pcs :: !w.pcs[i].Checked?)
    && UniqueIds(w'.server)
    && w' == w.(server := w'.server, log := w.log + [Outside(w.server, w'.server)])
  }

  ghost predicate Next(w: World, w': World) {
    || (exists i, planned, ch :: PlanStep(w, w', i, planned, ch))
    || (exists i :: AcquireStep(w, w', i))
    || (exists i, reread :: CheckStep(w, w', i, reread))
    || (exists i :: WriteStep(w, w', i))
    || (exists i :: RefusedStep(w, w', i))
    || (exists i :: VerifyStep(w, w', i))
    || OutsideStep(w, w')
  }

  ghost predicate Init(w: World) {
    && UniqueIds(w.server) && w.holder.None? && w.log == []
    && forall i | i in w.pcs :: w.pcs[i].Idle?
  }

  /** The entries were stored by the deed at `m`, and since then only others changed the list. */
  ghost predicate CommittedAt(log: seq<Deed>, m: nat, ch: Change, entries: seq<Entry>) {
    && m < |log| && log[m].Commit? && log[m].ch == ch && Stored(entries, log[m].after)
    && forall k | m < k < |log| :: log[k].Outside?
  }

  /** One writer's state is consistent with the server. */
  ghost predicate PcOk(w: World, i: Writer)
    requires i in w.pcs
  {
    && (HoldsLock(w.pcs[i]) ==> w.holder == Some(i))
    && match w.pcs[i]
       case Idle => true
       case Planned(planned, ch) => UniqueIds(planned) && AutostartEntries(planned, ch).Ok?
       case Holding(planned, ch) => UniqueIds(planned) && AutostartEntries(planned, ch).Ok?
       case Checked(planned, ch) =>
         UniqueIds(planned) && AutostartEntries(planned, ch).Ok? && Snapshot(planned) == Snapshot(w.server)
       case Written(ch, entries) => IsSent(entries, ch.target) && exists m: nat :: CommittedAt(w.log, m, ch, entries)
  }

  /** A commit is a single edit of the list it found. */
  ghost predicate DeedOk(d: Deed) {
    d.Commit? ==> IsSingleEdit(d.before, d.ch, d.after)
  }

  /** The deeds, one after the other from `init`, lead to `server`. */
  ghost predicate IsSerial(init: seq<Container>, log: seq<Deed>, server: seq<Container>) {
    && (if log == [] then server == init else log[0].before == init && log[|log| - 1].after == server)
    && (forall k | 0 <= k < |log| - 1 :: log[k].after == log[k + 1].before)
    && forall k | 0 <= k < |log| :: DeedOk(log[k])
  }

  ghost predicate Inv(init: seq<Container>, w: World) {
    && UniqueIds(w.server)
    && (forall i | i in w.pcs :: PcOk(w, i))
    && IsSerial(init, w.log, w.server)
  }

  // ---- Every step keeps the invariant -----------------------------------------------------------

  lemma ListingFacts(a: seq<Container>, b: seq<Container>)
    requires SameListing(a, b)
    ensures |a| == |b| && (forall c :: c in a <==> c in b)
    ensures UniqueIds(b) ==> UniqueIds(a)
    ensures Snapshot(a) == Snapshot(b)
  {
    assert |multiset(a)| == |multiset(b)|;
    forall c ensures c in a <==> c in b {
      assert c in multiset(a) <==> c in multiset(b);
    }
    if UniqueIds(b) { ListingUnique(a, b); }
    ListingSnapshot(a, b);
  }

  lemma {:induction false} ListingUnique(a: seq<Container>, b: seq<Container>)
    requires SameListing(a, b) && UniqueIds(b)
    ensures UniqueIds(a)
  {
    forall i, j | 0 <= i < j < |a| ensures a[i].id != a[j].id {
      if a[i].id == a[j].id {
        assert a[i] in multiset(b) && a[j] in multiset(b);
        SameIdSameContainer(b, a[i], a[j]);
        assert a == a[..j] + [a[j]] + a[j + 1..];
        assert a[..j][i] == a[i];
        assert multiset(a)[a[i]] >= 2;
        UniqueOnce(b, a[i]);
      }
    }
  }

  lemma {:induction false} UniqueOnce(cs: seq<Container>, c: Container)
    requires UniqueIds(cs)
    ensures multiset(cs)[c] <= 1
  {
    if cs == [] {
    } else {
      assert cs == [cs[0]] + cs[1..];
      UniqueOnce(cs[1..], c);
      assert forall d | d in cs[1..] :: d.id != cs[0].id;
    }
  }

  lemma RowsOfConcat(a: seq<Container>, b: seq<Container>)
    ensures RowsOf(a + b) == RowsOf(a) + RowsOf(b)
  {}

  lemma SnapshotConcat(a: seq<Container>, b: seq<Container>)
    ensures Snapshot(a + b) == Snapshot(a) + Snapshot(b)
  {
    RowsOfConcat(a, b);
  }

  lemma RemoveAt<T>(b: seq<T>, k: nat)
    requires k < |b|
    ensures multiset(b[..k] + b[k + 1..]) + multiset([b[k]]) == multiset(b)
  {
    assert b == b[..k] + [b[k]] + b[k + 1..];
  }

  lemma SameRest<T>(a: seq<T>, b: seq<T>, k: nat)
    requires multiset(a) == multiset(b) && a != [] && k < |b| && b[k] == a[0]
    ensures multiset(a[1..]) == multiset(b[..k] + b[k + 1..])
  {
    RemoveAt(b, k);
    assert a == [a[0]] + a[1..];
    var (x, y, z) := (multiset(a[1..]), multiset(b[..k] + b[k + 1..]), multiset([a[0]]));
    assert x + z == y + z;
    assert x == (x + z) - z && y == (y + z) - z;
  }

  lemma SnapshotWithout(b: seq<Container>, k: nat)
    requires k < |b|
    ensures Snapshot(b) == Snapshot([b[k]]) + Snapshot(b[..k] + b[k + 1..])
  {
    hide Snapshot;
    assert b == b[..k] + ([b[k]] + b[k + 1..]);
    SnapshotConcat(b[..k], [b[k]] + b[k + 1..]);
    SnapshotConcat([b[k]], b[k + 1..]);
    SnapshotConcat(b[..k], b[k + 1..]);
  }

  lemma HeadIsThere<T>(a: seq<T>, b: seq<T>) returns (k: nat)
    requires multiset(a) == multiset(b) && a != []
    ensures k < |b| && b[k] == a[0]
  {
    assert a[0] in multiset(b);
    k :| 0 <= k < |b| && b[k] == a[0];
  }

  lemma HeadSnapshot(a: seq<Container>)
    requires a != []
    ensures Snapshot(a) == Snapshot([a[0]]) + Snapshot(a[1..])
  {
    hide Snapshot;
    assert a == [a[0]] + a[1..];
    SnapshotConcat([a[0]], a[1..]);
  }

  lemma {:induction false} ListingSnapshot(a: seq<Container>, b: seq<Container>)
    requires multiset(a) == multiset(b)
    ensures Snapshot(a) == Snapshot(b)
    decreases |a|
  {
    if a == [] {
      assert |multiset(b)| == 0;
    } else {
      hide *;
      var k := HeadIsThere(a, b);
      SameRest(a, b, k);
      ListingSnapshot(a[1..], b[..k] + b[k + 1..]);
      SnapshotWithout(b, k);
      HeadSnapshot(a);
    }
  }

  lemma PlanKeeps(init: seq<Container>, w: World, w': World, i: Writer, planned: seq<Container>, ch: Change)
    requires Inv(init, w) && PlanStep(w, w', i, planned, ch)
    ensures Inv(init, w')
  {
    hide IsSerial, Snapshot, AutostartEntries, Stored;
    ListingFacts(planned, w.server);
    forall j | j in w'.pcs ensures PcOk(w', j) { assert PcOk(w, j); }
  }

  lemma AcquireKeeps(init: seq<Container>, w: World, w': World, i: Writer)
    requires Inv(init, w) && AcquireStep(w, w', i)
    ensures Inv(init, w')
  {
    hide IsSerial, Snapshot, AutostartEntries, Stored;
    forall j | j in w'.pcs ensures PcOk(w', j) { assert PcOk(w, j); }
  }

  lemma CheckKeeps(init: seq<Container>, w: World, w': World, i: Writer, reread: seq<Container>)
    requires Inv(init, w) && CheckStep(w, w', i, reread)
    ensures Inv(init, w')
  {
    hide IsSerial, Snapshot, AutostartEntries, Stored;
    ListingFacts(reread, w.server);
    assert PcOk(w, i);
    forall j | j in w'.pcs ensures PcOk(w', j) { assert PcOk(w, j); }
  }

  lemma ReleaseKeeps(init: seq<Container>, w: World, w': World, i: Writer)
    requires Inv(init, w) && (RefusedStep(w, w', i) || VerifyStep(w, w', i))
    ensures Inv(init, w')
  {
    hide IsSerial, Snapshot, AutostartEntries, Stored;
    assert PcOk(w, i);
    forall j | j in w'.pcs ensures PcOk(w', j) { assert PcOk(w, j); }
  }

  lemma SerialAppend(init: seq<Container>, log: seq<Deed>, server: seq<Container>, d: Deed)
    requires IsSerial(init, log, server) && DeedOk(d) && d.before == server
    ensures IsSerial(init, log + [d], d.after)
  {
    hide DeedOk;
    var more := log + [d];
    forall k | 0 <= k < |more| ensures DeedOk(more[k]) {
      if k < |log| { assert more[k] == log[k]; }
    }
  }

  lemma OutsideKeeps(init: seq<Container>, w: World, w': World)
    requires Inv(init, w) && OutsideStep(w, w')
    ensures Inv(init, w')
  {
    hide IsSerial, Snapshot, AutostartEntries, Stored;
    SerialAppend(init, w.log, w.server, Outside(w.server, w'.server));
    forall j | j in w'.pcs ensures PcOk(w', j) {
      assert PcOk(w, j);
      if w.pcs[j].Written? {
        var m: nat :| CommittedAt(w.log, m, w.pcs[j].ch, w.pcs[j].entries);
        assert CommittedAt(w'.log, m, w.pcs[j].ch, w.pcs[j].entries);
      }
    }
  }

  lemma CheckedIsPlannedFor(w: World, i: Writer) returns (entries: seq<Entry>)
    requires i in w.pcs && w.pcs[i].Checked? && PcOk(w, i) && UniqueIds(w.server)
    ensures AutostartEntries(w.pcs[i].planned, w.pcs[i].ch) == Ok(entries)
    ensures PlannedFor(w.pcs[i].planned, w.pcs[i].ch, entries, w.server)
  {
    EntriesOkIffNotEmpty(w.pcs[i].planned, w.pcs[i].ch);
    entries := AutostartEntries(w.pcs[i].planned, w.pcs[i].ch).value;
  }

  lemma WriteKeeps(init: seq<Container>, w: World, w': World, i: Writer)
    requires Inv(init, w) && WriteStep(w, w', i)
    requires TargetPlanned(w)
    ensures Inv(init, w')
  {
    hide IsSerial, IsSingleEdit, Snapshot, AutostartEntries, PlannedFor;
    var pc := w.pcs[i];
    assert PcOk(w, i);
    var entries := CheckedIsPlannedFor(w, i);
    WriteIsSingleEdit(pc.planned, pc.ch, entries, w.server, w'.server);
    var deed := Commit(pc.ch, w.server, w'.server);
    SerialAppend(init, w.log, w.server, deed);
    TargetIsSent(pc.planned, pc.ch, entries, w.server);
    assert CommittedAt(w'.log, |w.log|, pc.ch, entries);
    forall j | j in w'.pcs ensures PcOk(w', j) { assert PcOk(w, j); }
  }

  /** Every plan names a container it read. */
  ghost predicate TargetPlanned(w: World) {
    forall i | i in w.pcs ::
      (w.pcs[i].Planned? || w.pcs[i].Holding? || w.pcs[i].Checked?) ==> HasId(w.pcs[i].planned, w.pcs[i].ch.target)
  }

  lemma TargetIsSent(planned: seq<Container>, ch: Change, entries: seq<Entry>, server: seq<Container>)
    requires PlannedFor(planned, ch, entries, server) && HasId(planned, ch.target)
    ensures IsSent(entries, ch.target)
  {
    var c :| c in planned && c.id == ch.target;
    var d := SnapshotFinds(planned, server, c);
    var i := EntryOfContainer(planned, ch, entries, server, d);
    assert entries[i] in entries;
  }

  lemma StepKeeps(init: seq<Container>, w: World, w': World)
    requires Inv(init, w) && TargetPlanned(w) && Next(w, w')
    ensures Inv(init, w') && TargetPlanned(w')
  {
    hide Inv, IsSerial, Snapshot, AutostartEntries, Stores, SameListing, PcOk;
    if i, planned, ch :| PlanStep(w, w', i, planned, ch) {
      PlanKeeps(init, w, w', i, planned, ch);
    } else if i :| AcquireStep(w, w', i) {
      AcquireKeeps(init, w, w', i);
    } else if i, reread :| CheckStep(w, w', i, reread) {
      CheckKeeps(init, w, w', i, reread);
    } else if i :| WriteStep(w, w', i) {
      WriteKeeps(init, w, w', i);
    } else if OutsideStep(w, w') {
      OutsideKeeps(init, w, w');
    } else {
      var i :| RefusedStep(w, w', i) || VerifyStep(w, w', i);
      ReleaseKeeps(init, w, w', i);
    }
  }

  /** A run of the writers and of others, in any interleaving. */
  ghost predicate IsRun(ws: seq<World>) {
    ws != [] && Init(ws[0]) && forall k | 0 <= k < |ws| - 1 :: Next(ws[k], ws[k + 1])
  }

  lemma {:induction false} RunKeeps(ws: seq<World>, k: nat)
    requires IsRun(ws) && k < |ws|
    ensures Inv(ws[0].server, ws[k]) && TargetPlanned(ws[k])
  {
    hide Next, HasId;
    if k == 0 {
      assert IsSerial(ws[0].server, [], ws[0].server);
    } else {
      RunKeeps(ws, k - 1);
      assert Next(ws[k - 1], ws[k - 1 + 1]);
      StepKeeps(ws[0].server, ws[k - 1], ws[k]);
    }
  }

  /**
   However the writers and others interleave, the list is at every moment what the deeds made
   of it, one after another; and each commit is a single-target edit of the list it found.
   */
  lemma WritersAreSerializable(ws: seq<World>, k: nat)
    requires IsRun(ws) && k < |ws|
    ensures IsSerial(ws[0].server, ws[k].log, ws[k].server)
  {
    RunKeeps(ws, k);
  }

  /**
   A writer that has written and not let go: its change was applied as sent when it committed,
   and only others changed the list since; if they did not, that is what it finds.
   */
  lemma WriterFindsItsChange(ws: seq<World>, k: nat, i: Writer) returns (m: nat)
    requires IsRun(ws) && k < |ws| && i in ws[k].pcs && ws[k].pcs[i].Written?
    ensures ws[k].holder == Some(i)
    ensures var (pc, log) := (ws[k].pcs[i], ws[k].log);
            && m < |log| && log[m].Commit? && log[m].ch == pc.ch && (forall j | m < j < |log| :: log[j].Outside?)
            && IsSent(pc.entries, pc.ch.target) && AllAsSent(pc.entries, log[m].after)
            && (m == |log| - 1 ==> AllAsSent(pc.entries, ws[k].server))
  {
    RunKeeps(ws, k);
    var pc := ws[k].pcs[i];
    assert PcOk(ws[k], i);
    m :| CommittedAt(ws[k].log, m, pc.ch, pc.entries);
    StoredIsApplied(pc.entries, ws[k].log[m].after, pc.ch.target);
    AppliedIffAllAsSent(pc.entries, ws[k].log[m].after, pc.ch.target);
  }

  // ---- What no sequence of commits loses ----------------------------------------------------------

  /** Neither targeted by a commit, nor dropped or given another flag or wait by others. */
  ghost predicate Leaves(d: Deed, id: string) {
    match d
    case Commit(ch, _, _) => ch.target != id
    case Outside(before, after) =>
      HasId(after, id)
      && forall c, e | c in before && e in after && c.id == e.id == id :: c.autoStart == e.autoStart && c.wait == e.wait
  }

  lemma LeavesRow(d: Deed, c: Container) returns (e: Container)
    requires DeedOk(d) && Leaves(d, c.id) && c in d.before
    ensures e in d.after && e.id == c.id && e.autoStart == c.autoStart && e.wait == c.wait
  {
    assert HasId(d.after, c.id);
    e :| e in d.after && e.id == c.id;
    if d.Commit? { assert Edited(d.ch, c, e); }
  }

  /** A container's flag and wait change only by a commit that targets it, or by others. */
  lemma {:induction false} UntargetedKept(init: seq<Container>, log: seq<Deed>, server: seq<Container>, c: Container)
    returns (d: Container)
    requires IsSerial(init, log, server) && c in init
    requires forall k | 0 <= k < |log| :: Leaves(log[k], c.id)
    ensures d in server && d.id == c.id && d.autoStart == c.autoStart && d.wait == c.wait
    decreases |log|
  {
    hide Leaves, DeedOk;
    if log == [] {
      d := c;
    } else {
      var last := log[|log| - 1];
      SerialPrefix(init, log, server);
      var mid := UntargetedKept(init, log[..|log| - 1], last.before, c);
      d := LeavesRow(last, mid);
    }
  }

  lemma SerialPrefix(init: seq<Container>, log: seq<Deed>, server: seq<Container>)
    requires IsSerial(init, log, server) && log != []
    ensures IsSerial(init, log[..|log| - 1], log[|log| - 1].before)
  {
    hide DeedOk;
    var less := log[..|log| - 1];
    forall k | 0 <= k < |less| ensures DeedOk(less[k]) {
      assert less[k] == log[k];
    }
    if less != [] {
      assert log[|less| - 1].after == log[|less| - 1 + 1].before;
    }
  }

  /** The order of the two, if both are enabled, is not changed by others. */
  ghost predicate LeavesOrder(d: Deed, id1: string, id2: string) {
    d.Outside? ==>
      forall c1, c2, e1, e2 | c1 in d.before && c2 in d.before && e1 in d.after && e2 in d.after
                              && c1.id == id1 && c2.id == id2 :: StaysInOrder(c1, c2, e1, e2)
  }

  lemma LeavesBoth(d: Deed, c1: Container, c2: Container) returns (e1: Container, e2: Container)
    requires DeedOk(d) && Leaves(d, c1.id) && Leaves(d, c2.id) && LeavesOrder(d, c1.id, c2.id)
    requires c1 in d.before && c2 in d.before && c1.autoStart && c2.autoStart && OrderKey(c1) < OrderKey(c2)
    ensures e1 in d.after && e1.id == c1.id && e1.autoStart && e1.wait == c1.wait
    ensures e2 in d.after && e2.id == c2.id && e2.autoStart && e2.wait == c2.wait
    ensures OrderKey(e1) < OrderKey(e2)
  {
    hide OrderKey, Leaves;
    e1 := LeavesRow(d, c1);
    e2 := LeavesRow(d, c2);
    assert StaysInOrder(c1, c2, e1, e2);
  }

  /** So does the relative order of enabled containers with distinct orders. */
  lemma {:induction false} OrderSurvives(init: seq<Container>, log: seq<Deed>, server: seq<Container>,
                                         c1: Container, c2: Container)
    returns (d1: Container, d2: Container)
    requires IsSerial(init, log, server) && c1 in init && c2 in init
    requires forall k | 0 <= k < |log| ::
               Leaves(log[k], c1.id) && Leaves(log[k], c2.id) && LeavesOrder(log[k], c1.id, c2.id)
    requires c1.autoStart && c2.autoStart && OrderKey(c1) < OrderKey(c2)
    ensures d1 in server && d1.id == c1.id && d1.autoStart && d1.wait == c1.wait
    ensures d2 in server && d2.id == c2.id && d2.autoStart && d2.wait == c2.wait
    ensures OrderKey(d1) < OrderKey(d2)
    decreases |log|
  {
    hide OrderKey, Leaves, LeavesOrder, DeedOk;
    if log == [] {
      d1, d2 := c1, c2;
    } else {
      var last := log[|log| - 1];
      SerialPrefix(init, log, server);
      var m1, m2 := OrderSurvives(init, log[..|log| - 1], last.before, c1, c2);
      d1, d2 := LeavesBoth(last, m1, m2);
    }
  }
}
