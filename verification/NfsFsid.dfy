/**
 The per-server fsid plan of `unraid.nfs.fsids` (src/nfs_fsid.rs): shares at
 their hash keep it, the others probe forward, with wraparound, for a free fsid.
 */
module NfsFsid {
  import opened Wrappers
  import opened Ordering
  import opened FsidHash

  const USER_SHARE_PREFIX := "/mnt/user/"

  /** Probing steps from `a` forward to `b`, past the end of the window if need be. */
  function Dist(a: Slot, b: Slot): (d: nat)
    ensures d < FSID_SPAN
  {
    if a <= b then b - a else b + FSID_SPAN - a
  }

  // ---- What a plan is -------------------------------------------------------

  type Current = map<string, Option<nat>>

  predicate Fixed(home: string -> Slot, current: Current, share: string) {
    share in current && current[share] == Some(home(share))
  }

  /** `current` in the key order its `BTreeMap` iterates in. */
  ghost predicate IsKeyOrder(names: seq<string>, current: Current) {
    StrictlySorted(names) && forall s :: s in names <==> s in current
  }

  function Planned(out: map<string, nat>, share: string): nat {
    if share in out then out[share] else 0
  }

  ghost function FixedFsids(home: string -> Slot, names: seq<string>, current: Current): set<nat> {
    set s | s in names && Fixed(home, current, s) :: home(s)
  }

  ghost function MovedFsids(home: string -> Slot, names: seq<string>, current: Current,
                            out: map<string, nat>, i: nat): set<nat>
    requires i <= |names|
  {
    set j | 0 <= j < i && !Fixed(home, current, names[j]) :: Planned(out, names[j])
  }

  /** Every fsid taken when the share at position `i` is placed. */
  ghost function UsedBefore(home: string -> Slot, names: seq<string>, current: Current, reserved: set<nat>,
                            out: map<string, nat>, i: nat): set<nat>
    requires i <= |names|
  {
    reserved + FixedFsids(home, names, current) + MovedFsids(home, names, current, out, i)
  }

  /** `slot` is the first fsid not in `used`, probing cyclically from `start`. */
  ghost predicate IsFirstFree(used: set<nat>, start: Slot, slot: nat) {
    && InWindow(slot)
    && slot !in used
    && forall f: Slot | Dist(start, f) < Dist(start, slot) :: f in used
  }

  ghost predicate PlacedAt(home: string -> Slot, names: seq<string>, current: Current, reserved: set<nat>,
                           out: map<string, nat>, i: nat)
    requires i < |names|
  {
    var share := names[i];
    if Fixed(home, current, share) then Planned(out, share) == home(share)
    else IsFirstFree(UsedBefore(home, names, current, reserved, out, i),
                     home(share), Planned(out, share))
  }

  /** Fixed shares keep their hash; each other share, in name order, has the first free slot. */
  ghost predicate IsPlan(home: string -> Slot, names: seq<string>, current: Current, reserved: set<nat>,
                         out: map<string, nat>)
  {
    && (forall s :: s in out <==> s in names)
    && forall i | 0 <= i < |names| :: PlacedAt(home, names, current, reserved, out, i)
  }

  // ---- Room: exactly when the probing ends ----------------------------------

  ghost function WindowPart(used: set<nat>): set<nat> {
    set f | f in used && InWindow(f)
  }

  ghost function MovingFrom(home: string -> Slot, names: seq<string>, current: Current, i: nat): set<string>
    requires i <= |names|
  {
    set s | s in names[i..] && !Fixed(home, current, s)
  }

  /** As many fsids are free as there are shares to move. */
  ghost predicate HasRoom(home: string -> Slot, names: seq<string>, current: Current, reserved: set<nat>) {
    |WindowPart(reserved + FixedFsids(home, names, current))|
      + |MovingFrom(home, names, current, 0)| <= FSID_SPAN
  }

  ghost function Range(lo: nat, n: nat): (r: set<nat>)
    ensures forall f: nat :: f in r <==> lo <= f < lo + n
    ensures |r| == n
  {
    if n == 0 then {} else Range(lo, n - 1) + {lo + n - 1}
  }

  lemma SubsetSize<T>(a: set<T>, b: set<T>)
    requires a <= b
    ensures |a| <= |b|
  {
    assert b == a + (b - a);
  }

  lemma WindowSize(used: set<nat>)
    ensures |WindowPart(used)| <= FSID_SPAN
  {
    SubsetSize(WindowPart(used), Range(FSID_BASE, FSID_SPAN));
  }

  /** A table with a slot to spare has a free slot. */
  lemma FreeSlotExists(used: set<nat>) returns (free: nat)
    requires |WindowPart(used)| < FSID_SPAN
    ensures InWindow(free) && free !in used
  {
    var all := Range(FSID_BASE, FSID_SPAN);
    if all <= WindowPart(used) {
      SubsetSize(all, WindowPart(used));
    }
    free :| free in all && free !in WindowPart(used);
  }

  lemma TakeSlot(used: set<nat>, slot: nat)
    requires InWindow(slot) && slot !in used
    ensures |WindowPart(used + {slot})| == |WindowPart(used)| + 1
  {
    assert WindowPart(used + {slot}) == WindowPart(used) + {slot};
  }

  lemma PlaceOne(home: string -> Slot, names: seq<string>, current: Current, i: nat)
    requires StrictlySorted(names) && i < |names| && !Fixed(home, current, names[i])
    ensures |MovingFrom(home, names, current, i + 1)| == |MovingFrom(home, names, current, i)| - 1
  {
    assert names[i..] == [names[i]] + names[i + 1..];
    assert names[i] !in names[i + 1..];
    assert MovingFrom(home, names, current, i) == MovingFrom(home, names, current, i + 1) + {names[i]};
  }

  lemma SkipOne(home: string -> Slot, names: seq<string>, current: Current, i: nat)
    requires i < |names| && Fixed(home, current, names[i])
    ensures MovingFrom(home, names, current, i + 1) == MovingFrom(home, names, current, i)
  {
    assert names[i..] == [names[i]] + names[i + 1..];
  }

  /** The probing loop: from `start` to the first free slot, wrapping at the window's end. */
  method Probe(used: set<nat>, start: Slot) returns (slot: nat)
    requires |WindowPart(used)| < FSID_SPAN
    ensures IsFirstFree(used, start, slot)
  {
    ghost var free := FreeSlotExists(used);
    var off: int := start - FSID_BASE;
    while FSID_BASE + off in used
      invariant 0 <= off < FSID_SPAN
      invariant forall f: Slot | Dist(start, f) < Dist(start, FSID_BASE + off) :: f in used
      invariant Dist(start, FSID_BASE + off) + Dist(FSID_BASE + off, free) == Dist(start, free)
      decreases Dist(FSID_BASE + off, free)
    {
      off := (off + 1) % FSID_SPAN;
    }
    slot := FSID_BASE + off;
  }

  /** The shares at positions below `i`, and every fixed one, are where the plan puts them. */
  ghost predicate PlacedUpTo(home: string -> Slot, names: seq<string>, current: Current, reserved: set<nat>,
                             out: map<string, nat>, i: nat)
    requires i <= |names|
  {
    && (forall s | s in out :: s in names)
    && (forall j | 0 <= j < |names| :: names[j] in out <==> j < i || Fixed(home, current, names[j]))
    && forall j | 0 <= j < |names| && (j < i || Fixed(home, current, names[j])) ::
         PlacedAt(home, names, current, reserved, out, j)
  }

  lemma MovedFrame(home: string -> Slot, names: seq<string>, current: Current,
                   before: map<string, nat>, out: map<string, nat>, i: nat)
    requires i <= |names|
    requires forall j | 0 <= j < i :: Planned(out, names[j]) == Planned(before, names[j])
    ensures MovedFsids(home, names, current, out, i) == MovedFsids(home, names, current, before, i)
  {}

  lemma UsedNext(home: string -> Slot, names: seq<string>, current: Current, reserved: set<nat>,
                 before: map<string, nat>, i: nat, slot: nat)
    requires StrictlySorted(names) && i < |names| && !Fixed(home, current, names[i])
    ensures UsedBefore(home, names, current, reserved, before[names[i] := slot], i + 1)
         == UsedBefore(home, names, current, reserved, before, i) + {slot}
  {
    var out := before[names[i] := slot];
    MovedFrame(home, names, current, before, out, i);
    assert MovedFsids(home, names, current, out, i + 1)
        == MovedFsids(home, names, current, out, i) + {slot};
  }

  /** Placing the share at `i` moves no share placed before it, and no fixed one. */
  lemma PlacedKept(home: string -> Slot, names: seq<string>, current: Current, reserved: set<nat>,
                   before: map<string, nat>, i: nat, slot: nat, j: nat)
    requires StrictlySorted(names) && i < |names| && j < |names| && i != j
    requires j < i || Fixed(home, current, names[j])
    requires PlacedAt(home, names, current, reserved, before, j)
    ensures PlacedAt(home, names, current, reserved, before[names[i] := slot], j)
  {
    assert names[j] != names[i];
    if j < i {
      MovedFrame(home, names, current, before, before[names[i] := slot], j);
    }
  }

  lemma PlaceNext(home: string -> Slot, names: seq<string>, current: Current, reserved: set<nat>,
                  before: map<string, nat>, i: nat, slot: nat)
    requires StrictlySorted(names) && i < |names| && !Fixed(home, current, names[i])
    requires PlacedUpTo(home, names, current, reserved, before, i)
    requires IsFirstFree(UsedBefore(home, names, current, reserved, before, i), home(names[i]), slot)
    ensures PlacedUpTo(home, names, current, reserved, before[names[i] := slot], i + 1)
  {
    var out := before[names[i] := slot];
    MovedFrame(home, names, current, before, out, i);
    assert PlacedAt(home, names, current, reserved, out, i);
    forall j | 0 <= j < |names| && j != i && (j < i || Fixed(home, current, names[j]))
      ensures PlacedAt(home, names, current, reserved, out, j)
    {
      PlacedKept(home, names, current, reserved, before, i, slot, j);
    }
  }

  /** The first loop: shares already at their hash keep it. */
  method PlaceFixed(home: string -> Slot, names: seq<string>, current: Current, reserved: set<nat>)
    returns (used: set<nat>, out: map<string, nat>)
    ensures used == reserved + FixedFsids(home, names, current)
    ensures PlacedUpTo(home, names, current, reserved, out, 0)
  {
    used := reserved;
    out := map[];
    for i := 0 to |names|
      invariant forall s :: s in out <==> s in names[..i] && Fixed(home, current, s)
      invariant forall s :: s in out ==> out[s] == home(s)
      invariant used == reserved + FixedFsids(home, names[..i], current)
    {
      assert names[..i + 1] == names[..i] + [names[i]];
      if Fixed(home, current, names[i]) {
        var f := current[names[i]].value;
        used := used + {f};
        out := out[names[i] := f];
      }
    }
    assert names[..|names|] == names;
  }

  lemma SkipMoved(home: string -> Slot, names: seq<string>, current: Current,
                  out: map<string, nat>, i: nat)
    requires i < |names| && Fixed(home, current, names[i])
    ensures MovedFsids(home, names, current, out, i + 1) == MovedFsids(home, names, current, out, i)
  {}

  lemma SkipNext(home: string -> Slot, names: seq<string>, current: Current, reserved: set<nat>,
                 out: map<string, nat>, i: nat)
    requires i < |names| && Fixed(home, current, names[i])
    requires PlacedUpTo(home, names, current, reserved, out, i)
    ensures PlacedUpTo(home, names, current, reserved, out, i + 1)
  {
    forall j | 0 <= j < |names| && (j < i + 1 || Fixed(home, current, names[j]))
      ensures PlacedAt(home, names, current, reserved, out, j)
    {
      assert j < i || Fixed(home, current, names[j]);
    }
  }

  /**
   The plan as the source computes it. Without room the inner loop would never
   end, so room is what it demands of its callers; see RoomIsNecessary.
   */
  method PlanFsids(home: string -> Slot, names: seq<string>, current: Current, reserved: set<nat>)
    returns (out: map<string, nat>)
    requires IsKeyOrder(names, current)
    requires HasRoom(home, names, current, reserved)
    ensures IsPlan(home, names, current, reserved, out)
  {
    var used;
    used, out := PlaceFixed(home, names, current, reserved);
    assert MovedFsids(home, names, current, out, 0) == {};
    for i := 0 to |names|
      invariant PlacedUpTo(home, names, current, reserved, out, i)
      invariant used == UsedBefore(home, names, current, reserved, out, i)
      invariant |WindowPart(used)| + |MovingFrom(home, names, current, i)| <= FSID_SPAN
    {
      if !Fixed(home, current, names[i]) {
        assert names[i] in MovingFrom(home, names, current, i);
        var slot := Probe(used, home(names[i]));
        TakeSlot(used, slot);
        PlaceOne(home, names, current, i);
        PlaceNext(home, names, current, reserved, out, i, slot);
        UsedNext(home, names, current, reserved, out, i, slot);
        used := used + {slot};
        out := out[names[i] := slot];
      } else {
        SkipOne(home, names, current, i);
        SkipMoved(home, names, current, out, i);
        SkipNext(home, names, current, reserved, out, i);
      }
    }
  }
}
