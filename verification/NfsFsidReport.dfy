/**
 What the fsid plan guarantees, and the report that feeds it (src/nfs_fsid.rs):
 placements never clash, the plan is determined, and applying it settles it.
 */
module NfsFsidReport {
  import opened Wrappers
  import opened Numerals
  import opened Ordering
  import opened FsidHash
  import opened NfsFsid

  // ---- Placement ------------------------------------------------------------

  /** A moved share's fsid is neither reserved nor any other share's. */
  lemma MovedShareIsFresh(home: string -> Slot, names: seq<string>, current: Current,
                          reserved: set<nat>, out: map<string, nat>, i: nat, j: nat)
    requires IsKeyOrder(names, current) && IsPlan(home, names, current, reserved, out)
    requires i < |names| && j < |names| && !Fixed(home, current, names[i])
    ensures out[names[i]] !in reserved
    ensures InWindow(out[names[i]])
    ensures j != i ==> out[names[i]] != out[names[j]]
  {
    assert PlacedAt(home, names, current, reserved, out, i);
    assert PlacedAt(home, names, current, reserved, out, j);
    if Fixed(home, current, names[j]) {
      assert home(names[j]) in FixedFsids(home, names, current);
    } else if j < i {
      assert out[names[j]] in MovedFsids(home, names, current, out, i);
    } else if i < j {
      assert out[names[i]] in MovedFsids(home, names, current, out, j);
    }
  }

  /** Two shares collide in the plan only when both were fixed at the same hash already. */
  lemma PlanInjectiveIffFixedHashesDiffer(home: string -> Slot, names: seq<string>,
                                          current: Current, reserved: set<nat>, out: map<string, nat>)
    requires IsKeyOrder(names, current) && IsPlan(home, names, current, reserved, out)
    ensures (forall i, j | 0 <= i < j < |names| :: out[names[i]] != out[names[j]])
       <==> (forall i, j | 0 <= i < j < |names| && Fixed(home, current, names[i])
                           && Fixed(home, current, names[j]) :: home(names[i]) != home(names[j]))
  {
    forall i, j | 0 <= i < j < |names|
      ensures out[names[i]] == out[names[j]]
         <==> Fixed(home, current, names[i]) && Fixed(home, current, names[j])
              && home(names[i]) == home(names[j])
    {
      if !Fixed(home, current, names[i]) {
        MovedShareIsFresh(home, names, current, reserved, out, i, j);
      } else if !Fixed(home, current, names[j]) {
        MovedShareIsFresh(home, names, current, reserved, out, j, i);
      } else {
        assert PlacedAt(home, names, current, reserved, out, i);
        assert PlacedAt(home, names, current, reserved, out, j);
      }
    }
  }

  lemma FirstFreeUnique(used: set<nat>, start: Slot, a: nat, b: nat)
    requires IsFirstFree(used, start, a) && IsFirstFree(used, start, b)
    ensures a == b
  {
    assert Dist(start, a) == Dist(start, b);
  }

  lemma {:induction false} PlansAgreeBelow(home: string -> Slot, names: seq<string>, current: Current,
                                           reserved: set<nat>, a: map<string, nat>, b: map<string, nat>, i: nat)
    requires IsPlan(home, names, current, reserved, a) && IsPlan(home, names, current, reserved, b)
    requires i <= |names|
    ensures forall j | 0 <= j < i :: Planned(a, names[j]) == Planned(b, names[j])
  {
    if i == 0 {
    } else {
      PlansAgreeBelow(home, names, current, reserved, a, b, i - 1);
      MovedFrame(home, names, current, a, b, i - 1);
      assert PlacedAt(home, names, current, reserved, a, i - 1);
      assert PlacedAt(home, names, current, reserved, b, i - 1);
      if !Fixed(home, current, names[i - 1]) {
        FirstFreeUnique(UsedBefore(home, names, current, reserved, a, i - 1), home(names[i - 1]),
                        Planned(a, names[i - 1]), Planned(b, names[i - 1]));
      }
    }
  }

  /** The rules leave no choice: there is at most one plan. */
  lemma PlanUnique(home: string -> Slot, names: seq<string>, current: Current,
                   reserved: set<nat>, a: map<string, nat>, b: map<string, nat>)
    requires IsPlan(home, names, current, reserved, a) && IsPlan(home, names, current, reserved, b)
    ensures a == b
  {
    PlansAgreeBelow(home, names, current, reserved, a, b, |names|);
    assert a.Keys == b.Keys;
    forall s | s in a ensures a[s] == b[s] {
      var j :| 0 <= j < |names| && names[j] == s;
      assert Planned(a, names[j]) == Planned(b, names[j]);
    }
  }

  /** Placing a moved share takes one free slot and leaves one share less to move. */
  lemma PlaceRoom(home: string -> Slot, names: seq<string>, current: Current, reserved: set<nat>,
                  out: map<string, nat>, i: nat)
    requires IsKeyOrder(names, current) && IsPlan(home, names, current, reserved, out)
    requires i < |names| && !Fixed(home, current, names[i])
    ensures |WindowPart(UsedBefore(home, names, current, reserved, out, i + 1))|
              + |MovingFrom(home, names, current, i + 1)|
         == |WindowPart(UsedBefore(home, names, current, reserved, out, i))| + |MovingFrom(home, names, current, i)|
  {
    assert PlacedAt(home, names, current, reserved, out, i);
    var slot := Planned(out, names[i]);
    hide WindowPart, MovingFrom;
    TakeSlot(UsedBefore(home, names, current, reserved, out, i), slot);
    PlaceOne(home, names, current, i);
    assert out[names[i] := slot] == out;
    UsedNext(home, names, current, reserved, out, i, slot);
  }

  lemma {:induction false} RoomKept(home: string -> Slot, names: seq<string>, current: Current,
                                    reserved: set<nat>, out: map<string, nat>, i: nat)
    requires IsKeyOrder(names, current) && IsPlan(home, names, current, reserved, out)
    requires i <= |names|
    ensures |WindowPart(UsedBefore(home, names, current, reserved, out, i))|
              + |MovingFrom(home, names, current, i)|
         == |WindowPart(reserved + FixedFsids(home, names, current))|
              + |MovingFrom(home, names, current, 0)|
  {
    hide IsPlan, UsedBefore, WindowPart, MovingFrom, FixedFsids, Fixed;
    if i == 0 {
      UsedAtFirst(home, names, current, reserved, out);
    } else {
      RoomKept(home, names, current, reserved, out, i - 1);
      if Fixed(home, current, names[i - 1]) {
        SkipOne(home, names, current, i - 1);
        SkipUsed(home, names, current, reserved, out, i - 1);
      } else {
        PlaceRoom(home, names, current, reserved, out, i - 1);
      }
    }
  }

  lemma UsedAtFirst(home: string -> Slot, names: seq<string>, current: Current, reserved: set<nat>,
                    out: map<string, nat>)
    ensures UsedBefore(home, names, current, reserved, out, 0) == reserved + FixedFsids(home, names, current)
  {
    hide FixedFsids;
  }

  lemma SkipUsed(home: string -> Slot, names: seq<string>, current: Current, reserved: set<nat>,
                 out: map<string, nat>, i: nat)
    requires i < |names| && Fixed(home, current, names[i])
    ensures UsedBefore(home, names, current, reserved, out, i + 1) == UsedBefore(home, names, current, reserved, out, i)
  {
    SkipMoved(home, names, current, out, i);
    hide FixedFsids, MovedFsids;
  }

  lemma {:induction false} ImageSize(home: string -> Slot, shares: set<string>)
    ensures |set s | s in shares :: home(s)| <= |shares|
  {
    if shares == {} {
    } else {
      var s :| s in shares;
      ImageSize(home, shares - {s});
      assert (set t | t in shares :: home(t)) == (set t | t in shares - {s} :: home(t)) + {home(s)};
    }
  }

  lemma {:induction false} ElementCount(names: seq<string>)
    ensures |set s | s in names| <= |names|
  {
    if names == [] {
    } else {
      ElementCount(names[1..]);
      assert (set s | s in names) == {names[0]} + set s | s in names[1..];
    }
  }

  /** Fewer reserved fsids and shares than slots leave room, and none needs 33 bits. */
  lemma FewFsidsHaveRoom(home: string -> Slot, names: seq<string>, current: Current, reserved: set<nat>)
    requires |reserved| + |names| <= FSID_SPAN
    ensures HasRoom(home, names, current, reserved)
    ensures forall f: nat | InWindow(f) :: f < 0x1_0000_0000
  {
    FixedAndMoving(home, names, current);
    var all := reserved + FixedFsids(home, names, current);
    UnionSize(reserved, FixedFsids(home, names, current));
    hide FixedFsids, MovingFrom;
    SubsetSize(WindowPart(all), all);
  }

  lemma FixedAndMoving(home: string -> Slot, names: seq<string>, current: Current)
    ensures |FixedFsids(home, names, current)| + |MovingFrom(home, names, current, 0)| <= |names|
  {
    var fixed := set s | s in names && Fixed(home, current, s);
    var moving := MovingFrom(home, names, current, 0);
    assert names[0..] == names;
    assert fixed + moving == set s | s in names;
    ElementCount(names);
    assert |fixed + moving| == |fixed| + |moving|;
    ImageSize(home, fixed);
    assert FixedFsids(home, names, current) == set s | s in fixed :: home(s);
  }

  lemma UnionSize(a: set<nat>, b: set<nat>)
    ensures |a + b| <= |a| + |b|
  {
    assert a + b == a + (b - a) && |a + (b - a)| == |a| + |b - a|;
    SubsetSize(b - a, b);
  }

  /** No plan exists without room, so PlanFsids demands no more than it needs. */
  lemma RoomIsNecessary(home: string -> Slot, names: seq<string>, current: Current,
                        reserved: set<nat>, out: map<string, nat>)
    requires IsKeyOrder(names, current) && IsPlan(home, names, current, reserved, out)
    ensures HasRoom(home, names, current, reserved)
  {
    RoomKept(home, names, current, reserved, out, |names|);
    WindowSize(UsedBefore(home, names, current, reserved, out, |names|));
  }

  // ---- The report -----------------------------------------------------------

  /** A parsed line of the export table. */
  datatype Export = Export(path: string, fsid: Option<string>)

  function HomeOf(key: string): string -> Slot {
    s => HashedFsid(key, s)
  }

  function ShareOf(path: string): Option<string> {
    if USER_SHARE_PREFIX <= path then
      var s := path[|USER_SHARE_PREFIX|..];
      if s != "" && '/' !in s then Some(s) else None
    else None
  }

  /** Lines with an fsid, a later line of the same share overriding an earlier one. */
  function FromFsids(parsed: seq<Export>): Current {
    if parsed == [] then map[]
    else
      var e, rest := parsed[|parsed| - 1], FromFsids(parsed[..|parsed| - 1]);
      if ShareOf(e.path).Some? && e.fsid.Some?
      then rest[ShareOf(e.path).value := ParseU32(e.fsid.value)] else rest
  }

  function FromNoFsids(parsed: seq<Export>): Current {
    map e | e in parsed && ShareOf(e.path).Some? && e.fsid.None? :: ShareOf(e.path).value := None
  }

  /** Each share's fsid now; a line without one, collected last, wins. */
  function CurrentOf(parsed: seq<Export>): Current {
    FromFsids(parsed) + FromNoFsids(parsed)
  }

  function KeysOf(parsed: seq<Export>): seq<string> {
    if parsed == [] then []
    else
      var e, rest := parsed[|parsed| - 1], KeysOf(parsed[..|parsed| - 1]);
      if ShareOf(e.path).Some? then InsertKey(rest, ShareOf(e.path).value) else rest
  }

  predicate ReservesItsFsid(home: string -> Slot, current: Current, e: Export) {
    ShareOf(e.path).None? || Fixed(home, current, ShareOf(e.path).value)
  }

  function FsidNumber(e: Export): Option<nat> {
    if e.fsid.None? then None else ParseU32(e.fsid.value)
  }

  function ReservedOf(home: string -> Slot, parsed: seq<Export>, current: Current): set<nat> {
    set e | e in parsed && ReservesItsFsid(home, current, e) && FsidNumber(e).Some?
      :: FsidNumber(e).value
  }

  /** A line is a share's if its path is the share's folder itself, right below `/mnt/user`. */
  lemma ShareSpelled(path: string, s: string)
    ensures ShareOf(path) == Some(s) <==> path == "/mnt/user/" + s && s != "" && forall c | c in s :: c != '/'
  {
    assert path == "/mnt/user/" + s ==> path[|USER_SHARE_PREFIX|..] == s;
    assert USER_SHARE_PREFIX <= path ==> path == USER_SHARE_PREFIX + path[|USER_SHARE_PREFIX|..];
  }

  /** Taken are the fsids of lines that are no share's, and of shares that have their hash already. */
  lemma ReservedSpelled(home: string -> Slot, parsed: seq<Export>, current: Current, f: nat)
    ensures f in ReservedOf(home, parsed, current) <==>
              exists e | e in parsed ::
                e.fsid.Some? && ParseU32(e.fsid.value) == Some(f) && IsTaken(home, current, e.path)
  {
    hide ParseU32, IsTaken;
    forall e | e in parsed ensures ReservesItsFsid(home, current, e) <==> IsTaken(home, current, e.path) {
      TakenSpelled(home, current, e);
    }
    hide ReservesItsFsid;
  }

  predicate IsTaken(home: string -> Slot, current: Current, path: string) {
    if "/mnt/user/" <= path && path != "/mnt/user/" && '/' !in path[10..]
    then path[10..] in current && current[path[10..]] == Some(home(path[10..]))
    else true
  }

  lemma TakenSpelled(home: string -> Slot, current: Current, e: Export)
    ensures ReservesItsFsid(home, current, e) <==> IsTaken(home, current, e.path)
  {
    assert "/mnt/user/" <= e.path ==> (e.path[10..] == "" <==> e.path == "/mnt/user/");
  }

  /** `out` is the plan the report shows for these lines. */
  ghost predicate IsReportPlan(key: string, parsed: seq<Export>, out: map<string, nat>) {
    IsPlan(HomeOf(key), KeysOf(parsed), CurrentOf(parsed),
           ReservedOf(HomeOf(key), parsed, CurrentOf(parsed)), out)
  }

  /** The lines after every share is given its planned fsid. */
  function WriteBack(parsed: seq<Export>, out: map<string, nat>): (r: seq<Export>)
    ensures |r| == |parsed|
    ensures forall i | 0 <= i < |r| :: r[i] == Rewritten(parsed[i], out)
  {
    seq(|parsed|, i requires 0 <= i < |parsed| => Rewritten(parsed[i], out))
  }

  function Rewritten(e: Export, out: map<string, nat>): Export {
    match ShareOf(e.path)
    case Some(s) => Export(e.path, Some(Decimal(Planned(out, s))))
    case None => e
  }

  ghost predicate OneLinePerShare(parsed: seq<Export>) {
    forall i, j | 0 <= i < j < |parsed| && ShareOf(parsed[i].path).Some? ::
      ShareOf(parsed[i].path) != ShareOf(parsed[j].path)
  }

  /** No line of a share at its hash names another fsid. */
  ghost predicate LinesAgree(key: string, parsed: seq<Export>) {
    forall e | e in parsed && ShareOf(e.path).Some? ::
      Fixed(HomeOf(key), CurrentOf(parsed), ShareOf(e.path).value) && FsidNumber(e).Some? ==>
        FsidNumber(e).value == HomeOf(key)(ShareOf(e.path).value)
  }

  // ---- Facts about the tables ------------------------------------------------

  lemma {:induction false} FromFsidsKeys(parsed: seq<Export>, s: string)
    ensures s in FromFsids(parsed) <==>
              exists e :: e in parsed && ShareOf(e.path) == Some(s) && e.fsid.Some?
    ensures s in FromFsids(parsed) ==>
              exists e :: e in parsed && ShareOf(e.path) == Some(s) && e.fsid.Some?
                          && FromFsids(parsed)[s] == FsidNumber(e)
  {
    if parsed == [] {
    } else {
      var init, last := parsed[..|parsed| - 1], parsed[|parsed| - 1];
      FromFsidsKeys(init, s);
      assert parsed == init + [last];
      if ShareOf(last.path) == Some(s) && last.fsid.Some? {
        assert last in parsed;
      }
    }
  }

  lemma {:induction false} KeysOfIsKeyOrder(parsed: seq<Export>)
    ensures StrictlySorted(KeysOf(parsed))
    ensures forall s :: s in KeysOf(parsed) <==> exists e :: e in parsed && ShareOf(e.path) == Some(s)
  {
    if parsed == [] {
    } else {
      var init, last := parsed[..|parsed| - 1], parsed[|parsed| - 1];
      KeysOfIsKeyOrder(init);
      assert parsed == init + [last];
      if ShareOf(last.path).Some? {
        InsertKeySorted(KeysOf(init), ShareOf(last.path).value);
        assert last in parsed;
      }
    }
  }

  lemma ReportIsWellFormed(parsed: seq<Export>)
    ensures IsKeyOrder(KeysOf(parsed), CurrentOf(parsed))
  {
    KeysOfIsKeyOrder(parsed);
    forall s ensures s in KeysOf(parsed) <==> s in CurrentOf(parsed) {
      FromFsidsKeys(parsed, s);
    }
  }

  /** One line per share makes every share's lines agree. */
  lemma OneLineAgrees(key: string, parsed: seq<Export>)
    requires OneLinePerShare(parsed)
    ensures LinesAgree(key, parsed)
  {
    forall e | e in parsed && ShareOf(e.path).Some?
      ensures Fixed(HomeOf(key), CurrentOf(parsed), ShareOf(e.path).value) && FsidNumber(e).Some? ==>
                FsidNumber(e).value == HomeOf(key)(ShareOf(e.path).value)
    {
      var s := ShareOf(e.path).value;
      FromFsidsKeys(parsed, s);
      assert forall d | d in parsed && ShareOf(d.path) == Some(s) :: d == e;
    }
  }

  // ---- Applying the plan settles it ------------------------------------------

  lemma WriteBackKeys(parsed: seq<Export>, out: map<string, nat>)
    ensures KeysOf(WriteBack(parsed, out)) == KeysOf(parsed)
  {
    if parsed == [] {
    } else {
      var init := parsed[..|parsed| - 1];
      WriteBackKeys(init, out);
      assert WriteBack(parsed, out)[..|parsed| - 1] == WriteBack(init, out);
    }
  }

  lemma PlannedRange(home: string -> Slot, names: seq<string>, current: Current, reserved: set<nat>,
                     out: map<string, nat>, s: string)
    requires IsPlan(home, names, current, reserved, out) && s in names
    ensures InWindow(Planned(out, s))
  {
    var i :| 0 <= i < |names| && names[i] == s;
    assert PlacedAt(home, names, current, reserved, out, i);
  }

  /** After the write every line of a share carries its planned fsid. */
  lemma WrittenLine(key: string, parsed: seq<Export>, out: map<string, nat>, k: nat)
    requires IsReportPlan(key, parsed, out)
    requires k < |parsed| && ShareOf(parsed[k].path).Some?
    ensures ShareOf(parsed[k].path).value in KeysOf(parsed)
    ensures WriteBack(parsed, out)[k].fsid.Some?
    ensures FsidNumber(WriteBack(parsed, out)[k]) == Some(out[ShareOf(parsed[k].path).value])
  {
    var s := ShareOf(parsed[k].path).value;
    KeysOfIsKeyOrder(parsed);
    PlannedRange(HomeOf(key), KeysOf(parsed), CurrentOf(parsed),
                 ReservedOf(HomeOf(key), parsed, CurrentOf(parsed)), out, s);
    ParseDecimal(out[s]);
  }

  lemma PlannedKeys(key: string, parsed: seq<Export>, out: map<string, nat>)
    requires IsReportPlan(key, parsed, out)
    ensures forall s :: s in out <==> s in KeysOf(parsed)
  {
    hide KeysOf;
  }

  lemma WrittenShareLine(key: string, parsed: seq<Export>, out: map<string, nat>, e: Export)
    requires IsReportPlan(key, parsed, out) && e in WriteBack(parsed, out) && ShareOf(e.path).Some?
    ensures ShareOf(e.path).value in KeysOf(parsed)
    ensures e.fsid.Some? && FsidNumber(e) == Some(out[ShareOf(e.path).value])
  {
    hide IsReportPlan, FsidNumber, KeysOf;
    var k :| 0 <= k < |parsed| && WriteBack(parsed, out)[k] == e;
    WrittenLine(key, parsed, out, k);
  }

  lemma WriteBackCurrent(key: string, parsed: seq<Export>, out: map<string, nat>, s: string)
    requires IsReportPlan(key, parsed, out) && s in KeysOf(parsed)
    ensures s in CurrentOf(WriteBack(parsed, out))
    ensures CurrentOf(WriteBack(parsed, out))[s] == Some(out[s])
  {
    PlannedKeys(key, parsed, out);
    hide IsReportPlan, FsidNumber, WriteBack, KeysOf;
    var after := WriteBack(parsed, out);
    KeysOfIsKeyOrder(after);
    WriteBackKeys(parsed, out);
    FromFsidsKeys(after, s);
    forall e | e in after && ShareOf(e.path) == Some(s)
      ensures e.fsid.Some? && FsidNumber(e) == Some(out[s])
    {
      WrittenShareLine(key, parsed, out, e);
    }
  }

  /** A share is fixed after the write exactly when its plan is its hash. */
  lemma FixedAfter(key: string, parsed: seq<Export>, out: map<string, nat>, s: string)
    requires IsReportPlan(key, parsed, out) && s in KeysOf(parsed)
    ensures Fixed(HomeOf(key), CurrentOf(WriteBack(parsed, out)), s) <==> out[s] == HomeOf(key)(s)
    ensures Fixed(HomeOf(key), CurrentOf(parsed), s) ==> out[s] == HomeOf(key)(s)
  {
    WriteBackCurrent(key, parsed, out, s);
    var names := KeysOf(parsed);
    var i :| 0 <= i < |names| && names[i] == s;
    assert PlacedAt(HomeOf(key), names, CurrentOf(parsed),
                    ReservedOf(HomeOf(key), parsed, CurrentOf(parsed)), out, i);
  }

  lemma FixedFsidsGrow(key: string, parsed: seq<Export>, out: map<string, nat>, s: string)
    requires IsReportPlan(key, parsed, out) && s in KeysOf(parsed) && out[s] == HomeOf(key)(s)
    ensures out[s] in FixedFsids(HomeOf(key), KeysOf(parsed), CurrentOf(WriteBack(parsed, out)))
  {
    FixedAfter(key, parsed, out, s);
  }

  lemma ReservedStaysUsed(key: string, parsed: seq<Export>, out: map<string, nat>, f: nat)
    requires IsReportPlan(key, parsed, out) && LinesAgree(key, parsed)
    requires f in ReservedOf(HomeOf(key), parsed, CurrentOf(parsed))
    ensures var after := WriteBack(parsed, out);
            f in ReservedOf(HomeOf(key), after, CurrentOf(after))
              + FixedFsids(HomeOf(key), KeysOf(parsed), CurrentOf(after))
  {
    var e :| e in parsed && ReservesItsFsid(HomeOf(key), CurrentOf(parsed), e)
             && FsidNumber(e) == Some(f);
    if ShareOf(e.path).None? {
      var i :| 0 <= i < |parsed| && parsed[i] == e;
      assert WriteBack(parsed, out)[i] == e;
    } else {
      KeysOfIsKeyOrder(parsed);
      FixedAfter(key, parsed, out, ShareOf(e.path).value);
      FixedFsidsGrow(key, parsed, out, ShareOf(e.path).value);
    }
  }

  /** Whatever was taken when a share was placed is taken again in the second plan. */
  lemma UsedGrows(key: string, parsed: seq<Export>, out: map<string, nat>, i: nat, f: nat)
    requires IsReportPlan(key, parsed, out) && LinesAgree(key, parsed)
    requires i <= |KeysOf(parsed)|
    requires f in UsedBefore(HomeOf(key), KeysOf(parsed), CurrentOf(parsed),
                             ReservedOf(HomeOf(key), parsed, CurrentOf(parsed)), out, i)
    ensures var after := WriteBack(parsed, out);
            f in UsedBefore(HomeOf(key), KeysOf(parsed), CurrentOf(after),
                            ReservedOf(HomeOf(key), after, CurrentOf(after)), out, i)
  {
    var home, names := HomeOf(key), KeysOf(parsed);
    if f in ReservedOf(home, parsed, CurrentOf(parsed)) {
      ReservedStaysUsed(key, parsed, out, f);
    } else if f in FixedFsids(home, names, CurrentOf(parsed)) {
      var s :| s in names && Fixed(home, CurrentOf(parsed), s) && home(s) == f;
      FixedAfter(key, parsed, out, s);
      FixedFsidsGrow(key, parsed, out, s);
    } else {
      var j :| 0 <= j < i && !Fixed(home, CurrentOf(parsed), names[j]) && Planned(out, names[j]) == f;
      FixedAfter(key, parsed, out, names[j]);
      if out[names[j]] == home(names[j]) {
        FixedFsidsGrow(key, parsed, out, names[j]);
      }
    }
  }

  /** The share at `i` is planned away from its hash. */
  ghost predicate Displaced(key: string, parsed: seq<Export>, out: map<string, nat>, i: nat) {
    i < |KeysOf(parsed)| && Planned(out, KeysOf(parsed)[i]) != HomeOf(key)(KeysOf(parsed)[i])
  }

  lemma DisplacedIsFresh(key: string, parsed: seq<Export>, out: map<string, nat>, i: nat)
    requires IsReportPlan(key, parsed, out) && Displaced(key, parsed, out, i)
    ensures out[KeysOf(parsed)[i]] !in ReservedOf(HomeOf(key), parsed, CurrentOf(parsed))
    ensures forall s | s in KeysOf(parsed) && s != KeysOf(parsed)[i] :: out[s] != out[KeysOf(parsed)[i]]
  {
    var home, names, before := HomeOf(key), KeysOf(parsed), CurrentOf(parsed);
    ReportIsWellFormed(parsed);
    FixedAfter(key, parsed, out, names[i]);
    MovedShareIsFresh(home, names, before, ReservedOf(home, parsed, before), out, i, i);
    forall s | s in names && s != names[i] ensures out[s] != out[names[i]] {
      var j :| 0 <= j < |names| && names[j] == s;
      MovedShareIsFresh(home, names, before, ReservedOf(home, parsed, before), out, i, j);
    }
  }

  lemma SlotNotOnALine(key: string, parsed: seq<Export>, out: map<string, nat>, i: nat, k: nat)
    requires IsReportPlan(key, parsed, out) && Displaced(key, parsed, out, i)
    requires k < |parsed|
    requires ReservesItsFsid(HomeOf(key), CurrentOf(WriteBack(parsed, out)), WriteBack(parsed, out)[k])
    ensures FsidNumber(WriteBack(parsed, out)[k]) != Some(out[KeysOf(parsed)[i]])
  {
    DisplacedIsFresh(key, parsed, out, i);
    if ShareOf(parsed[k].path).Some? {
      var s := ShareOf(parsed[k].path).value;
      WrittenLine(key, parsed, out, k);
      FixedAfter(key, parsed, out, s);
      assert s != KeysOf(parsed)[i];
    } else {
      assert WriteBack(parsed, out)[k] == parsed[k] && parsed[k] in parsed;
    }
  }

  lemma UnusedBefore(home: string -> Slot, names: seq<string>, current: Current, reserved: set<nat>,
                     out: map<string, nat>, i: nat, slot: nat)
    requires i <= |names| && slot !in reserved
    requires forall s | s in names && Fixed(home, current, s) :: home(s) != slot
    requires forall j | 0 <= j < i && !Fixed(home, current, names[j]) :: Planned(out, names[j]) != slot
    ensures slot !in UsedBefore(home, names, current, reserved, out, i)
  {
    hide Fixed, Planned;
  }

  /** Nothing that a displaced share's slot could clash with is added. */
  lemma SlotStaysFree(key: string, parsed: seq<Export>, out: map<string, nat>, i: nat)
    requires IsReportPlan(key, parsed, out) && Displaced(key, parsed, out, i)
    ensures var after := WriteBack(parsed, out);
            out[KeysOf(parsed)[i]] !in UsedBefore(HomeOf(key), KeysOf(parsed), CurrentOf(after),
                            ReservedOf(HomeOf(key), after, CurrentOf(after)), out, i)
  {
    hide *;
    var home, names := HomeOf(key), KeysOf(parsed);
    var after := WriteBack(parsed, out);
    DisplacedIsPlanned(key, parsed, out, i);
    var slot := out[names[i]];
    SlotNotReserved(key, parsed, out, i);
    forall s | s in names && Fixed(home, CurrentOf(after), s) ensures home(s) != slot {
      FixedAfter(key, parsed, out, s);
      DisplacedIsFresh(key, parsed, out, i);
    }
    forall j | 0 <= j < i ensures Planned(out, names[j]) != slot {
      OthersElsewhere(key, parsed, out, i, j);
    }
    UnusedBefore(home, names, CurrentOf(after), ReservedOf(home, after, CurrentOf(after)), out, i, slot);
  }

  lemma OthersElsewhere(key: string, parsed: seq<Export>, out: map<string, nat>, i: nat, j: nat)
    requires IsReportPlan(key, parsed, out) && Displaced(key, parsed, out, i) && j < i
    ensures Planned(out, KeysOf(parsed)[j]) != out[KeysOf(parsed)[i]]
  {
    KeysOfIsKeyOrder(parsed);
    DisplacedIsFresh(key, parsed, out, i);
  }

  lemma SlotNotReserved(key: string, parsed: seq<Export>, out: map<string, nat>, i: nat)
    requires IsReportPlan(key, parsed, out) && Displaced(key, parsed, out, i)
    ensures var after := WriteBack(parsed, out);
            KeysOf(parsed)[i] in out && out[KeysOf(parsed)[i]] !in ReservedOf(HomeOf(key), after, CurrentOf(after))
  {
    hide ReservesItsFsid, Displaced, IsReportPlan, CurrentOf, FsidNumber;
    var (home, after) := (HomeOf(key), WriteBack(parsed, out));
    DisplacedIsPlanned(key, parsed, out, i);
    var slot := out[KeysOf(parsed)[i]];
    if slot in ReservedOf(home, after, CurrentOf(after)) {
      var e :| e in after && ReservesItsFsid(home, CurrentOf(after), e) && FsidNumber(e) == Some(slot);
      var k :| 0 <= k < |parsed| && after[k] == e;
      SlotNotOnALine(key, parsed, out, i, k);
    }
  }

  lemma DisplacedIsPlanned(key: string, parsed: seq<Export>, out: map<string, nat>, i: nat)
    requires IsReportPlan(key, parsed, out) && Displaced(key, parsed, out, i)
    ensures i < |KeysOf(parsed)| && KeysOf(parsed)[i] in out
    ensures out[KeysOf(parsed)[i]] != HomeOf(key)(KeysOf(parsed)[i])
  {}

  /**
   Writing every planned fsid back and planning again gives the same plan and no
   other, although more shares now count as fixed and `reserved` was rebuilt.
   */
  lemma ReplanningChangesNothing(key: string, parsed: seq<Export>, out: map<string, nat>,
                                 again: map<string, nat>)
    requires LinesAgree(key, parsed) && IsReportPlan(key, parsed, out)
    ensures IsReportPlan(key, WriteBack(parsed, out), again) <==> again == out
  {
    var home, names := HomeOf(key), KeysOf(parsed);
    var after := WriteBack(parsed, out);
    var res, res' := ReservedOf(home, parsed, CurrentOf(parsed)), ReservedOf(home, after, CurrentOf(after));
    WriteBackKeys(parsed, out);
    forall i | 0 <= i < |names| ensures PlacedAt(home, names, CurrentOf(after), res', out, i) {
      FixedAfter(key, parsed, out, names[i]);
      assert PlacedAt(home, names, CurrentOf(parsed), res, out, i);
      if !Fixed(home, CurrentOf(after), names[i]) {
        SlotStaysFree(key, parsed, out, i);
        forall f: Slot | Dist(home(names[i]), f) < Dist(home(names[i]), out[names[i]])
          ensures f in UsedBefore(home, names, CurrentOf(after), res', out, i)
        {
          UsedGrows(key, parsed, out, i, f);
        }
      }
    }
    assert IsReportPlan(key, after, out);
    if IsReportPlan(key, after, again) {
      PlanUnique(home, names, CurrentOf(after), res', again, out);
    }
  }
}
