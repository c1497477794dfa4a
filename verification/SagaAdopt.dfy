/** The saga's guarantees for whatever adopt and set_icon plan. */
module SagaAdopt {
  import opened Docker
  import opened Conversions
  import opened Plans
  import opened PlanLaws
  import opened Saga
  import opened SagaUndo
  import opened SagaWrites

  /** The run is of the plan: the conversions it knows are the plan's. */
  ghost predicate RunsPlan(cx: Context, p: Plan) {
    && p.leftovers == ConvertedNames(p.conversions) && DistinctSuffixes(p.migrations)
    && (forall v | v in MigratedNames(p.migrations) :: v !in ConvertedNames(p.conversions))
    && cx.converted == (set v | v in p.leftovers)
  }

  // ---- Which volumes a plan copies --------------------------------------------------------------

  lemma {:induction false} ConvertedIsCopied(cs: seq<Conversion>, v: string)
    requires v in ConvertedNames(cs)
    ensures exists s :: s in ConversionSteps(cs) && IsCopyOf(s, v)
  {
    var rest := ConversionSteps(cs[1..]);
    assert ConvertedNames(cs) == [cs[0].anon] + ConvertedNames(cs[1..]);
    if v == cs[0].anon {
      assert CopyIntoVolume(cs[0].anon, cs[0].named) in ConversionSteps(cs);
      assert IsCopyOf(CopyIntoVolume(cs[0].anon, cs[0].named), v);
    } else {
      ConvertedIsCopied(cs[1..], v);
      assert forall s | s in rest :: s in ConversionSteps(cs);
    }
  }

  lemma MigratedIsCopied(ms: seq<Migration>, v: string)
    requires v in MigratedNames(ms)
    ensures exists s :: s in CopySteps(ms) && IsCopyOf(s, v)
  {
    var i :| 0 <= i < |ms| && MigratedNames(ms)[i] == v;
    assert CopySteps(ms)[i] in CopySteps(ms) && IsCopyOf(CopySteps(ms)[i], v);
  }

  lemma CopyIsOfPlan(p: Plan, i: nat, v: string)
    requires i < |PlanSteps(p)| && IsCopyOf(PlanSteps(p)[i], v)
    ensures v in MigratedNames(p.migrations) || v in ConvertedNames(p.conversions)
  {
    hide PlanSteps, BeforeRebuild, Plans.AfterRebuild;
    WhereIs(p, i);
    var r := |BeforeRebuild(p)|;
    if i < r { BeforeKinds(p, i); } else if i > r { AfterKinds(p, i - r - 1); }
  }

  /** A plan's steps copy just the volumes it migrates or converts. */
  lemma PlanCopiesIff(p: Plan, v: string)
    ensures CopyPlanned(PlanSteps(p), v) <==> v in MigratedNames(p.migrations) || v in ConvertedNames(p.conversions)
  {
    hide PlanSteps, ConversionSteps;
    if CopyPlanned(PlanSteps(p), v) {
      var s :| s in PlanSteps(p) && IsCopyOf(s, v);
      var i :| 0 <= i < |PlanSteps(p)| && PlanSteps(p)[i] == s;
      CopyIsOfPlan(p, i, v);
    }
    if v in MigratedNames(p.migrations) {
      MigratedIsCopied(p.migrations, v);
      var t :| t in CopySteps(p.migrations) && IsCopyOf(t, v);
      assert t in CopyPart(p);
      InPlan(p, t);
    } else if v in ConvertedNames(p.conversions) {
      ConvertedIsCopied(p.conversions, v);
      var t :| t in ConversionSteps(p.conversions) && IsCopyOf(t, v);
      assert t in CopyPart(p);
      InPlan(p, t);
    }
  }

  // ---- The guarantees of a plan -------------------------------------------------------------------

  /** Step `k` of a run of the plan, in which others may interfere, removes `v`. */
  ghost predicate Removes(cx: Context, h0: Host, p: Plan, turns: seq<Turn>, ps: seq<Progress>, k: nat, v: string) {
    && IsRunOf(cx, PlanSteps(p), turns, ps, h0) && GuardAtomic(PlanSteps(p), turns) && k < |ps| - 1
    && v in Before(turns, ps, k).volumes && v !in ps[k + 1].host.volumes
  }

  /**
   What `v` is when step `k` comes is in a verified copy, made of it earlier in the run; and if
   `v` is not converted, that copy stands in its folder.
   */
  ghost predicate IsKept(cx: Context, p: Plan, turns: seq<Turn>, ps: seq<Progress>, k: nat, v: string)
    requires k < |ps| - 1 <= |PlanSteps(p)| == |turns| && v in Before(turns, ps, k).volumes
  {
    && (exists j: nat :: KeptIn(cx, PlanSteps(p), turns, ps, k, v, j))
    && (v !in cx.converted ==> CopyIsThere(cx, PlanSteps(p), Before(turns, ps, k), v))
  }

  /**
   A volume a run removes is kept exactly if the plan migrates or converts it; docker may drop
   others at the rebuild.
   */
  lemma PlanNoLostWrite(cx: Context, h0: Host, p: Plan, turns: seq<Turn>, ps: seq<Progress>, k: nat, v: string)
    requires RunsPlan(cx, p) && Removes(cx, h0, p, turns, ps, k, v)
    ensures IsKept(cx, p, turns, ps, k, v) <==> v in MigratedNames(p.migrations) || v in ConvertedNames(p.conversions)
    ensures !IsKept(cx, p, turns, ps, k, v) ==> DroppedByRebuild(cx, PlanSteps(p), turns, k, v)
  {
    hide PlanSteps, IsTrace, GuardAtomic, KeptIn, CopyPlanned, AfterEvents, DroppedByRebuild, InOrder, CopyIsThere;
    var o := StepsWellOrdered(p);
    PlanCopiesIff(p, v);
    NoLostWrite(cx, h0, o, turns, ps, k, v);
    if v !in cx.converted {
      RemovedCopyIsThere(cx, h0, o, turns, ps, k, v);
    }
  }

  /** A run of the plan fails before its rebuild, and every compensation succeeds. */
  ghost predicate FailsAndUndoes(cx: Context, h0: Host, p: Plan, turns: seq<Turn>, ps: seq<Progress>, undo: UndoIo) {
    FailedEarly(cx, h0, PlanSteps(p), turns, ps) && RolledBack(cx, ps[|ps| - 1], undo).1
  }

  /** The host is as the run found it, but for what others did, exposed copies and what a late failure left. */
  ghost predicate Undone(cx: Context, h0: Host, p: Plan, turns: seq<Turn>, ps: seq<Progress>, undo: UndoIo)
    requires 2 <= |ps| <= |PlanSteps(p)| + 1 && |turns| == |PlanSteps(p)|
  {
    var n := |ps| - 1;
    var h := RolledBack(cx, ps[n], undo).0;
    && PutBack(cx, h0, h, ps[n].copies, ReusedNames(p.conversions) + WrittenByOthers(turns, n),
               LeftBehind(cx, Before(turns, ps, n - 1), PlanSteps(p)[n - 1], turns[n - 1].io))
    && h.running == (ps[n].host.running || (ps[n].stopped && h0.running))
  }

  lemma OrderedFailureIsUndone(cx: Context, h0: Host, p: Plan, o: Outline, turns: seq<Turn>, ps: seq<Progress>,
                               undo: UndoIo)
    requires WellOrdered(p, o) && Ready(cx, h0) && FailsAndUndoes(cx, h0, p, turns, ps, undo)
    ensures Undone(cx, h0, p, turns, ps, undo)
  {
    hide PlanSteps, RolledBack, PutBack, LeftBehind, Ready, InOrder, AfterEvents;
    FailureIsUndone(cx, h0, o, turns, ps, undo);
  }

  // ---- adopt ----------------------------------------------------------------------------------------

  lemma {:induction false} NotMigratedIff(names: seq<string>, ms: seq<Migration>, v: string)
    ensures v in NotMigrated(names, ms) <==> v in names && v !in MigratedNames(ms)
  {
    if names == [] {
    } else {
      assert names == [names[0]] + names[1..];
      NotMigratedIff(names[1..], ms, v);
    }
  }

  lemma AdoptRunsPlan(cx: Context, s: Snapshot, migrate: bool, p: Plan)
    requires Adopts(s, migrate, p) && cx.converted == (set v | v in p.leftovers)
    ensures RunsPlan(cx, p)
  {
    hide OwnAnonymous, NotMigrated, Suffixes.Assigned;
    AdoptDestinations(s, migrate, p);
    assert MigratedNames([]) == [];
  }

  /**
   For whatever adopt plans: a volume its run removes is kept exactly if it is migrated or the
   snapshot has it as an anonymous volume of the container.
   */
  lemma AdoptNoLostWrite(cx: Context, h0: Host, s: Snapshot, migrate: bool, p: Plan, turns: seq<Turn>,
                         ps: seq<Progress>, k: nat, v: string)
    requires Adopts(s, migrate, p) && cx.converted == (set x | x in p.leftovers)
    requires Removes(cx, h0, p, turns, ps, k, v)
    ensures IsKept(cx, p, turns, ps, k, v) <==>
            v in MigratedNames(p.migrations) || v in OwnAnonymous(s.container.volumes, s.host.volumes)
    ensures !IsKept(cx, p, turns, ps, k, v) ==> DroppedByRebuild(cx, PlanSteps(p), turns, k, v)
  {
    hide PlanSteps, IsTrace, GuardAtomic, KeptIn, AfterEvents, CopyIsThere, OwnAnonymous, Suffixes.Assigned,
         DroppedByRebuild, ConversionsOf, IsKept;
    AdoptDestinations(s, migrate, p);
    AdoptRunsPlan(cx, s, migrate, p);
    NotMigratedIff(OwnAnonymous(s.container.volumes, s.host.volumes), p.migrations, v);
    hide NotMigrated;
    PlanNoLostWrite(cx, h0, p, turns, ps, k, v);
  }

  /** A failed run of whatever adopt plans is undone. */
  lemma AdoptFailureIsUndone(cx: Context, h0: Host, s: Snapshot, migrate: bool, p: Plan, turns: seq<Turn>,
                             ps: seq<Progress>, undo: UndoIo)
    requires Adopts(s, migrate, p) && Ready(cx, h0) && FailsAndUndoes(cx, h0, p, turns, ps, undo)
    ensures Undone(cx, h0, p, turns, ps, undo)
  {
    hide FailsAndUndoes, Undone, Ready, Adopts;
    var o := AdoptWellOrdered(s, migrate, p);
    OrderedFailureIsUndone(cx, h0, p, o, turns, ps, undo);
  }

  // ---- set_icon ---------------------------------------------------------------------------------------

  /**
   For whatever set_icon plans, all, some or none of the volumes converted: a volume its run
   removes is kept exactly if it was converted, and an anonymous volume of the snapshot that
   was not is reported as not applied.
   */
  lemma SetIconNoLostWrite(cx: Context, h0: Host, s: Snapshot, labelled: bool, takes: nat -> bool, p: Plan,
                           turns: seq<Turn>, ps: seq<Progress>, k: nat, v: string)
    requires SetsIcon(s, labelled, takes, p) && cx.converted == (set x | x in p.leftovers)
    requires Removes(cx, h0, p, turns, ps, k, v)
    ensures IsKept(cx, p, turns, ps, k, v) <==> v in ConvertedNames(Patched(s, labelled, takes).conversions)
    ensures !IsKept(cx, p, turns, ps, k, v) ==> DroppedByRebuild(cx, PlanSteps(p), turns, k, v)
    ensures !IsKept(cx, p, turns, ps, k, v) && v in OwnAnonymous(s.container.volumes, s.host.volumes) ==>
              var reported := Patched(s, labelled, takes).notApplied;
              NotConverted(v) in reported || LabelsAndConversions in reported
  {
    hide PlanSteps, IsTrace, GuardAtomic, KeptIn, AfterEvents, CopyIsThere, OwnAnonymous, DroppedByRebuild, Patched,
         IsKept;
    assert MigratedNames([]) == [];
    assert RunsPlan(cx, p);
    ConvertedOrReported(s, labelled, takes, v);
    PlanNoLostWrite(cx, h0, p, turns, ps, k, v);
  }

  /** A failed run of whatever set_icon plans is undone. */
  lemma SetIconFailureIsUndone(cx: Context, h0: Host, s: Snapshot, labelled: bool, takes: nat -> bool, p: Plan,
                               turns: seq<Turn>, ps: seq<Progress>, undo: UndoIo)
    requires SetsIcon(s, labelled, takes, p) && Ready(cx, h0) && FailsAndUndoes(cx, h0, p, turns, ps, undo)
    ensures Undone(cx, h0, p, turns, ps, undo)
  {
    hide FailsAndUndoes, Undone, Ready, Patched;
    var o := SetIconWellOrdered(p);
    OrderedFailureIsUndone(cx, h0, p, o, turns, ps, undo);
  }
}
