/**
 No lost write: while others may run the container and write its volumes between steps, a
 volume the run copies goes only while it is what was copied, so one written since always
 survives; no other goes unless docker drops it at the rebuild; and the rebuild is reached
 only if the container never ran since its volumes were copied.
 */
module SagaWrites {
  import opened Wrappers
  import opened Names
  import opened Plans
  import opened PlanLaws
  import opened Stages
  import opened Saga
  import Templates
  import HostAutostart

  /** Nothing happens between the stopped check and the rebuild it guards. */
  predicate GuardAtomic(steps: seq<Plans.Step>, turns: seq<Turn>) {
    |turns| == |steps| && forall i | 0 <= i < |steps| && steps[i] == Rebuild :: turns[i].events == []
  }

  ghost predicate IsRunOf(cx: Context, steps: seq<Plans.Step>, turns: seq<Turn>, ps: seq<Progress>, h0: Host) {
    IsTrace(cx, steps, turns, ps) && ps[0] == Begin(h0, NewState(h0)) && |ps| - 1 <= |steps| == |turns|
  }

  lemma RunStepAt(cx: Context, steps: seq<Plans.Step>, turns: seq<Turn>, ps: seq<Progress>, h0: Host, i: nat)
    requires IsRunOf(cx, steps, turns, ps, h0) && i < |ps| - 1
    ensures ps[i].ok && ps[i + 1] == Advance(cx, Mid(ps[i], turns[i]), steps[i], turns[i].io)
    ensures Mid(ps[i], turns[i]) == ps[i].(host := Before(turns, ps, i))
    ensures turns[i].events == [] ==> Before(turns, ps, i) == ps[i].host
  {
    hide Advance;
    assert Ran(cx, steps, turns, ps, i);
  }

  // ---- What a step records --------------------------------------------------------------------

  predicate IsCopyOf(step: Plans.Step, volume: string) {
    Source(step) == Some(volume)
  }

  /** A copy of `volume` from `before` is in `after`, with the digest the source had. */
  predicate CopyMade(cx: Context, step: Plans.Step, before: Host, after: Host, volume: string) {
    && IsCopyOf(step, volume) && volume in before.volumes
    && match step
       case CopyVolume(_, suffix) =>
         && Holds(cx.hash, after.app, StageOf(cx, suffix))
         && var stage := OpenStage(cx.hash, after.app, StageOf(cx, suffix)).value.value;
            STAGE_DATA in stage && cx.digests.tree(stage[STAGE_DATA]) == DigestOf(cx, before.volumes[volume], false)
       case CopyIntoVolume(_, target) =>
         target in after.volumes
         && DigestOf(cx, after.volumes[target], true) == DigestOf(cx, before.volumes[volume], true)
       case _ => false
  }

  lemma CopyRecords(cx: Context, h: Host, st: State, volume: string, suffix: string, io: Io)
    requires AfterCopy(cx, h, st, volume, suffix, io).ok
    ensures var o := AfterCopy(cx, h, st, volume, suffix, io);
            && CopyMade(cx, CopyVolume(volume, suffix), h, o.host, volume)
            && o.digest == Some(DigestOf(cx, h.volumes[volume], false))
  {
    var (p, src) := (StageOf(cx, suffix), Root(h.volumes[volume]));
    var made := Created(cx.hash, h.app, p, io.create);
    CreatedHolds(cx.hash, h.app, p, io.create);
    var op := Fill(p, src, io.copy);
    VerifiedFill(cx.hash, cx.digests.tree, made, op);
    hide Created, Filled, Holds, CreateOk;
  }

  lemma IntoRecords(cx: Context, h: Host, st: State, source: string, target: string, io: Io)
    requires AfterInto(cx, h, st, source, target, io).ok
    ensures var o := AfterInto(cx, h, st, source, target, io);
            && CopyMade(cx, CopyIntoVolume(source, target), h, o.host, source)
            && o.digest == Some(DigestOf(cx, h.volumes[source], true))
  {
    hide DigestOf;
  }

  /** The manifests change only by a copy that succeeded, and then hold its source's digest. */
  lemma StepManifests(cx: Context, p: Progress, step: Plans.Step, io: Io)
    ensures var q := Advance(cx, p, step, io);
            if q.ok && p.ok && Source(step).Some? then
              var v := Source(step).value;
              && CopyMade(cx, step, p.host, q.host, v)
              && q.state.manifests == p.state.manifests[v := DigestOf(cx, p.host.volumes[v], step.CopyIntoVolume?)]
            else p.ok ==> q.state.manifests == p.state.manifests
  {
    hide AfterStop, AfterExpose, AfterSaveInspect, AfterTemplate, AfterListing, Saga.AfterRebuild, AfterEnsureState,
         AfterEnsureStopped, AfterCreate, AfterRemove, AfterRemoveOwn, CopyMade, DigestOf;
    StepStates(cx, p.host, p.state, step, io);
    if step.CopyVolume? {
      if AfterCopy(cx, p.host, p.state, step.volume, step.suffix, io).ok {
        CopyRecords(cx, p.host, p.state, step.volume, step.suffix, io);
      }
    } else if step.CopyIntoVolume? {
      if AfterInto(cx, p.host, p.state, step.source, step.target, io).ok {
        IntoRecords(cx, p.host, p.state, step.source, step.target, io);
      }
    }
    hide RunStep;
  }

  /** What a step itself does to the run's state. */
  lemma StepStates(cx: Context, h: Host, st: State, step: Plans.Step, io: Io)
    ensures var o := RunStep(cx, h, st, step, io);
            && o.state.manifests == st.manifests
            && (!step.Stop? ==> o.state.stopped == st.stopped)
            && (step.Stop? && o.ok ==>
                  o.host == Stopped(h) && o.state.stopped == if io.seen then Some(Times(o.host)) else st.stopped)
  {
    hide Created, Filled, Exposed, Templates.Written, HostAutostart.AfterWrite, AllUnchanged, CreateOk, Holds,
         CopyVerified, Walk, ChangedSinceCopy, Listed;
  }

  // ---- What a step removes ------------------------------------------------------------------------

  lemma {:induction false} WalkRemoves(cx: Context, h: Host, st: State, candidates: seq<string>,
                                       each: string -> RemoveIo,
                                       v: string)
    requires v in h.volumes && v !in Walk(cx, h, st, candidates, each).0
    ensures v in candidates && ChangedSinceCopy(cx, h, st, v, true, true) == Same
    decreases |candidates|
  {
    assert candidates != [];
    assert candidates == [candidates[0]] + candidates[1..];
    var (c, rest) := (candidates[0], candidates[1..]);
    if v in h.volumes && v !in Walk(cx, h, st, rest, each).0 {
      WalkRemoves(cx, h, st, rest, each, v);
    } else if c != v {
      WalkRemoves(cx, h.(volumes := h.volumes - {c}), st, rest, each, v);
    }
  }

  /** The guard that held when a step removed `v`. */
  predicate RemovedUnchanged(cx: Context, h: Host, st: State, step: Plans.Step, io: Io, v: string) {
    match step
    case RemoveVolume(volume) => volume == v && ChangedSinceCopy(cx, h, st, v, false, true) == Same
    case RemoveOwnAnonymousVolumes(candidates) =>
      v in candidates && ChangedSinceCopy(cx, h, st, v, true, true) == Same
    case Rebuild => v in io.rebuild.dropped * cx.ownAnonymous
    case _ => false
  }

  lemma StepRemoves(cx: Context, h: Host, st: State, step: Plans.Step, io: Io, v: string)
    requires v in h.volumes && v !in RunStep(cx, h, st, step, io).host.volumes
    ensures RemovedUnchanged(cx, h, st, step, io, v)
  {
    hide Created, Filled, Exposed, Templates.Written, HostAutostart.AfterWrite, AllUnchanged, CreateOk, Holds,
         CopyVerified, Walk, Listed, DigestOf;
    if step.RemoveOwnAnonymousVolumes? {
      WalkRemoves(cx, h, st, step.candidates, io.each, v);
    }
  }

  // ---- Over a run ---------------------------------------------------------------------------------------

  /** Step `j` copied `v`, and the manifest recorded for it at `i` is that copy's. */
  predicate RecordedAt(cx: Context, steps: seq<Plans.Step>, turns: seq<Turn>, ps: seq<Progress>, i: nat, v: string,
                       j: nat)
    requires i < |ps| && |ps| - 1 <= |steps| == |turns|
  {
    && j < i && v in ps[i].state.manifests
    && CopyMade(cx, steps[j], Before(turns, ps, j), ps[j + 1].host, v)
    && ps[i].state.manifests[v] == DigestOf(cx, Before(turns, ps, j).volumes[v], steps[j].CopyIntoVolume?)
  }

  /** Every manifest of a run was recorded by a copy made earlier in it. */
  lemma {:induction false} ManifestHasCopy(cx: Context, steps: seq<Plans.Step>, turns: seq<Turn>, ps: seq<Progress>,
                                           h0: Host, i: nat, v: string) returns (j: nat)
    requires IsRunOf(cx, steps, turns, ps, h0) && i < |ps| && v in ps[i].state.manifests
    requires i < |ps| - 1 || ps[i].ok
    ensures RecordedAt(cx, steps, turns, ps, i, v, j)
  {
    hide Advance, IsTrace, CopyMade, DigestOf;
    RunStepAt(cx, steps, turns, ps, h0, i - 1);
    if i < |ps| - 1 { RunStepAt(cx, steps, turns, ps, h0, i); }
    StepManifests(cx, Mid(ps[i - 1], turns[i - 1]), steps[i - 1], turns[i - 1].io);
    if Source(steps[i - 1]) == Some(v) {
      j := i - 1;
    } else {
      j := ManifestHasCopy(cx, steps, turns, ps, h0, i - 1, v);
    }
  }

  /** Once copied, a source has a manifest for the rest of the run. */
  lemma {:induction false} CopiedStaysRecorded(cx: Context, steps: seq<Plans.Step>, turns: seq<Turn>, ps: seq<Progress>,
                                               h0: Host, j: nat, i: nat, v: string)
    requires IsRunOf(cx, steps, turns, ps, h0) && j < i < |ps| && Source(steps[j]) == Some(v)
    requires i < |ps| - 1 || ps[i].ok
    ensures v in ps[i].state.manifests
  {
    hide Advance, IsTrace, CopyMade, DigestOf;
    RunStepAt(cx, steps, turns, ps, h0, i - 1);
    if i < |ps| - 1 { RunStepAt(cx, steps, turns, ps, h0, i); }
    StepManifests(cx, Mid(ps[i - 1], turns[i - 1]), steps[i - 1], turns[i - 1].io);
    if j < i - 1 {
      CopiedStaysRecorded(cx, steps, turns, ps, h0, j, i - 1, v);
    }
  }

  /** Some step copies `v`. */
  predicate CopyPlanned(steps: seq<Plans.Step>, v: string) {
    exists s :: s in steps && IsCopyOf(s, v)
  }

  predicate VerifiedBefore(steps: seq<Plans.Step>, k: nat)
    requires k <= |steps|
  {
    exists m | 0 <= m < k :: steps[m].VerifyManaged?
  }

  /** Step `k` is a rebuild at which docker drops `v`, an anonymous volume of the container. */
  predicate DroppedByRebuild(cx: Context, steps: seq<Plans.Step>, turns: seq<Turn>, k: nat, v: string)
    requires k < |steps| == |turns|
  {
    steps[k] == Rebuild && v in turns[k].io.rebuild.dropped * cx.ownAnonymous
  }

  /**
   Step `j` copied `v`, the copy was verified, `v` is at `k` what was copied, and the new
   container was verified before `k` or `k` is the rebuild right after the stopped check.
   */
  predicate KeptIn(cx: Context, steps: seq<Plans.Step>, turns: seq<Turn>, ps: seq<Progress>, k: nat, v: string, j: nat)
    requires k < |ps| - 1 <= |steps| == |turns| && v in Before(turns, ps, k).volumes
  {
    && j < k && CopyMade(cx, steps[j], Before(turns, ps, j), ps[j + 1].host, v)
    && DigestOf(cx, Before(turns, ps, k).volumes[v], v in cx.converted)
       == DigestOf(cx, Before(turns, ps, j).volumes[v], v in cx.converted)
    && (VerifiedBefore(steps, k) || GuardedRebuild(steps, k))
  }

  predicate GuardedRebuild(steps: seq<Plans.Step>, k: nat)
    requires k < |steps|
  {
    steps[k] == Rebuild && k > 0 && steps[k - 1] == EnsureStopped
  }

  lemma AdvanceHost(cx: Context, p: Progress, step: Plans.Step, io: Io)
    ensures Advance(cx, p, step, io).host == RunStep(cx, p.host, p.state, step, io).host
  {
    hide RunStep;
  }

  lemma AdvanceOk(cx: Context, p: Progress, step: Plans.Step, io: Io)
    requires p.ok
    ensures Advance(cx, p, step, io).ok == RunStep(cx, p.host, p.state, step, io).ok
  {
    hide RunStep;
  }

  lemma StoppedCheckPassed(cx: Context, p: Progress, io: Io)
    requires p.ok && Advance(cx, p, EnsureStopped, io).ok
    ensures AllUnchanged(cx, p.host, p.state)
    ensures Advance(cx, p, EnsureStopped, io).host == p.host && Advance(cx, p, EnsureStopped, io).state == p.state
  {
    hide AllUnchanged;
  }

  /** The stopped check passed at `k`: what the step after it finds is unchanged. */
  lemma GuardHolds(cx: Context, steps: seq<Plans.Step>, turns: seq<Turn>, ps: seq<Progress>, h0: Host, k: nat,
                   v: string)
    requires IsRunOf(cx, steps, turns, ps, h0) && k < |ps| - 1 && GuardedRebuild(steps, k) && turns[k].events == []
    requires v in Sources(cx, ps[k].state)
    ensures ChangedSinceCopy(cx, Before(turns, ps, k), ps[k].state, v, v in cx.converted, true) == Same
  {
    hide ChangedSinceCopy, Advance, IsTrace, AfterEvents;
    RunStepAt(cx, steps, turns, ps, h0, k - 1);
    RunStepAt(cx, steps, turns, ps, h0, k);
    StoppedCheckPassed(cx, Mid(ps[k - 1], turns[k - 1]), turns[k - 1].io);
  }

  /** Why `v` may go at step `k`: it is what its copy was made of. */
  lemma RemovalIsOfCopied(cx: Context, h0: Host, o: Outline, turns: seq<Turn>, ps: seq<Progress>,
                          k: nat, v: string)
    requires InOrder(o) && o.converted == cx.converted
    requires IsRunOf(cx, o.steps, turns, ps, h0) && GuardAtomic(o.steps, turns) && k < |ps| - 1
    requires v in Before(turns, ps, k).volumes && v !in ps[k + 1].host.volumes
    requires CopyPlanned(o.steps, v) || !DroppedByRebuild(cx, o.steps, turns, k, v)
    ensures VerifiedBefore(o.steps, k) || GuardedRebuild(o.steps, k)
    ensures ChangedSinceCopy(cx, Before(turns, ps, k), ps[k].state, v, v in cx.converted, true) == Same
  {
    hide Advance, ChangedSinceCopy, Prepared, VerifiedAs, ExposedAfterCopied, TargetsMade, StoppedFirst, TemplateOnce,
         ListedAfter, Framed, Guarded, IsTrace;
    var steps := o.steps;
    RunStepAt(cx, steps, turns, ps, h0, k);
    var p := Mid(ps[k], turns[k]);
    AdvanceHost(cx, p, steps[k], turns[k].io);
    StepRemoves(cx, p.host, p.state, steps[k], turns[k].io, v);
    assert steps[k] in steps && SourceAgrees(steps[k], cx.converted);
    if steps[k] == Rebuild {
      RebuildIsGuarded(cx, h0, o, turns, ps, k, v);
      GuardHolds(cx, steps, turns, ps, h0, k, v);
    } else {
      assert IsRemoval(steps[k]);
      assert steps[o.verify].VerifyManaged? && o.verify < k;
    }
  }

  /** Where a copied volume can be dropped, the check went before, over it too. */
  lemma RebuildIsGuarded(cx: Context, h0: Host, o: Outline, turns: seq<Turn>, ps: seq<Progress>,
                         k: nat, v: string)
    requires InOrder(o) && o.converted == cx.converted && CopyPlanned(o.steps, v)
    requires IsRunOf(cx, o.steps, turns, ps, h0) && GuardAtomic(o.steps, turns) && k < |ps| - 1
    requires o.steps[k] == Rebuild
    ensures GuardedRebuild(o.steps, k) && v in Sources(cx, ps[k].state) && turns[k].events == []
  {
    hide Advance, Prepared, VerifiedAs, ExposedAfterCopied, TargetsMade, TemplateOnce, ListedAfter,
         RemovedAfterVerified, IsTrace, StoppedFirst, SourcesAgree, AfterEvents;
    var steps := o.steps;
    var s :| s in steps && IsCopyOf(s, v);
    var j :| 0 <= j < |steps| && steps[j] == s;
    assert IsCopy(s) && k == o.rebuild && j < o.rebuild;
    RunStepAt(cx, steps, turns, ps, h0, k);
    CopiedStaysRecorded(cx, steps, turns, ps, h0, j, k, v);
  }

  /** A removed volume that the plan copies is in a verified copy, and still what was copied. */
  lemma RemovedIsKept(cx: Context, h0: Host, o: Outline, turns: seq<Turn>, ps: seq<Progress>,
                      k: nat, v: string) returns (j: nat)
    requires InOrder(o) && o.converted == cx.converted
    requires IsRunOf(cx, o.steps, turns, ps, h0) && GuardAtomic(o.steps, turns) && k < |ps| - 1
    requires v in Before(turns, ps, k).volumes && v !in ps[k + 1].host.volumes
    requires CopyPlanned(o.steps, v) || !DroppedByRebuild(cx, o.steps, turns, k, v)
    ensures KeptIn(cx, o.steps, turns, ps, k, v, j)
  {
    hide Advance, Prepared, VerifiedAs, ExposedAfterCopied, TargetsMade, TemplateOnce, ListedAfter,
         RemovedAfterVerified, IsTrace, StoppedFirst, Framed, Guarded, CopyMade, DigestOf, VerifiedBefore,
         DroppedByRebuild, CopyPlanned;
    var steps := o.steps;
    RemovalIsOfCopied(cx, h0, o, turns, ps, k, v);
    j := ManifestHasCopy(cx, steps, turns, ps, h0, k, v);
    CopyMadeSource(cx, steps[j], Before(turns, ps, j), ps[j + 1].host, v);
    assert SourceAgrees(steps[j], cx.converted);
  }

  lemma KeptIsPlanned(cx: Context, steps: seq<Plans.Step>, turns: seq<Turn>, ps: seq<Progress>, k: nat, v: string,
                      j: nat)
    requires k < |ps| - 1 <= |steps| == |turns| && v in Before(turns, ps, k).volumes
    requires KeptIn(cx, steps, turns, ps, k, v, j)
    ensures CopyPlanned(steps, v)
  {
    hide CopyMade;
    CopyMadeSource(cx, steps[j], Before(turns, ps, j), ps[j + 1].host, v);
    assert steps[j] in steps;
  }

  /**
   Whenever a step removes a volume: the run has a copy of it, verified against just the content
   the volume still has, exactly if one of its steps copies the volume; and no other volume goes
   but an anonymous one of the container's own that docker drops at the rebuild.
   */
  lemma NoLostWrite(cx: Context, h0: Host, o: Outline, turns: seq<Turn>, ps: seq<Progress>, k: nat, v: string)
    requires InOrder(o) && o.converted == cx.converted
    requires IsRunOf(cx, o.steps, turns, ps, h0) && GuardAtomic(o.steps, turns) && k < |ps| - 1
    requires v in Before(turns, ps, k).volumes && v !in ps[k + 1].host.volumes
    ensures (exists j: nat :: KeptIn(cx, o.steps, turns, ps, k, v, j)) <==> CopyPlanned(o.steps, v)
    ensures !CopyPlanned(o.steps, v) ==> DroppedByRebuild(cx, o.steps, turns, k, v)
  {
    hide InOrder, IsTrace, KeptIn, CopyPlanned, DroppedByRebuild, AfterEvents, GuardAtomic;
    if CopyPlanned(o.steps, v) || !DroppedByRebuild(cx, o.steps, turns, k, v) {
      var j := RemovedIsKept(cx, h0, o, turns, ps, k, v);
    }
    forall j: nat | KeptIn(cx, o.steps, turns, ps, k, v, j) ensures CopyPlanned(o.steps, v) {
      KeptIsPlanned(cx, o.steps, turns, ps, k, v, j);
    }
  }

  lemma CopyMadeSource(cx: Context, step: Plans.Step, before: Host, after: Host, v: string)
    requires CopyMade(cx, step, before, after, v)
    ensures IsCopyOf(step, v) && v in before.volumes && IsCopy(step)
  {}

  // ---- A source written after its copy survives --------------------------------------------------------------

  lemma {:induction false} EventsKeepVolumes(h: Host, es: seq<Event>, v: string)
    requires v in h.volumes
    ensures v in AfterEvents(h, es).volumes
    decreases |es|
  {
    if es == [] {
    } else {
      EventsKeepVolumes(AfterEvent(h, es[0]), es[1..], v);
    }
  }

  /** Whatever copy of `v` was made before step `k`, it is not of what `v` holds now. */
  ghost predicate WrittenSince(cx: Context, steps: seq<Plans.Step>, turns: seq<Turn>, ps: seq<Progress>, k: nat,
                               v: string)
    requires k < |ps| - 1 && |ps| - 1 <= |steps| == |turns|
  {
    forall j | 0 <= j < k && IsCopyOf(steps[j], v)
               && v in Before(turns, ps, j).volumes && v in Before(turns, ps, k).volumes ::
      DigestOf(cx, Before(turns, ps, j).volumes[v], v in cx.converted)
      != DigestOf(cx, Before(turns, ps, k).volumes[v], v in cx.converted)
  }

  lemma WrittenIsNotKept(cx: Context, steps: seq<Plans.Step>, turns: seq<Turn>, ps: seq<Progress>, k: nat, v: string)
    requires k < |ps| - 1 <= |steps| == |turns| && v in Before(turns, ps, k).volumes
    requires WrittenSince(cx, steps, turns, ps, k, v)
    ensures !exists j: nat :: KeptIn(cx, steps, turns, ps, k, v, j)
  {
    hide CopyMade, DigestOf, AfterEvents;
    forall j: nat ensures !KeptIn(cx, steps, turns, ps, k, v, j) {
      if KeptIn(cx, steps, turns, ps, k, v, j) {
        CopyMadeSource(cx, steps[j], Before(turns, ps, j), ps[j + 1].host, v);
      }
    }
  }

  /**
   A volume that from step `m` on differs from what was copied of it is there to the end of the
   run, unless no step copies it and docker drops it at the rebuild.
   */
  lemma {:induction false} WrittenSourceSurvives(cx: Context, h0: Host, o: Outline, turns: seq<Turn>,
                                                 ps: seq<Progress>, m: nat, i: nat, v: string)
    requires InOrder(o) && o.converted == cx.converted
    requires IsRunOf(cx, o.steps, turns, ps, h0) && GuardAtomic(o.steps, turns)
    requires m <= i < |ps| && v in ps[m].host.volumes
    requires forall k | m <= k < i :: WrittenSince(cx, o.steps, turns, ps, k, v)
    ensures || v in ps[i].host.volumes
            || (!CopyPlanned(o.steps, v) && exists k | m <= k < i :: DroppedByRebuild(cx, o.steps, turns, k, v))
  {
    hide InOrder, IsTrace, DigestOf, CopyMade, CopyPlanned, DroppedByRebuild, GuardAtomic, Advance, AfterEvents;
    if m == i {
    } else {
      WrittenSourceSurvives(cx, h0, o, turns, ps, m, i - 1, v);
      if v in ps[i - 1].host.volumes && v !in ps[i - 1 + 1].host.volumes {
        EventsKeepVolumes(ps[i - 1].host, turns[i - 1].events, v);
        assert WrittenSince(cx, o.steps, turns, ps, i - 1, v);
        WrittenIsNotKept(cx, o.steps, turns, ps, i - 1, v);
        NoLostWrite(cx, h0, o, turns, ps, i - 1, v);
      }
    }
  }

  /** Nor does compensation remove a volume that is not the one this run created. */
  lemma {:induction false} UndoKeepsOthers(volumes: Volumes, created: seq<(string, nat)>, mounted: set<string>,
                                           io: UndoIo, v: string)
    requires v in volumes && forall c | c in created :: c != (v, volumes[v].createdAt)
    ensures v in UndoCreated(volumes, created, mounted, io).0
    ensures UndoCreated(volumes, created, mounted, io).0[v] == volumes[v]
    decreases |created|
  {
    if created == [] {
    } else {
      assert created[0] in created && forall c | c in created[1..] :: c in created;
      var (w, at) := created[0];
      if io.inspected(w) && w in volumes && volumes[w].createdAt == at && io.removed(w) && w !in mounted {
        UndoKeepsOthers(volumes - {w}, created[1..], mounted, io, v);
      } else {
        UndoKeepsOthers(volumes, created[1..], mounted, io, v);
      }
    }
  }

  // ---- The container never ran since -------------------------------------------------------------------------

  /** `b` is later than a stopped `a`; if its start time is the same it still has not run. */
  predicate NotRunSince(a: Host, b: Host) {
    a.startedAt <= b.startedAt < b.clock && (b.startedAt == a.startedAt ==> !b.running)
  }

  lemma {:induction false} EventsNotRunSince(a: Host, h: Host, es: seq<Event>)
    requires NotRunSince(a, h)
    ensures NotRunSince(a, AfterEvents(h, es)) && h.startedAt <= AfterEvents(h, es).startedAt
    decreases |es|
  {
    if es == [] {
    } else {
      EventsNotRunSince(a, AfterEvent(h, es[0]), es[1..]);
    }
  }

  /** Before the rebuild a step of the run never starts the container. */
  lemma StepTimes(cx: Context, p: Progress, step: Plans.Step, io: Io)
    requires IsEarly(step)
    ensures var h := Advance(cx, p, step, io).host;
            h.startedAt == p.host.startedAt && h.clock >= p.host.clock && (h.running ==> p.host.running)
  {
    AdvanceHost(cx, p, step, io);
    hide Advance, Created, Filled, Exposed, Templates.Written, HostAutostart.AfterWrite, AllUnchanged, CreateOk, Holds,
         CopyVerified, DigestOf;
  }

  lemma StepNotRunSince(cx: Context, a: Host, p: Progress, step: Plans.Step, io: Io)
    requires IsEarly(step) && NotRunSince(a, p.host)
    ensures NotRunSince(a, Advance(cx, p, step, io).host)
    ensures p.host.startedAt == Advance(cx, p, step, io).host.startedAt
  {
    hide Advance;
    StepTimes(cx, p, step, io);
  }

  /** From a stopped moment on, until the rebuild, start times only grow. */
  lemma {:induction false} NotRunThrough(cx: Context, steps: seq<Plans.Step>, turns: seq<Turn>, ps: seq<Progress>,
                                         h0: Host,
                                         s: nat, i: nat)
    requires IsRunOf(cx, steps, turns, ps, h0) && s <= i < |ps|
    requires !ps[s].host.running && ps[s].host.startedAt < ps[s].host.clock
    requires forall k | s <= k < i :: IsEarly(steps[k])
    ensures NotRunSince(ps[s].host, ps[i].host)
  {
    hide Advance, IsTrace, AfterEvents;
    if s == i {
    } else {
      NotRunThrough(cx, steps, turns, ps, h0, s, i - 1);
      RunStepAt(cx, steps, turns, ps, h0, i - 1);
      EventsNotRunSince(ps[s].host, ps[i - 1].host, turns[i - 1].events);
      StepNotRunSince(cx, ps[s].host, Mid(ps[i - 1], turns[i - 1]), steps[i - 1], turns[i - 1].io);
    }
  }

  lemma {:induction false} StartsGrow(cx: Context, steps: seq<Plans.Step>, turns: seq<Turn>, ps: seq<Progress>,
                                      h0: Host,
                                      s: nat, i: nat, e: nat)
    requires IsRunOf(cx, steps, turns, ps, h0) && s <= i <= e < |ps| - 1
    requires !ps[s].host.running && ps[s].host.startedAt < ps[s].host.clock
    requires forall k | s <= k <= e :: IsEarly(steps[k])
    ensures NotRunSince(ps[s].host, Before(turns, ps, i))
    ensures Before(turns, ps, i).startedAt <= Before(turns, ps, e).startedAt
    decreases e
  {
    hide Advance, IsTrace, AfterEvents;
    NotRunThrough(cx, steps, turns, ps, h0, s, i);
    EventsNotRunSince(ps[s].host, ps[i].host, turns[i].events);
    if i == e {
    } else {
      StartsGrow(cx, steps, turns, ps, h0, s, i, e - 1);
      StartsGrow(cx, steps, turns, ps, h0, s, e - 1, e - 1);
      RunStepAt(cx, steps, turns, ps, h0, e - 1);
      StepNotRunSince(cx, ps[s].host, Mid(ps[e - 1], turns[e - 1]), steps[e - 1], turns[e - 1].io);
      EventsNotRunSince(ps[s].host, ps[e].host, turns[e].events);
    }
  }

  /** Without a stop, the recorded run times stay. */
  lemma {:induction false} TimesStay(cx: Context, steps: seq<Plans.Step>, turns: seq<Turn>, ps: seq<Progress>, h0: Host,
                                     s: nat, i: nat)
    requires IsRunOf(cx, steps, turns, ps, h0) && s <= i < |ps| - 1
    requires forall k | s <= k < i :: steps[k] != Stop
    ensures ps[i].state.stopped == ps[s].state.stopped
  {
    hide Advance, IsTrace, AfterEvents;
    if s == i {
    } else {
      TimesStay(cx, steps, turns, ps, h0, s, i - 1);
      RunStepAt(cx, steps, turns, ps, h0, i - 1);
      AdvanceStopped(cx, Mid(ps[i - 1], turns[i - 1]), steps[i - 1], turns[i - 1].io);
    }
  }

  lemma AdvanceStopped(cx: Context, p: Progress, step: Plans.Step, io: Io)
    ensures step != Stop ==> Advance(cx, p, step, io).state.stopped == p.state.stopped
    ensures var q := Advance(cx, p, step, io);
            step == Stop && q.ok && p.ok ==>
              q.host == Stopped(p.host) && q.state.stopped == if io.seen then Some(Times(q.host)) else p.state.stopped
  {
    StepStates(cx, p.host, p.state, step, io);
    hide RunStep;
  }

  /** If the check passes against times recorded at a stopped moment, the container did not run in between. */
  lemma CheckedMeansNeverRan(cx: Context, steps: seq<Plans.Step>, turns: seq<Turn>, ps: seq<Progress>, h0: Host,
                             s: nat, i: nat, e: nat)
    requires IsRunOf(cx, steps, turns, ps, h0) && s <= i <= e < |ps| - 1
    requires !ps[s].host.running && ps[s].host.startedAt < ps[s].host.clock
    requires forall k | s <= k <= e :: IsEarly(steps[k]) && steps[k] != Stop
    requires ps[s].state.stopped.Some? ==> ps[s].state.stopped.value.0 == ps[s].host.startedAt
    requires steps[e] == EnsureStopped && ps[e + 1].ok
    ensures !Before(turns, ps, i).running
  {
    hide IsTrace, AfterEvents, AllUnchanged;
    TimesStay(cx, steps, turns, ps, h0, s, e);
    RunStepAt(cx, steps, turns, ps, h0, e);
    StartsGrow(cx, steps, turns, ps, h0, s, i, e);
  }

  lemma {:induction false} EventsClockAhead(h: Host, es: seq<Event>)
    requires h.startedAt < h.clock
    ensures AfterEvents(h, es).startedAt < AfterEvents(h, es).clock
    decreases |es|
  {
    if es == [] {
    } else {
      EventsClockAhead(AfterEvent(h, es[0]), es[1..]);
    }
  }

  lemma {:induction false} ClockAhead(cx: Context, steps: seq<Plans.Step>, turns: seq<Turn>, ps: seq<Progress>,
                                      h0: Host, i: nat)
    requires IsRunOf(cx, steps, turns, ps, h0) && i < |ps| && h0.startedAt < h0.clock
    requires forall k | 0 <= k < i :: IsEarly(steps[k])
    ensures ps[i].host.startedAt < ps[i].host.clock
  {
    hide Advance, IsTrace, AfterEvents;
    if i == 0 {
    } else {
      ClockAhead(cx, steps, turns, ps, h0, i - 1);
      RunStepAt(cx, steps, turns, ps, h0, i - 1);
      EventsClockAhead(ps[i - 1].host, turns[i - 1].events);
      StepTimes(cx, Mid(ps[i - 1], turns[i - 1]), steps[i - 1], turns[i - 1].io);
    }
  }

  /** Where a plan's run first knows its container stopped: at the start, or after its stop. */
  lemma StoppedMoment(cx: Context, h0: Host, o: Outline, turns: seq<Turn>, ps: seq<Progress>, c: nat) returns (s: nat)
    requires Framed(o.steps, o.rebuild) && StoppedFirst(o.steps, o.wasRunning)
    requires o.wasRunning == h0.running && h0.startedAt < h0.clock
    requires IsRunOf(cx, o.steps, turns, ps, h0) && c < o.rebuild < |ps| && IsCopy(o.steps[c])
    ensures s <= c && !ps[s].host.running && ps[s].host.startedAt < ps[s].host.clock
    ensures forall k | s <= k < o.rebuild :: o.steps[k] != Stop
    ensures ps[s].state.stopped.Some? ==> ps[s].state.stopped.value.0 == ps[s].host.startedAt
  {
    hide IsTrace, Advance, AfterEvents, IsEarly;
    var steps := o.steps;
    if o.wasRunning {
      s := 2;
      assert steps[0] != Stop && steps[1] == Stop;
      RunStepAt(cx, steps, turns, ps, h0, 1);
      RunStepAt(cx, steps, turns, ps, h0, 2);
      TimesStay(cx, steps, turns, ps, h0, 0, 1);
      AdvanceStopped(cx, Mid(ps[1], turns[1]), steps[1], turns[1].io);
      ClockAhead(cx, steps, turns, ps, h0, 2);
    } else {
      s := 0;
    }
  }

  /** A run that gets as far as its rebuild never had its container running since the first copy. */
  lemma NeverRanSinceCopied(cx: Context, h0: Host, o: Outline, turns: seq<Turn>, ps: seq<Progress>,
                            c: nat, i: nat)
    requires InOrder(o) && o.converted == cx.converted
    requires o.wasRunning == h0.running && h0.startedAt < h0.clock
    requires IsRunOf(cx, o.steps, turns, ps, h0) && c <= i < o.rebuild < |ps| && ps[o.rebuild].ok && IsCopy(o.steps[c])
    ensures !Before(turns, ps, i).running
  {
    hide IsTrace, Advance, AfterEvents, IsEarly, StoppedFirst, TargetsMade, SourcesAgree, TemplateOnce,
         ExposedAfterCopied, RemovedAfterVerified, ListedAfter;
    var steps := o.steps;
    var s := StoppedMoment(cx, h0, o, turns, ps, c);
    assert steps[c] in steps && steps[o.rebuild - 1] == EnsureStopped;
    CheckedMeansNeverRan(cx, steps, turns, ps, h0, s, i, o.rebuild - 1);
  }

  /** And whatever it copied is, when the rebuild begins, still what the copy was made of. */
  lemma RebuildBuildsOnCopies(cx: Context, h0: Host, o: Outline, turns: seq<Turn>, ps: seq<Progress>,
                              c: nat, v: string) returns (j: nat)
    requires InOrder(o) && o.converted == cx.converted
    requires IsRunOf(cx, o.steps, turns, ps, h0) && GuardAtomic(o.steps, turns) && c < o.rebuild < |ps| - 1
    requires IsCopyOf(o.steps[c], v)
    ensures j < o.rebuild && CopyMade(cx, o.steps[j], Before(turns, ps, j), ps[j + 1].host, v)
    ensures v in Before(turns, ps, o.rebuild).volumes
    ensures DigestOf(cx, Before(turns, ps, o.rebuild).volumes[v], v in cx.converted)
         == DigestOf(cx, Before(turns, ps, j).volumes[v], v in cx.converted)
  {
    hide Advance, Prepared, VerifiedAs, ExposedAfterCopied, TargetsMade, TemplateOnce, ListedAfter,
         RemovedAfterVerified, IsTrace, StoppedFirst, CopyMade, DigestOf, AfterEvents;
    var steps := o.steps;
    assert steps[c] in steps && IsCopy(steps[c]);
    RunStepAt(cx, steps, turns, ps, h0, o.rebuild);
    CopiedStaysRecorded(cx, steps, turns, ps, h0, c, o.rebuild, v);
    GuardHolds(cx, steps, turns, ps, h0, o.rebuild, v);
    j := ManifestHasCopy(cx, steps, turns, ps, h0, o.rebuild, v);
    CopyMadeSource(cx, steps[j], Before(turns, ps, j), ps[j + 1].host, v);
    assert SourceAgrees(steps[j], cx.converted);
  }

  // ---- The copy of a migrated volume outlives it ------------------------------------------------------------

  /** Some migration's folder holds a tree with the digest `v` has. */
  ghost predicate CopyIsThere(cx: Context, steps: seq<Plans.Step>, h: Host, v: string) {
    v in h.volumes
    && exists suffix :: CopyVolume(v, suffix) in steps && FolderHolds(cx, h, suffix, DigestOf(cx, h.volumes[v], false))
  }

  predicate FolderHolds(cx: Context, h: Host, suffix: string, digest: string) {
    suffix in h.app && cx.digests.tree(h.app[suffix]) == digest
  }

  /** The run's stage for `suffix` holds a tree with this digest. */
  predicate StageHolds(cx: Context, h: Host, suffix: string, digest: string) {
    && Holds(cx.hash, h.app, StageOf(cx, suffix))
    && var stage := OpenStage(cx.hash, h.app, StageOf(cx, suffix)).value.value;
       STAGE_DATA in stage && cx.digests.tree(stage[STAGE_DATA]) == digest
  }

  lemma {:induction false} EventsKeepApp(h: Host, es: seq<Event>)
    ensures AfterEvents(h, es).app == h.app
    decreases |es|
  {
    if es == [] {
    } else {
      EventsKeepApp(AfterEvent(h, es[0]), es[1..]);
    }
  }

  /** A step leaves the directory alone, or does one or two operations of the step's own suffix there. */
  lemma AppSteps(cx: Context, h: Host, st: State, step: Plans.Step, io: Io)
    ensures var (d, app) := (cx.digests.tree, RunStep(cx, h, st, step, io).host.app);
            match step
            case CopyVolume(_, suffix) =>
              || app == h.app
              || app == Created(cx.hash, h.app, StageOf(cx, suffix), io.create)
              || exists src :: app == Filled(cx.hash, d, Created(cx.hash, h.app, StageOf(cx, suffix), io.create),
                                             StageOf(cx, suffix), src, io.copy)
            case ExposeCopy(suffix) => app == Exposed(cx.hash, h.app, StageOf(cx, suffix), io.expose)
            case _ => app == h.app
  {
    hide Created, Filled, Exposed, Templates.Written, HostAutostart.AfterWrite, AllUnchanged, Holds, Walk,
         ChangedSinceCopy, Listed, AfterCopy, DigestOf, ValidName, Templates.TemplatePath, Templates.InspectPath;
    if step.CopyVolume? { CopyApp(cx, h, st, step.volume, step.suffix, io); }
  }

  lemma CopyApp(cx: Context, h: Host, st: State, volume: string, suffix: string, io: Io)
    ensures var (d, app) := (cx.digests.tree, AfterCopy(cx, h, st, volume, suffix, io).host.app);
            || app == h.app
            || app == Created(cx.hash, h.app, StageOf(cx, suffix), io.create)
            || exists src :: app == Filled(cx.hash, d, Created(cx.hash, h.app, StageOf(cx, suffix), io.create),
                                           StageOf(cx, suffix), src, io.copy)
  {
    hide Created, Filled, CreateOk, CopyVerified;
  }

  lemma OpKeepsFolder(cx: Context, a: Entries, op: Op, suffix: string)
    requires ValidName(suffix) && suffix in a
    ensures var after := Stages.Step(cx.hash, cx.digests.tree, a, op);
            suffix in after && after[suffix] == a[suffix]
  {
    hide Stages.Step, ValidName;
    SuffixIsNoStage(cx.hash, suffix, op.p);
    StepFrame(cx.hash, cx.digests.tree, a, op, suffix);
  }

  /** A folder stays as it is through every step. */
  lemma StepKeepsFolder(cx: Context, h: Host, st: State, step: Plans.Step, io: Io, suffix: string, digest: string)
    requires ValidName(suffix) && FolderHolds(cx, h, suffix, digest)
    ensures FolderHolds(cx, RunStep(cx, h, st, step, io).host, suffix, digest)
  {
    AppSteps(cx, h, st, step, io);
    var app := RunStep(cx, h, st, step, io).host.app;
    hide RunStep, Created, Filled, Exposed, ValidName;
    if step.CopyVolume? {
      var p := StageOf(cx, step.suffix);
      var made := Created(cx.hash, h.app, p, io.create);
      OpKeepsFolder(cx, h.app, Create(p, io.create), suffix);
      if app != h.app && app != made {
        var src :| app == Filled(cx.hash, cx.digests.tree, made, p, src, io.copy);
        OpKeepsFolder(cx, made, Fill(p, src, io.copy), suffix);
      }
    } else if step.ExposeCopy? {
      OpKeepsFolder(cx, h.app, Expose(StageOf(cx, step.suffix), io.expose), suffix);
    }
  }

  /** A stage stays as it is through every step of another suffix. */
  lemma StepKeepsStage(cx: Context, h: Host, st: State, step: Plans.Step, io: Io, suffix: string, digest: string)
    requires StageHolds(cx, h, suffix, digest)
    requires (step.CopyVolume? || step.ExposeCopy?) ==> step.suffix != suffix
    ensures StageHolds(cx, RunStep(cx, h, st, step, io).host, suffix, digest)
  {
    AppSteps(cx, h, st, step, io);
    var app := RunStep(cx, h, st, step, io).host.app;
    hide RunStep, Created, Filled, Exposed, Holds;
    if step.CopyVolume? {
      var p := StageOf(cx, step.suffix);
      var made := Created(cx.hash, h.app, p, io.create);
      OpKeepsStage(cx, h.app, Create(p, io.create), suffix);
      if app != h.app && app != made {
        var src :| app == Filled(cx.hash, cx.digests.tree, made, p, src, io.copy);
        OpKeepsStage(cx, made, Fill(p, src, io.copy), suffix);
      }
    } else if step.ExposeCopy? {
      OpKeepsStage(cx, h.app, Expose(StageOf(cx, step.suffix), io.expose), suffix);
    }
  }

  lemma OpKeepsStage(cx: Context, a: Entries, op: Op, suffix: string)
    requires Holds(cx.hash, a, StageOf(cx, suffix)) && op.p != StageOf(cx, suffix)
    ensures var after := Stages.Step(cx.hash, cx.digests.tree, a, op);
            && Holds(cx.hash, after, StageOf(cx, suffix))
            && OpenStage(cx.hash, after, StageOf(cx, suffix)) == OpenStage(cx.hash, a, StageOf(cx, suffix))
  {
    hide Stages.Step;
    StepKeepsOthersStage(cx.hash, cx.digests.tree, a, op, StageOf(cx, suffix));
  }

  /** An exposure that succeeds moves just what the stage held. */
  lemma ExposeMoves(cx: Context, h: Host, st: State, suffix: string, io: Io, digest: string)
    requires StageHolds(cx, h, suffix, digest) && AfterExpose(cx, h, st, suffix, io).ok
    ensures ValidName(suffix) && FolderHolds(cx, AfterExpose(cx, h, st, suffix, io).host, suffix, digest)
  {
    SuffixIsNoStage(cx.hash, suffix, StageOf(cx, suffix));
    hide Discarded;
  }

  lemma {:induction false} StageWaits(cx: Context, steps: seq<Plans.Step>, turns: seq<Turn>, ps: seq<Progress>,
                                      h0: Host,
                                      j: nat, i: nat, suffix: string, digest: string)
    requires IsRunOf(cx, steps, turns, ps, h0) && j <= i < |ps|
    requires StageHolds(cx, ps[j].host, suffix, digest)
    requires forall k | j <= k < i :: (steps[k].CopyVolume? || steps[k].ExposeCopy?) ==> steps[k].suffix != suffix
    ensures StageHolds(cx, ps[i].host, suffix, digest)
    decreases i
  {
    if j == i {
    } else {
      hide Advance, IsTrace, AfterEvents, Holds, RunStep;
      StageWaits(cx, steps, turns, ps, h0, j, i - 1, suffix, digest);
      RunStepAt(cx, steps, turns, ps, h0, i - 1);
      var p := Mid(ps[i - 1], turns[i - 1]);
      EventsKeepApp(ps[i - 1].host, turns[i - 1].events);
      AdvanceHost(cx, p, steps[i - 1], turns[i - 1].io);
      StepKeepsStage(cx, p.host, p.state, steps[i - 1], turns[i - 1].io, suffix, digest);
    }
  }

  lemma {:induction false} FolderStays(cx: Context, steps: seq<Plans.Step>, turns: seq<Turn>, ps: seq<Progress>,
                                       h0: Host,
                                       j: nat, i: nat, suffix: string, digest: string)
    requires IsRunOf(cx, steps, turns, ps, h0) && j <= i < |ps|
    requires ValidName(suffix) && FolderHolds(cx, ps[j].host, suffix, digest)
    ensures FolderHolds(cx, ps[i].host, suffix, digest)
    decreases i
  {
    if j == i {
    } else {
      hide Advance, IsTrace, AfterEvents, RunStep, ValidName;
      FolderStays(cx, steps, turns, ps, h0, j, i - 1, suffix, digest);
      RunStepAt(cx, steps, turns, ps, h0, i - 1);
      var p := Mid(ps[i - 1], turns[i - 1]);
      EventsKeepApp(ps[i - 1].host, turns[i - 1].events);
      AdvanceHost(cx, p, steps[i - 1], turns[i - 1].io);
      StepKeepsFolder(cx, p.host, p.state, steps[i - 1], turns[i - 1].io, suffix, digest);
    }
  }

  /** The first exposure of a copied suffix comes after its copy and before the rebuild. */
  lemma FirstExposure(o: Outline, j: nat) returns (e: nat)
    requires InOrder(o) && j < |o.steps| && o.steps[j].CopyVolume?
    ensures j < e < o.rebuild && o.steps[e] == ExposeCopy(o.steps[j].suffix)
    ensures forall k | j < k < e ::
              (o.steps[k].CopyVolume? || o.steps[k].ExposeCopy?) ==> o.steps[k].suffix != o.steps[j].suffix
  {
    hide Guarded, Prepared, TemplateOnce, StoppedFirst, RemovedAfterVerified, VerifiedAs, SourcesAgree, TargetsMade;
    var s := o.steps[j].suffix;
    assert o.steps[j] in o.steps;
    e :| 0 <= e < |o.steps| && o.steps[e] == ExposeCopy(s);
    e := LeastExposure(o.steps, s, e);
    assert CopiedBefore(o.steps, e);
    var c :| c in o.steps[..e] && CopyOf(c, s);
    var i :| 0 <= i < e && o.steps[..e][i] == c;
    assert i == j;
  }

  lemma {:induction false} LeastExposure(steps: seq<Plans.Step>, suffix: string, e: nat) returns (least: nat)
    requires e < |steps| && steps[e] == ExposeCopy(suffix)
    ensures least <= e && steps[least] == ExposeCopy(suffix)
    ensures forall k | 0 <= k < least :: steps[k] != ExposeCopy(suffix)
  {
    if k :| 0 <= k < e && steps[k] == ExposeCopy(suffix) {
      least := LeastExposure(steps, suffix, k);
    } else {
      least := e;
    }
  }

  /** From its exposure on, a verified copy stands in its folder. */
  lemma ExposedFolderHolds(cx: Context, h0: Host, o: Outline, turns: seq<Turn>, ps: seq<Progress>,
                           j: nat, k: nat, v: string)
    requires InOrder(o) && IsRunOf(cx, o.steps, turns, ps, h0) && j < k < |ps| - 1 && o.rebuild <= k
    requires o.steps[j].CopyVolume? && CopyMade(cx, o.steps[j], Before(turns, ps, j), ps[j + 1].host, v)
    ensures FolderHolds(cx, Before(turns, ps, k), o.steps[j].suffix,
                        DigestOf(cx, Before(turns, ps, j).volumes[v], false))
  {
    hide InOrder, IsTrace, Advance, AfterEvents, DigestOf, Holds;
    var (s, digest) := (o.steps[j].suffix, DigestOf(cx, Before(turns, ps, j).volumes[v], false));
    var e := FirstExposure(o, j);
    assert StageHolds(cx, ps[j + 1].host, s, digest);
    StageWaits(cx, o.steps, turns, ps, h0, j + 1, e, s, digest);
    RunStepAt(cx, o.steps, turns, ps, h0, e);
    RunStepAt(cx, o.steps, turns, ps, h0, e + 1);
    var p := Mid(ps[e], turns[e]);
    EventsKeepApp(ps[e].host, turns[e].events);
    AdvanceHost(cx, p, o.steps[e], turns[e].io);
    AdvanceOk(cx, p, o.steps[e], turns[e].io);
    hide StageHolds, FolderHolds, AfterExpose;
    assert StageHolds(cx, p.host, s, digest) by { SameAppSameStage(cx, ps[e].host, p.host, s, digest); }
    ExposeMoves(cx, p.host, p.state, s, turns[e].io, digest);
    FolderStays(cx, o.steps, turns, ps, h0, e + 1, k, s, digest);
    EventsKeepApp(ps[k].host, turns[k].events);
    RunStepAt(cx, o.steps, turns, ps, h0, k);
    SameAppSameFolder(cx, ps[k].host, Before(turns, ps, k), s, digest);
  }

  lemma SameAppSameStage(cx: Context, a: Host, b: Host, suffix: string, digest: string)
    requires a.app == b.app
    ensures StageHolds(cx, a, suffix, digest) == StageHolds(cx, b, suffix, digest)
  {
    hide Holds, OpenStage;
  }

  lemma SameAppSameFolder(cx: Context, a: Host, b: Host, suffix: string, digest: string)
    requires a.app == b.app
    ensures FolderHolds(cx, a, suffix, digest) == FolderHolds(cx, b, suffix, digest)
  {}

  /**
   When a volume that is not converted is removed, its copy stands in a folder, with the digest
   the volume still has, exactly if a step copies the volume.
   */
  lemma RemovedCopyIsThere(cx: Context, h0: Host, o: Outline, turns: seq<Turn>, ps: seq<Progress>, k: nat, v: string)
    requires InOrder(o) && o.converted == cx.converted && v !in cx.converted
    requires IsRunOf(cx, o.steps, turns, ps, h0) && GuardAtomic(o.steps, turns) && k < |ps| - 1
    requires v in Before(turns, ps, k).volumes && v !in ps[k + 1].host.volumes
    ensures CopyIsThere(cx, o.steps, Before(turns, ps, k), v) <==> CopyPlanned(o.steps, v)
  {
    hide InOrder, IsTrace, Advance, AfterEvents, DigestOf, CopyMade, FolderHolds, GuardAtomic, VerifiedBefore,
         GuardedRebuild, DroppedByRebuild;
    if CopyPlanned(o.steps, v) {
      var j := RemovedIsKept(cx, h0, o, turns, ps, k, v);
      CopyMadeSource(cx, o.steps[j], Before(turns, ps, j), ps[j + 1].host, v);
      RemovalIsLate(cx, h0, o, turns, ps, j, k, v);
      ExposedFolderHolds(cx, h0, o, turns, ps, j, k, v);
      assert CopyVolume(v, o.steps[j].suffix) in o.steps;
    }
    if CopyIsThere(cx, o.steps, Before(turns, ps, k), v) {
      var suffix :| CopyVolume(v, suffix) in o.steps;
      assert IsCopyOf(CopyVolume(v, suffix), v);
    }
  }

  lemma RemovalIsLate(cx: Context, h0: Host, o: Outline, turns: seq<Turn>, ps: seq<Progress>, j: nat, k: nat, v: string)
    requires InOrder(o) && o.converted == cx.converted && v !in cx.converted && IsRunOf(cx, o.steps, turns, ps, h0)
    requires j < k < |ps| - 1 && IsCopyOf(o.steps[j], v) && (VerifiedBefore(o.steps, k) || GuardedRebuild(o.steps, k))
    ensures o.steps[j].CopyVolume? && o.rebuild <= k
  {
    hide Guarded, Prepared, TemplateOnce, StoppedFirst, ExposedAfterCopied, CopiesDistinct, RemovedAfterVerified,
         VerifiedAs, TargetsMade, IsTrace;
    assert o.steps[j] in o.steps && SourceAgrees(o.steps[j], cx.converted);
  }
}
