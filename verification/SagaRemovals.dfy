/**
 When a run removes a source volume: exactly while the container runs, nobody mounts the volume
 and it is what the run's last copy of it was made of. Said of runs, whoever interferes.
 */
module SagaRemovals {
  import opened Plans
  import opened PlanLaws
  import opened Stages
  import opened Saga
  import opened SagaWrites

  /** Step `j` is the last before `k` that copies `v`. */
  predicate LastCopy(steps: seq<Plans.Step>, j: nat, k: nat, v: string)
    requires k <= |steps|
  {
    j < k && IsCopyOf(steps[j], v) && forall i | j < i < k :: !IsCopyOf(steps[i], v)
  }

  /** At `k` the volume has the digest it had when it was last copied, with extended attributes if `full`. */
  ghost predicate AsCopied(cx: Context, steps: seq<Plans.Step>, turns: seq<Turn>, ps: seq<Progress>, k: nat, v: string,
                           full: bool)
    requires k < |ps| - 1 <= |steps| == |turns|
  {
    && v in Before(turns, ps, k).volumes
    && exists j: nat :: LastCopy(steps, j, k, v) && v in Before(turns, ps, j).volumes
         && SameDigest(cx, Before(turns, ps, j).volumes[v], Before(turns, ps, k).volumes[v], full)
  }

  predicate SameDigest(cx: Context, a: Volume, b: Volume, full: bool) {
    if full
    then cx.digests.full(Dir(a.uid, a.mode, a.entries), a.xattrs)
         == cx.digests.full(Dir(b.uid, b.mode, b.entries), b.xattrs)
    else cx.digests.tree(Dir(a.uid, a.mode, a.entries)) == cx.digests.tree(Dir(b.uid, b.mode, b.entries))
  }

  // ---- The manifest is the last copy's ------------------------------------------------------------

  lemma {:induction false} LastCopyExists(steps: seq<Plans.Step>, j: nat, k: nat, v: string) returns (last: nat)
    requires j < k <= |steps| && IsCopyOf(steps[j], v)
    ensures LastCopy(steps, last, k, v)
    decreases k
  {
    if IsCopyOf(steps[k - 1], v) {
      last := k - 1;
    } else {
      last := LastCopyExists(steps, j, k - 1, v);
    }
  }

  lemma {:induction false} ManifestIsLastCopy(cx: Context, steps: seq<Plans.Step>, turns: seq<Turn>, ps: seq<Progress>,
                                              h0: Host, j: nat, k: nat, v: string)
    requires IsRunOf(cx, steps, turns, ps, h0) && k < |ps| - 1 && LastCopy(steps, j, k, v)
    ensures v in Before(turns, ps, j).volumes && v in ps[k].state.manifests
    ensures ps[k].state.manifests[v] == DigestOf(cx, Before(turns, ps, j).volumes[v], steps[j].CopyIntoVolume?)
    decreases k
  {
    hide Advance, IsTrace, CopyMade, DigestOf, AfterEvents;
    RunStepAt(cx, steps, turns, ps, h0, k - 1);
    RunStepAt(cx, steps, turns, ps, h0, k);
    StepManifests(cx, Mid(ps[k - 1], turns[k - 1]), steps[k - 1], turns[k - 1].io);
    if j < k - 1 {
      ManifestIsLastCopy(cx, steps, turns, ps, h0, j, k - 1, v);
    } else {
      CopyMadeSource(cx, steps[j], Before(turns, ps, j), ps[j + 1].host, v);
    }
  }

  /** A source of the kind compared has a manifest of just its last copy, or was never copied. */
  lemma SameIffAsCopied(cx: Context, h0: Host, o: Outline, turns: seq<Turn>, ps: seq<Progress>, k: nat, v: string,
                        full: bool)
    requires InOrder(o) && o.converted == cx.converted && full == (v in cx.converted)
    requires IsRunOf(cx, o.steps, turns, ps, h0) && k < |ps| - 1
    ensures ChangedSinceCopy(cx, Before(turns, ps, k), ps[k].state, v, full, true) == Same
       <==> AsCopied(cx, o.steps, turns, ps, k, v, full)
  {
    hide InOrder, IsTrace, AfterEvents;
    var h := Before(turns, ps, k);
    if v in ps[k].state.manifests {
      var i := ManifestHasCopy(cx, o.steps, turns, ps, h0, k, v);
      assert IsCopyOf(o.steps[i], v);
      var j := LastCopyExists(o.steps, i, k, v);
    }
    forall j: nat | LastCopy(o.steps, j, k, v)
      ensures v in Before(turns, ps, j).volumes && v in ps[k].state.manifests
      ensures v in h.volumes ==> (DigestOf(cx, h.volumes[v], full) == ps[k].state.manifests[v]
                                  <==> SameDigest(cx, Before(turns, ps, j).volumes[v], h.volumes[v], full))
    {
      ManifestIsLastCopy(cx, o.steps, turns, ps, h0, j, k, v);
      CopyKind(o, j, v);
    }
  }

  lemma CopyKind(o: Outline, j: nat, v: string)
    requires InOrder(o) && j < |o.steps| && IsCopyOf(o.steps[j], v)
    ensures o.steps[j].CopyIntoVolume? <==> v in o.converted
  {
    hide Framed, Guarded, Prepared, TemplateOnce, StoppedFirst, ExposedAfterCopied, CopiesDistinct,
         RemovedAfterVerified, VerifiedAs, TargetsMade;
    assert o.steps[j] in o.steps && SourceAgrees(o.steps[j], o.converted);
  }

  // ---- A migrated volume ----------------------------------------------------------------------------

  /**
   A step that is to remove a migrated volume, its calls going through: the volume goes exactly
   if the container runs, nobody mounts the volume and it is as copied. Otherwise it stays, and
   with the container not running or the volume changed that is no failure.
   */
  lemma MigratedGoesIff(cx: Context, h0: Host, o: Outline, turns: seq<Turn>, ps: seq<Progress>, k: nat, v: string)
    requires InOrder(o) && o.converted == cx.converted && IsRunOf(cx, o.steps, turns, ps, h0) && k < |ps| - 1
    requires o.steps[k] == RemoveVolume(v) && v in Before(turns, ps, k).volumes
    requires turns[k].io.seen && turns[k].io.probed && turns[k].io.ok
    ensures var (h, after) := (Before(turns, ps, k), ps[k + 1].host);
            && (v !in after.volumes
                <==> h.running && v !in h.mounted && AsCopied(cx, o.steps, turns, ps, k, v, false))
            && after == h.(volumes := if v in after.volumes then h.volumes else h.volumes - {v})
            && (ps[k + 1].ok
                <==> v !in after.volumes || !h.running || !AsCopied(cx, o.steps, turns, ps, k, v, false))
  {
    hide InOrder, IsTrace, AfterEvents, AsCopied, DigestOf;
    RunStepAt(cx, o.steps, turns, ps, h0, k);
    SourceOfRemoval(o, k, v);
    SameIffAsCopied(cx, h0, o, turns, ps, k, v, false);
    var p := Mid(ps[k], turns[k]);
    AdvanceHost(cx, p, o.steps[k], turns[k].io);
    AdvanceOk(cx, p, o.steps[k], turns[k].io);
    hide Advance;
    SinceIsKnown(cx, p.host, p.state, v, false);
  }

  lemma SourceOfRemoval(o: Outline, k: nat, v: string)
    requires InOrder(o) && k < |o.steps|
    ensures o.steps[k] == RemoveVolume(v) ==> v !in o.converted
    ensures o.steps[k].RemoveOwnAnonymousVolumes? && v in o.steps[k].candidates ==> v in o.converted
  {
    hide Framed, Guarded, Prepared, TemplateOnce, StoppedFirst, ExposedAfterCopied, CopiesDistinct,
         RemovedAfterVerified, VerifiedAs, TargetsMade;
    assert o.steps[k] in o.steps && SourceAgrees(o.steps[k], o.converted);
  }

  lemma SinceIsKnown(cx: Context, h: Host, st: State, v: string, full: bool)
    ensures v in h.volumes ==> ChangedSinceCopy(cx, h, st, v, full, true) != Unreadable
  {}

  /** And whatever the host answers, a migrated volume goes only then. */
  lemma MigratedGoesOnlyRunning(cx: Context, h0: Host, o: Outline, turns: seq<Turn>, ps: seq<Progress>, k: nat,
                                v: string)
    requires InOrder(o) && o.converted == cx.converted && IsRunOf(cx, o.steps, turns, ps, h0) && k < |ps| - 1
    requires o.steps[k].RemoveVolume? && v in Before(turns, ps, k).volumes && v !in ps[k + 1].host.volumes
    ensures o.steps[k].volume == v && Before(turns, ps, k).running && v !in Before(turns, ps, k).mounted
    ensures AsCopied(cx, o.steps, turns, ps, k, v, false)
  {
    hide InOrder, IsTrace, AfterEvents, AsCopied, DigestOf;
    RunStepAt(cx, o.steps, turns, ps, h0, k);
    var p := Mid(ps[k], turns[k]);
    AdvanceHost(cx, p, o.steps[k], turns[k].io);
    hide Advance;
    SourceOfRemoval(o, k, v);
    SameIffAsCopied(cx, h0, o, turns, ps, k, v, false);
  }

  // ---- Converted volumes --------------------------------------------------------------------------------

  /** Every call of the walk goes through. */
  predicate WalkAnswers(each: string -> RemoveIo, candidates: seq<string>) {
    forall v | v in candidates :: each(v).listed && each(v).readable && each(v).removed
  }

  /** The walk takes exactly the candidates there, unmounted and unchanged. */
  lemma {:induction false} WalkTakes(cx: Context, h: Host, st: State, candidates: seq<string>, each: string -> RemoveIo)
    requires WalkAnswers(each, candidates)
    ensures var (volumes, ok) := Walk(cx, h, st, candidates, each);
            && ok
            && (forall v :: v in volumes <==>
                  v in h.volumes && !(v in candidates && v !in h.mounted
                                      && ChangedSinceCopy(cx, h, st, v, true, true) == Same))
            && (forall v | v in volumes :: volumes[v] == h.volumes[v])
    decreases |candidates|
  {
    hide DigestOf;
    if candidates == [] {
    } else {
      var (c, rest) := (candidates[0], candidates[1..]);
      assert candidates == [c] + rest;
      WalkTakes(cx, h, st, rest, each);
      WalkTakes(cx, h.(volumes := h.volumes - {c}), st, rest, each);
      forall v | v != c
        ensures ChangedSinceCopy(cx, h.(volumes := h.volumes - {c}), st, v, true, true)
             == ChangedSinceCopy(cx, h, st, v, true, true)
      {
      }
    }
  }

  /** The same of the volumes that were converted, all at once and whether the container runs or not. */
  lemma ConvertedGoIff(cx: Context, h0: Host, o: Outline, turns: seq<Turn>, ps: seq<Progress>, k: nat, v: string)
    requires InOrder(o) && o.converted == cx.converted && IsRunOf(cx, o.steps, turns, ps, h0) && k < |ps| - 1
    requires o.steps[k].RemoveOwnAnonymousVolumes? && v in Before(turns, ps, k).volumes
    requires turns[k].io.seen && WalkAnswers(turns[k].io.each, o.steps[k].candidates)
    ensures var (h, after) := (Before(turns, ps, k), ps[k + 1].host);
            && ps[k + 1].ok && after == h.(volumes := after.volumes)
            && (v !in after.volumes <==> v in o.steps[k].candidates && v !in h.mounted
                                         && AsCopied(cx, o.steps, turns, ps, k, v, true))
            && (v in after.volumes ==> after.volumes[v] == h.volumes[v])
  {
    hide InOrder, IsTrace, AfterEvents, AsCopied, DigestOf, ChangedSinceCopy, Walk;
    RunStepAt(cx, o.steps, turns, ps, h0, k);
    var p := Mid(ps[k], turns[k]);
    AdvanceHost(cx, p, o.steps[k], turns[k].io);
    AdvanceOk(cx, p, o.steps[k], turns[k].io);
    hide Advance;
    SourceOfRemoval(o, k, v);
    if v in o.steps[k].candidates { SameIffAsCopied(cx, h0, o, turns, ps, k, v, true); }
    WalkTakes(cx, p.host, p.state, o.steps[k].candidates, turns[k].io.each);
  }

  /** And whatever the host answers, a volume goes there only then. */
  lemma ConvertedGoesOnlyUnmounted(cx: Context, h0: Host, o: Outline, turns: seq<Turn>, ps: seq<Progress>, k: nat,
                                   v: string)
    requires InOrder(o) && o.converted == cx.converted && IsRunOf(cx, o.steps, turns, ps, h0) && k < |ps| - 1
    requires o.steps[k].RemoveOwnAnonymousVolumes?
    requires v in Before(turns, ps, k).volumes && v !in ps[k + 1].host.volumes
    ensures v in o.steps[k].candidates && v !in Before(turns, ps, k).mounted
    ensures AsCopied(cx, o.steps, turns, ps, k, v, true)
  {
    hide InOrder, IsTrace, AfterEvents, AsCopied, DigestOf, ChangedSinceCopy, Walk;
    RunStepAt(cx, o.steps, turns, ps, h0, k);
    var p := Mid(ps[k], turns[k]);
    AdvanceHost(cx, p, o.steps[k], turns[k].io);
    hide Advance;
    WalkRemoves(cx, p.host, p.state, o.steps[k].candidates, turns[k].io.each, v);
    WalkSparesMounted(cx, p.host, p.state, o.steps[k].candidates, turns[k].io.each, v);
    SourceOfRemoval(o, k, v);
    SameIffAsCopied(cx, h0, o, turns, ps, k, v, true);
  }

  lemma {:induction false} WalkSparesMounted(cx: Context, h: Host, st: State, candidates: seq<string>,
                                             each: string -> RemoveIo, v: string)
    requires v in h.volumes && v !in Walk(cx, h, st, candidates, each).0
    ensures v !in h.mounted
    decreases |candidates|
  {
    var (c, rest) := (candidates[0], candidates[1..]);
    if v !in Walk(cx, h, st, rest, each).0 {
      WalkSparesMounted(cx, h, st, rest, each, v);
    } else if c != v {
      WalkSparesMounted(cx, h.(volumes := h.volumes - {c}), st, rest, each, v);
    }
  }
}
