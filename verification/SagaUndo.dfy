/**
 Compensation: when a step before the rebuild fails and every compensation succeeds, the
 host is as it was, whatever the plan, the run's answers, the point of failure, and what
 others did to the container and its volumes meanwhile.
 */
module SagaUndo {
  import opened Wrappers
  import opened Text
  import opened Names
  import Docker
  import opened Plans
  import opened PlanLaws
  import opened Stages
  import opened Saga
  import opened Templates
  import opened HostAutostart

  // ---- What each early step leaves alone --------------------------------------------------

  lemma FilesFrame(cx: Context, h: Host, st: State, step: Plans.Step, io: Io)
    requires IsEarly(step) && !step.SaveInspect? && !step.WriteTemplate?
    ensures RunStep(cx, h, st, step, io).host.files == h.files
  {
    hide Created, Filled, Exposed, Written, HostAutostart.AfterWrite, AllUnchanged, CreateOk, Holds, CopyVerified;
  }

  lemma ListingFrame(cx: Context, h: Host, st: State, step: Plans.Step, io: Io)
    requires IsEarly(step) && !step.SetAutostart?
    ensures RunStep(cx, h, st, step, io).host.listing == h.listing
  {
    hide Created, Filled, Exposed, Written, HostAutostart.AfterWrite, AllUnchanged, CreateOk, Holds, CopyVerified;
  }

  lemma RunningFrame(cx: Context, h: Host, st: State, step: Plans.Step, io: Io)
    requires IsEarly(step)
    ensures var o := RunStep(cx, h, st, step, io);
            o.host.running == if step.Stop? && o.ok then false else h.running
  {
    hide Created, Filled, Exposed, Written, HostAutostart.AfterWrite, AllUnchanged, CreateOk, Holds, CopyVerified;
  }

  lemma AppFrame(cx: Context, h: Host, st: State, step: Plans.Step, io: Io)
    requires IsEarly(step) && !step.CopyVolume? && !step.ExposeCopy?
    ensures RunStep(cx, h, st, step, io).host.app == h.app
  {
    hide Created, Filled, Exposed, Written, HostAutostart.AfterWrite, AllUnchanged, CreateOk, Holds, CopyVerified;
  }

  lemma VolumesFrame(cx: Context, h: Host, st: State, step: Plans.Step, io: Io)
    requires IsEarly(step) && !step.CreateVolume?
    ensures var o := RunStep(cx, h, st, step, io);
            (step.CopyIntoVolume? || o.host.volumes == h.volumes) && o.state.created == st.created
  {
    hide Created, Filled, Exposed, Written, HostAutostart.AfterWrite, AllUnchanged, CreateOk, Holds, CopyVerified;
  }

  // ---- The template -----------------------------------------------------------------------------

  /** What the run saved of the original template. */
  predicate SavedOriginal(cx: Context, f0: Files, f: Files) {
    var (path, bak, sentinel) := (TemplatePath(cx.name),
                                  BackupPath(cx.name, cx.runId), NoneSentinel(cx.name, cx.runId));
    if path in f0 then bak in f && f[bak] == f0[path] else bak !in f && sentinel in f
  }

  predicate TemplateKept(cx: Context, f0: Files, f: Files, written: bool, ok: bool) {
    if written then SavedOriginal(cx, f0, f)
    else SameAt(f0, f, TemplatePath(cx.name)) && (ok ==> Unused(f, cx.name, cx.runId))
  }

  lemma InspectPathOnly(cx: Context, h: Host, st: State, json: string, io: Io, path: string)
    ensures path != InspectPath(cx.name, cx.runId) ==>
              SameAt(h.files, AfterSaveInspect(cx, h, st, json, io).host.files, path)
  {
    hide InspectPath;
  }

  lemma InspectKeepsTemplate(cx: Context, f0: Files, h: Host, st: State, json: string, io: Io, written: bool)
    requires ValidRunId(cx.runId) && TemplateKept(cx, f0, h.files, written, true)
    ensures TemplateKept(cx, f0, AfterSaveInspect(cx, h, st, json, io).host.files, written, true)
  {
    hide ValidRunId, TemplatePath, BackupPath, NoneSentinel, InspectPath, FirstBytes;
    InspectPathOnly(cx, h, st, json, io, TemplatePath(cx.name));
    InspectPathOnly(cx, h, st, json, io, BackupPath(cx.name, cx.runId));
    InspectPathOnly(cx, h, st, json, io, NoneSentinel(cx.name, cx.runId));
    hide AfterSaveInspect;
    InspectApart(cx.name, cx.runId, cx.name, cx.runId);
  }

  lemma WriteKeepsTemplate(cx: Context, f0: Files, h: Host, st: State, xml: string, io: Io)
    requires TemplateKept(cx, f0, h.files, false, true)
    ensures var o := AfterTemplate(cx, h, st, xml, io);
            TemplateKept(cx, f0, o.host.files, o.ok, o.ok)
  {
    hide ValidRunId, TemplatePath, BackupPath, NoneSentinel;
    if ValidRunId(cx.runId) { PathsApart(cx.name, cx.runId, cx.name, cx.runId); }
  }

  lemma UndoTemplateRestores(cx: Context, f0: Files, h: Host, written: bool, io: UndoIo)
    requires ValidRunId(cx.runId) && TemplateKept(cx, f0, h.files, written, false)
    requires UndoTemplate(cx, h, written, io).1
    ensures SameAt(f0, UndoTemplate(cx, h, written, io).0.files, TemplatePath(cx.name))
    ensures UndoTemplate(cx, h, written, io).0 == h.(files := UndoTemplate(cx, h, written, io).0.files)
  {
    hide ValidRunId, TemplatePath, BackupPath, NoneSentinel, Managed;
    PathsApart(cx.name, cx.runId, cx.name, cx.runId);
  }

  // ---- The autostart list --------------------------------------------------------------------------

  ghost predicate OthersListed(cx: Context, l0: string, l: string) {
    forall n | n != cx.name :: n in ParseAutostart(l) <==> n in ParseAutostart(l0)
  }

  ghost predicate ListingKept(cx: Context, l0: string, l: string, changed: bool) {
    OthersListed(cx, l0, l) && (!changed ==> l == l0)
  }

  lemma ListingStep(cx: Context, l0: string, h: Host, st: State, on: bool, io: Io, changed: bool)
    requires ListingKept(cx, l0, h.listing, changed)
    ensures ListingKept(cx, l0, AfterListing(cx, h, st, on, io).host.listing, true)
  {
    hide ParseAutostart, AutostartWith, ValidName;
    if ValidName(cx.name) {
      ValidNameIsWord(cx.name);
      AutostartReadsBack(h.listing, cx.name, on);
    }
  }

  lemma UndoListingRestores(cx: Context, l0: string, h: Host, changed: bool, io: UndoIo)
    requires ValidName(cx.name) && ListingKept(cx, l0, h.listing, changed)
    requires cx.listedBefore == (cx.name in ParseAutostart(l0)) && UndoListing(cx, h, changed, io).1
    ensures var after := UndoListing(cx, h, changed, io).0;
            && after == h.(listing := after.listing)
            && forall n :: n in ParseAutostart(after.listing) <==> n in ParseAutostart(l0)
  {
    hide ParseAutostart, AutostartWith, ValidName;
    ValidNameIsWord(cx.name);
    AutostartReadsBack(h.listing, cx.name, cx.listedBefore);
  }

  // ---- The appdata directory --------------------------------------------------------------------------

  predicate IsExposedCopy(copies: seq<string>, n: string) {
    n in copies
  }

  predicate IsOpenStage(cx: Context, copies: seq<string>, exposed: seq<string>, n: string) {
    exists s | s in copies :: s !in exposed && n == StageName(cx.hash, StageOf(cx, s))
  }

  predicate IsLeftStage(cx: Context, left: Option<string>, n: string) {
    left.Some? && n == StageName(cx.hash, StageOf(cx, left.value))
  }

  function Known(copies: seq<string>, left: Option<string>): seq<string> {
    if left.Some? then copies + [left.value] else copies
  }

  /**
   Everything there before is there; what is new is a copy's stage, an exposed copy, or
   the stage a failed copy left.
   */
  ghost predicate AppKept(cx: Context, a0: Entries, a: Entries, copies: seq<string>, exposed: seq<string>,
                          ok: bool, left: Option<string>)
  {
    && (forall n | n in a0 :: n in a && a[n] == a0[n])
    && (forall n | n in a && n !in a0 ::
          IsExposedCopy(copies, n) || IsOpenStage(cx, copies, exposed, n) || IsLeftStage(cx, left, n))
    && StagesKnown(cx, a0, a, Known(copies, left))
    && (forall s | s in copies :: ValidName(s))
    && (forall s | s in exposed :: s in copies && s in a)
    && (ok ==> forall s | s in copies && s !in exposed :: Holds(cx.hash, a, StageOf(cx, s)))
    && LeftStageIs(cx, a0, a, copies, left)
  }

  /** The stage a failed copy left is there, and passes no other check than that copy's. */
  ghost predicate LeftStageIs(cx: Context, a0: Entries, a: Entries, copies: seq<string>, left: Option<string>) {
    left.Some? ==>
      var n := StageName(cx.hash, StageOf(cx, left.value));
      && left.value !in copies && n in a && n !in a0
      && forall s | Holds(cx.hash, a, StageOf(cx, s)) && StageName(cx.hash, StageOf(cx, s)) == n :: s == left.value
  }

  /** A stage this run would take for its own is one of its copies', made by it, or the one left. */
  ghost predicate StagesKnown(cx: Context, a0: Entries, a: Entries, copies: seq<string>) {
    forall s :: Holds(cx.hash, a, StageOf(cx, s)) ==> StageKnown(cx, a0, copies, s)
  }

  predicate StageKnown(cx: Context, a0: Entries, copies: seq<string>, s: string) {
    s in copies && StageName(cx.hash, StageOf(cx, s)) !in a0
  }

  /** An operation on a known stage keeps what was there, and makes no stage. */
  lemma OpKeepsStages(cx: Context, a0: Entries, a: Entries, copies: seq<string>, op: Stages.Op)
    requires op.p == StageOf(cx, op.p.suffix) && !op.Create?
    requires StagesKnown(cx, a0, a, copies) && forall n | n in a0 :: n in a && a[n] == a0[n]
    ensures var after := Stages.Step(cx.hash, cx.digests.tree, a, op);
            && StagesKnown(cx, a0, after, copies)
            && forall n | n in a0 :: n in after && after[n] == a0[n]
  {
    hide Holds, Stages.Step, StageName;
    var after := Stages.Step(cx.hash, cx.digests.tree, a, op);
    forall s | Holds(cx.hash, after, StageOf(cx, s)) ensures StageKnown(cx, a0, copies, s) {
      StepMakesOwnStage(cx.hash, cx.digests.tree, a, op, StageOf(cx, s));
    }
    forall n | n in a0 ensures n in after && after[n] == a0[n] {
      if n != StageName(cx.hash, op.p) {
        Stages.StepFrame(cx.hash, cx.digests.tree, a, op, n);
      } else {
        assert !Holds(cx.hash, a, StageOf(cx, op.p.suffix));
        StepNeedsOwnStage(cx.hash, cx.digests.tree, a, op);
      }
    }
  }

  lemma ExposeKeepsApp(cx: Context, a0: Entries, h: Host, st: State, suffix: string, io: Io,
                       copies: seq<string>, exposed: seq<string>)
    requires AppKept(cx, a0, h.app, copies, exposed, true, None)
    ensures var o := AfterExpose(cx, h, st, suffix, io);
            AppKept(cx, a0, o.host.app, copies, if o.ok then exposed + [suffix] else exposed, o.ok, None)
  {
    hide Holds, StageName, ValidName, Exposed;
    var o := AfterExpose(cx, h, st, suffix, io);
    var after := o.host.app;
    var op := Expose(StageOf(cx, suffix), io.expose);
    assert after == Stages.Step(cx.hash, cx.digests.tree, h.app, op);
    OpKeepsStages(cx, a0, h.app, copies, op);
    var exposed' := if o.ok then exposed + [suffix] else exposed;
    if o.ok {
      ExposedIsThere(cx.hash, h.app, StageOf(cx, suffix), io.expose);
      assert StageKnown(cx, a0, copies, suffix);
    }
    forall s | s in exposed ensures s in copies && s in after {
      SuffixIsNoStage(cx.hash, s, op.p);
      Stages.StepFrame(cx.hash, cx.digests.tree, h.app, op, s);
    }
    if o.ok {
      forall s | s in copies && s !in exposed' ensures Holds(cx.hash, after, StageOf(cx, s)) {
        StageStaysHeld(cx, h.app, op, s);
      }
    }
    forall n | n in after && n !in a0 ensures IsExposedCopy(copies, n) || IsOpenStage(cx, copies, exposed', n) {
      if n in h.app && !IsExposedCopy(copies, n) {
        var s :| s in copies && s !in exposed && n == StageName(cx.hash, StageOf(cx, s));
        assert s !in exposed';
      } else if n !in h.app {
        NewNames(cx, h.app, op, n);
        assert Holds(cx.hash, h.app, StageOf(cx, suffix)) ==> StageKnown(cx, a0, copies, suffix);
      }
    }
  }

  lemma StageStaysHeld(cx: Context, a: Entries, op: Stages.Op, s: string)
    requires Holds(cx.hash, a, StageOf(cx, s)) && op.p != StageOf(cx, s)
    ensures Holds(cx.hash, Stages.Step(cx.hash, cx.digests.tree, a, op), StageOf(cx, s))
    ensures OpenStage(cx.hash, Stages.Step(cx.hash, cx.digests.tree, a, op), StageOf(cx, s))
         == OpenStage(cx.hash, a, StageOf(cx, s))
  {
    hide Stages.Step;
    StepKeepsOthersStage(cx.hash, cx.digests.tree, a, op, StageOf(cx, s));
  }

  lemma ExposedIsThere(hash: Hash, a: Entries, p: Pair, io: ExposeIo)
    requires Holds(hash, a, p) && StageName(hash, p) !in Exposed(hash, a, p, io)
    ensures p.suffix in Exposed(hash, a, p, io)
  {
    SuffixIsNoStage(hash, p.suffix, p);
  }

  /** The only name an operation on an existing stage can add is the destination it exposes. */
  lemma NewNames(cx: Context, a: Entries, op: Stages.Op, n: string)
    requires !op.Create? && n !in a && n in Stages.Step(cx.hash, cx.digests.tree, a, op)
    ensures op.Expose? && n == op.p.suffix && Holds(cx.hash, a, op.p)
  {
    if n != StageName(cx.hash, op.p) {
      Stages.StepFrame(cx.hash, cx.digests.tree, a, op, n);
    }
  }

  /**
   A copy that fails and leaves its stage: made, but not to the end, or filled with what does
   not verify and then not wholly discarded.
   */
  predicate CopyLeavesStage(cx: Context, h: Host, volume: string, suffix: string, io: Io) {
    var p := StageOf(cx, suffix);
    && io.ok && ValidName(cx.name) && !h.running && volume in h.volumes
    && ValidPair(p) && suffix !in h.app && StageName(cx.hash, p) !in h.app && io.create.made
    && if !io.create.confirmed then true
       else
         match io.create.token
         case NotCreated => !io.create.undone
         case Partly(_) => true
         case Synced =>
           && !CopyVerified(cx.digests.tree, Root(h.volumes[volume]), io.copy)
           && Discarded(StageAfterCp(map[STAGE_TOKEN := File(Token(p))], io.copy), io.copy.discard).Some?
  }

  /** A failed copy leaves its stage exactly under that condition, and touches nothing else. */
  lemma FailedCopyLeaves(cx: Context, h: Host, st: State, volume: string, suffix: string, io: Io)
    requires !AfterCopy(cx, h, st, volume, suffix, io).ok
    ensures var (after, n) := (AfterCopy(cx, h, st, volume, suffix, io).host.app,
                               StageName(cx.hash, StageOf(cx, suffix)));
            if CopyLeavesStage(cx, h, volume, suffix, io)
            then n !in h.app && n in after && after == h.app[n := after[n]]
            else after == h.app
  {
    hide ValidName, ValidNonce, Token, StageName, Discarded, StageAfterCp;
    var (p, n) := (StageOf(cx, suffix), StageName(cx.hash, StageOf(cx, suffix)));
    if CreateOk(cx.hash, h.app, p, io.create) {
      assert Created(cx.hash, h.app, p, io.create) == h.app[n := StageDir(map[STAGE_TOKEN := File(Token(p))])];
      assert h.app[n := StageDir(map[STAGE_TOKEN := File(Token(p))])] - {n} == h.app;
    }
  }

  lemma CopyLeavingFails(cx: Context, h: Host, st: State, volume: string, suffix: string, io: Io)
    requires CopyLeavesStage(cx, h, volume, suffix, io)
    ensures !AfterCopy(cx, h, st, volume, suffix, io).ok
  {
    hide ValidName, ValidNonce, Token, StageName, Discarded, StageAfterCp, Created, Filled;
  }

  function LeftStage(cx: Context, h: Host, volume: string, suffix: string, io: Io): Option<string> {
    if CopyLeavesStage(cx, h, volume, suffix, io) then Some(suffix) else None
  }

  lemma CopyKeepsApp(cx: Context, a0: Entries, h: Host, st: State, volume: string, suffix: string, io: Io,
                     copies: seq<string>, exposed: seq<string>)
    requires AppKept(cx, a0, h.app, copies, exposed, true, None)
    ensures var o := AfterCopy(cx, h, st, volume, suffix, io);
            AppKept(cx, a0, o.host.app, if o.ok then copies + [suffix] else copies, exposed, o.ok,
                    LeftStage(cx, h, volume, suffix, io))
  {
    hide AppKept, CopyLeavesStage;
    var o := AfterCopy(cx, h, st, volume, suffix, io);
    if o.ok {
      if CopyLeavesStage(cx, h, volume, suffix, io) { CopyLeavingFails(cx, h, st, volume, suffix, io); }
      GoodCopyKeepsApp(cx, a0, h, st, volume, suffix, io, copies, exposed);
    } else {
      FailedCopyLeaves(cx, h, st, volume, suffix, io);
      if CopyLeavesStage(cx, h, volume, suffix, io) {
        LeavingCopyKeepsApp(cx, a0, h, st, volume, suffix, io, copies, exposed);
      } else {
        WeakerAppKept(cx, a0, h.app, copies, exposed);
      }
    }
  }

  lemma WeakerAppKept(cx: Context, a0: Entries, a: Entries, copies: seq<string>, exposed: seq<string>)
    requires AppKept(cx, a0, a, copies, exposed, true, None)
    ensures AppKept(cx, a0, a, copies, exposed, false, None)
  {}

  lemma GoodCopyKeepsApp(cx: Context, a0: Entries, h: Host, st: State, volume: string, suffix: string, io: Io,
                         copies: seq<string>, exposed: seq<string>)
    requires AppKept(cx, a0, h.app, copies, exposed, true, None)
    requires AfterCopy(cx, h, st, volume, suffix, io).ok
    ensures AppKept(cx, a0, AfterCopy(cx, h, st, volume, suffix, io).host.app, copies + [suffix], exposed, true, None)
  {
    GoodCopyParts(cx, h, st, volume, suffix, io);
    hide Holds, StageName, ValidName, Created, Filled, AfterCopy, CreateOk, CopyVerified, Root, AppKept;
    GoodCopyInApp(cx, a0, h.app, suffix, Root(h.volumes[volume]), io, copies, exposed);
  }

  lemma GoodCopyInApp(cx: Context, a0: Entries, a: Entries, suffix: string, src: Node, io: Io, copies: seq<string>,
                      exposed: seq<string>)
    requires AppKept(cx, a0, a, copies, exposed, true, None)
    requires CreateOk(cx.hash, a, StageOf(cx, suffix), io.create) && CopyVerified(cx.digests.tree, src, io.copy)
    ensures var p := StageOf(cx, suffix);
            AppKept(cx, a0, Filled(cx.hash, cx.digests.tree, Created(cx.hash, a, p, io.create), p, src, io.copy),
                    copies + [suffix], exposed, true, None)
  {
    hide Holds, StageName, ValidName, Created, Filled, CreateOk, CopyVerified, StagesKnown, IsOpenStage, IsExposedCopy;
    var p := StageOf(cx, suffix);
    var after := Filled(cx.hash, cx.digests.tree, Created(cx.hash, a, p, io.create), p, src, io.copy);
    CopyShape(cx, a, p, src, io);
    CreateNeedsFree(cx, a, p, io);
    GoodCopyStages(cx, a0, a, p, src, io, copies, exposed);
    NoneIsLeft(cx, copies, exposed, a, a0);
    NewStageIsOpen(cx, a0, a, after, suffix, copies, exposed);
  }

  lemma NoneIsLeft(cx: Context, copies: seq<string>, exposed: seq<string>, a: Entries, a0: Entries)
    ensures forall n :: !IsLeftStage(cx, None, n)
  {}

  lemma GoodCopyParts(cx: Context, h: Host, st: State, volume: string, suffix: string, io: Io)
    requires AfterCopy(cx, h, st, volume, suffix, io).ok
    ensures var p := StageOf(cx, suffix);
            && volume in h.volumes && CreateOk(cx.hash, h.app, p, io.create)
            && var src := Root(h.volumes[volume]);
               && CopyVerified(cx.digests.tree, src, io.copy)
               && AfterCopy(cx, h, st, volume, suffix, io).host.app
                  == Filled(cx.hash, cx.digests.tree, Created(cx.hash, h.app, p, io.create), p, src, io.copy)
  {
    hide Created, Filled, CreateOk, CopyVerified;
  }

  /** After a verified copy the run's stages are its copies', all of them held. */
  lemma GoodCopyStages(cx: Context, a0: Entries, a: Entries, p: Pair, src: Node, io: Io, copies: seq<string>,
                       exposed: seq<string>)
    requires CreateOk(cx.hash, a, p, io.create) && CopyVerified(cx.digests.tree, src, io.copy)
    requires p == StageOf(cx, p.suffix)
    requires StagesKnown(cx, a0, a, copies) && forall n | n in a0 :: n in a
    requires forall s | s in copies && s !in exposed :: Holds(cx.hash, a, StageOf(cx, s))
    ensures var after := Filled(cx.hash, cx.digests.tree, Created(cx.hash, a, p, io.create), p, src, io.copy);
            && StagesKnown(cx, a0, after, copies + [p.suffix])
            && forall s | s in copies + [p.suffix] && s !in exposed :: Holds(cx.hash, after, StageOf(cx, s))
  {
    CopyIsHeld(cx, a, p, src, io);
    CreateNeedsFree(cx, a, p, io);
    hide Holds, StageName, Created, Filled, CreateOk, CopyVerified;
    var after := Filled(cx.hash, cx.digests.tree, Created(cx.hash, a, p, io.create), p, src, io.copy);
    forall s | Holds(cx.hash, after, StageOf(cx, s)) ensures StageKnown(cx, a0, copies + [p.suffix], s) {
      CopyMakesOwnStage(cx, a, p, src, io, StageOf(cx, s));
    }
    forall s | s in copies + [p.suffix] && s !in exposed ensures Holds(cx.hash, after, StageOf(cx, s)) {
      if s != p.suffix { CopyKeepsHeld(cx, a, p, src, io, s); }
    }
  }

  lemma CopyIsHeld(cx: Context, a: Entries, p: Pair, src: Node, io: Io)
    requires CreateOk(cx.hash, a, p, io.create) && CopyVerified(cx.digests.tree, src, io.copy)
    ensures Holds(cx.hash, Filled(cx.hash, cx.digests.tree, Created(cx.hash, a, p, io.create), p, src, io.copy), p)
  {
    var made := Created(cx.hash, a, p, io.create);
    CreatedHolds(cx.hash, a, p, io.create);
    hide Created;
    VerifiedFill(cx.hash, cx.digests.tree, made, Fill(p, src, io.copy));
  }

  lemma CreateNeedsFree(cx: Context, a: Entries, p: Pair, io: Io)
    requires CreateOk(cx.hash, a, p, io.create)
    ensures p.suffix !in a && StageName(cx.hash, p) !in a
  {}

  lemma NewStageIsOpen(cx: Context, a0: Entries, a: Entries, after: Entries, suffix: string,
                       copies: seq<string>, exposed: seq<string>)
    requires forall n | n in a && n !in a0 :: IsExposedCopy(copies, n) || IsOpenStage(cx, copies, exposed, n)
    requires suffix !in exposed
    requires forall n | n in after && n != StageName(cx.hash, StageOf(cx, suffix)) :: n in a
    ensures forall n | n in after && n !in a0 ::
              IsExposedCopy(copies + [suffix], n) || IsOpenStage(cx, copies + [suffix], exposed, n)
  {
    hide StageName;
    assert suffix in copies + [suffix];
    forall n | n in after && n !in a0 && n != StageName(cx.hash, StageOf(cx, suffix)) && !IsExposedCopy(copies, n)
      ensures IsOpenStage(cx, copies + [suffix], exposed, n)
    {
      var s :| s in copies && s !in exposed && n == StageName(cx.hash, StageOf(cx, s));
      assert s in copies + [suffix];
    }
  }

  lemma CopyKeepsHeld(cx: Context, a: Entries, p: Pair, src: Node, io: Io, s: string)
    requires Holds(cx.hash, a, StageOf(cx, s)) && p != StageOf(cx, s)
    ensures Holds(cx.hash, Filled(cx.hash, cx.digests.tree, Created(cx.hash, a, p, io.create), p, src, io.copy),
                  StageOf(cx, s))
  {
    hide Holds, Created, Filled;
    StageStaysHeld(cx, a, Create(p, io.create), s);
    StageStaysHeld(cx, Created(cx.hash, a, p, io.create), Fill(p, src, io.copy), s);
  }

  /** The stage a failed copy leaves is of no copy made before. */
  lemma LeavingCopyKeepsApp(cx: Context, a0: Entries, h: Host, st: State, volume: string, suffix: string, io: Io,
                            copies: seq<string>, exposed: seq<string>)
    requires AppKept(cx, a0, h.app, copies, exposed, true, None)
    requires CopyLeavesStage(cx, h, volume, suffix, io) && !AfterCopy(cx, h, st, volume, suffix, io).ok
    ensures AppKept(cx, a0, AfterCopy(cx, h, st, volume, suffix, io).host.app, copies, exposed, false, Some(suffix))
  {
    var after := AfterCopy(cx, h, st, volume, suffix, io).host.app;
    var n' := StageName(cx.hash, StageOf(cx, suffix));
    FailedCopyLeaves(cx, h, st, volume, suffix, io);
    assert suffix !in copies by {
      if suffix in copies && suffix !in exposed { StageIsThere(cx.hash, h.app, StageOf(cx, suffix)); }
    }
    LeavingIsSteps(cx, h, st, volume, suffix, io);
    hide Holds, StageName, ValidName, AfterCopy, CopyLeavesStage;
    forall s | Holds(cx.hash, after, StageOf(cx, s))
      ensures StageKnown(cx, a0, copies + [suffix], s) && (StageName(cx.hash, StageOf(cx, s)) == n' ==> s == suffix)
    {
      FailedCopyMakes(cx, h, st, volume, suffix, io, StageOf(cx, s));
    }
    forall n | n in after && n !in a0
      ensures IsExposedCopy(copies, n) || IsOpenStage(cx, copies, exposed, n) || IsLeftStage(cx, Some(suffix), n)
    {
      if n != n' { assert n in h.app; }
    }
  }

  /** A failed copy's directory as one or two stage operations leave it. */
  lemma LeavingIsSteps(cx: Context, h: Host, st: State, volume: string, suffix: string, io: Io)
    requires CopyLeavesStage(cx, h, volume, suffix, io)
    ensures var (p, d, src) := (StageOf(cx, suffix), cx.digests.tree, Root(h.volumes[volume]));
            var made := Stages.Step(cx.hash, d, h.app, Create(p, io.create));
            AfterCopy(cx, h, st, volume, suffix, io).host.app
              == if CreateOk(cx.hash, h.app, p, io.create)
                 then Stages.Step(cx.hash, d, made, Fill(p, src, io.copy)) else made
  {
    hide Created, Filled, CreateOk;
  }

  lemma FailedCopyMakes(cx: Context, h: Host, st: State, volume: string, suffix: string, io: Io, q: Pair)
    requires CopyLeavesStage(cx, h, volume, suffix, io)
    requires Holds(cx.hash, AfterCopy(cx, h, st, volume, suffix, io).host.app, q)
    ensures StageName(cx.hash, q) in h.app ==> Holds(cx.hash, h.app, q)
    ensures StageName(cx.hash, q) !in h.app ==> q == StageOf(cx, suffix)
  {
    LeavingIsSteps(cx, h, st, volume, suffix, io);
    hide Holds, StageName, Created, Filled, CreateOk, AfterCopy, CopyLeavesStage, Stages.Step;
    var (p, d, src) := (StageOf(cx, suffix), cx.digests.tree, Root(h.volumes[volume]));
    var made := Stages.Step(cx.hash, d, h.app, Create(p, io.create));
    if CreateOk(cx.hash, h.app, p, io.create) {
      StepMakesOwnStage(cx.hash, d, made, Fill(p, src, io.copy), q);
    }
    if Holds(cx.hash, made, q) {
      StepMakesOwnStage(cx.hash, d, h.app, Create(p, io.create), q);
    }
  }

  /** A verified copy adds its stage and nothing else. */
  lemma CopyShape(cx: Context, a: Entries, p: Pair, src: Node, io: Io)
    requires CreateOk(cx.hash, a, p, io.create) && CopyVerified(cx.digests.tree, src, io.copy)
    ensures var n := StageName(cx.hash, p);
            var after := Filled(cx.hash, cx.digests.tree, Created(cx.hash, a, p, io.create), p, src, io.copy);
            n !in a && n in after && ValidName(p.suffix) && after == a[n := after[n]]
  {
    hide ValidName, ValidNonce, Discarded, Token;
    var n := StageName(cx.hash, p);
    var made := Created(cx.hash, a, p, io.create);
    assert made == a[n := StageDir(map[STAGE_TOKEN := File(Token(p))])];
    assert Holds(cx.hash, made, p);
  }

  lemma CopyMakesOwnStage(cx: Context, a: Entries, p: Pair, src: Node, io: Io, q: Pair)
    requires CreateOk(cx.hash, a, p, io.create)
    requires Holds(cx.hash, Filled(cx.hash, cx.digests.tree, Created(cx.hash, a, p, io.create), p, src, io.copy), q)
    ensures StageName(cx.hash, q) in a ==> Holds(cx.hash, a, q)
    ensures StageName(cx.hash, q) !in a ==> q == p
  {
    hide Holds, StageName, Created, Filled, CreateOk;
    var made := Created(cx.hash, a, p, io.create);
    var d := cx.digests.tree;
    assert made == Stages.Step(cx.hash, d, a, Create(p, io.create));
    StepMakesOwnStage(cx.hash, d, made, Fill(p, src, io.copy), q);
    assert StageName(cx.hash, q) in made ==> Holds(cx.hash, made, q);
    if Holds(cx.hash, made, q) {
      StepMakesOwnStage(cx.hash, d, a, Create(p, io.create), q);
    }
  }

  lemma RemoveKeepsLeft(cx: Context, a0: Entries, a: Entries, copies: seq<string>, left: Option<string>,
                        s: string, io: DiscardIo)
    requires LeftStageIs(cx, a0, a, copies, left) && (left.Some? ==> s != left.value)
    ensures LeftStageIs(cx, a0, Stages.Step(cx.hash, cx.digests.tree, a, Remove(StageOf(cx, s), io)), copies, left)
  {
    hide Stages.Step, Holds, StageName;
    if left.Some? {
      var op := Remove(StageOf(cx, s), io);
      var after := Stages.Step(cx.hash, cx.digests.tree, a, op);
      var n := StageName(cx.hash, StageOf(cx, left.value));
      if n == StageName(cx.hash, op.p) {
        assert !Holds(cx.hash, a, StageOf(cx, s));
        StepNeedsOwnStage(cx.hash, cx.digests.tree, a, op);
      } else {
        Stages.StepFrame(cx.hash, cx.digests.tree, a, op, n);
      }
      forall t | Holds(cx.hash, after, StageOf(cx, t)) && StageName(cx.hash, StageOf(cx, t)) == n
        ensures t == left.value
      {
        StepMakesOwnStage(cx.hash, cx.digests.tree, a, op, StageOf(cx, t));
      }
    }
  }

  lemma {:induction false} UndoCopiesRestores(cx: Context, a0: Entries, app: Entries, copies: seq<string>,
                                              exposed: seq<string>, known: seq<string>, left: Option<string>,
                                              io: UndoIo)
    requires StagesKnown(cx, a0, app, known) && forall n | n in a0 :: n in app && app[n] == a0[n]
    requires LeftStageIs(cx, a0, app, copies, left) && UndoCopies(cx, app, copies, exposed, io).1
    ensures var after := UndoCopies(cx, app, copies, exposed, io).0;
            && (forall n | n in a0 :: n in after && after[n] == a0[n])
            && after.Keys <= app.Keys
            && StagesKnown(cx, a0, after, known) && LeftStageIs(cx, a0, after, [], left)
            && forall s | s in copies && s !in exposed ::
                 StageName(cx.hash, StageOf(cx, s)) !in after
                 || IsLeftStage(cx, left, StageName(cx.hash, StageOf(cx, s)))
    decreases |copies|
  {
    if copies == [] {
    } else {
      hide Removed, StageName, Holds;
      assert copies == [copies[0]] + copies[1..];
      if copies[0] in exposed {
        UndoCopiesRestores(cx, a0, app, copies[1..], exposed, known, left, io);
      } else {
        var op := Remove(StageOf(cx, copies[0]), io.copies(copies[0]));
        var after := Stages.Step(cx.hash, cx.digests.tree, app, op);
        OpKeepsStages(cx, a0, app, known, op);
        RemoveKeepsLeft(cx, a0, app, copies, left, copies[0], io.copies(copies[0]));
        assert after.Keys <= app.Keys by {
          forall n | n in after ensures n in app { if n !in app { NewNames(cx, app, op, n); } }
        }
        UndoCopiesRestores(cx, a0, after, copies[1..], exposed, known, left, io);
      }
    }
  }

  /** After removing the copies not exposed, only exposed copies are new, and the stage a failed copy left. */
  lemma UndoCopiesLeaves(cx: Context, a0: Entries, app: Entries, copies: seq<string>, exposed: seq<string>,
                         left: Option<string>, io: UndoIo)
    requires AppKept(cx, a0, app, copies, exposed, false, left) && UndoCopies(cx, app, copies, exposed, io).1
    ensures var after := UndoCopies(cx, app, copies, exposed, io).0;
            AppRestored(cx, a0, after, copies, left)
  {
    hide StageName, Holds, ValidName, UndoCopies;
    UndoCopiesRestores(cx, a0, app, copies, exposed, Known(copies, left), left, io);
    var after := UndoCopies(cx, app, copies, exposed, io).0;
    forall n | n in after && n !in a0 ensures IsExposedCopy(copies, n) || IsLeftStage(cx, left, n) {
      assert IsOpenStage(cx, copies, exposed, n) ==> IsLeftStage(cx, left, n);
    }
    forall s | Holds(cx.hash, after, StageOf(cx, s)) ensures left == Some(s) {
      StageIsThere(cx.hash, after, StageOf(cx, s));
      assert StageKnown(cx, a0, Known(copies, left), s);
      var n := StageName(cx.hash, StageOf(cx, s));
      if IsExposedCopy(copies, n) { SuffixIsNoStage(cx.hash, n, StageOf(cx, s)); }
    }
  }

  /** The directory as it was, plus copies already exposed, plus the stage a failed copy left. */
  ghost predicate AppRestored(cx: Context, a0: Entries, a: Entries, copies: seq<string>, left: Option<string>) {
    && (forall n | n in a0 :: n in a && a[n] == a0[n])
    && (forall n | n in a && n !in a0 :: IsExposedCopy(copies, n) || IsLeftStage(cx, left, n))
    && (forall s | Holds(cx.hash, a, StageOf(cx, s)) :: left == Some(s))
    && (forall s | s in copies :: ValidName(s))
    && LeftStageIs(cx, a0, a, [], left)
  }

  /** Something new that is no exposed copy is there exactly when a failed copy left its stage. */
  lemma LeftStageIffNew(cx: Context, a0: Entries, a: Entries, copies: seq<string>, left: Option<string>)
    requires AppRestored(cx, a0, a, copies, left)
    ensures left.Some? <==> exists n :: n in a && n !in a0 && n !in copies
  {
    hide StageName, ValidName, Holds;
    if left.Some? {
      var n := StageName(cx.hash, StageOf(cx, left.value));
      if n in copies { SuffixIsNoStage(cx.hash, n, StageOf(cx, left.value)); }
    }
  }

  // ---- The volumes ---------------------------------------------------------------------------------------

  predicate WasCreated(created: seq<(string, nat)>, v: string) {
    exists c | c in created :: c.0 == v
  }

  /** The volume docker created then, with what labels it has; its data may differ. */
  predicate SameVolume(a: Volume, b: Volume) {
    a.labels == b.labels && a.createdAt == b.createdAt
  }

  /** The run's volumes: the ones there before, conversion targets aside, and the ones created. */
  predicate VolumesKept(v0: Volumes, vs: Volumes, created: seq<(string, nat)>, targets: set<string>,
                        left: Option<string>)
  {
    && (forall v | v in v0 :: v in vs && SameVolume(v0[v], vs[v]) && (v in targets || vs[v] == v0[v]))
    && (forall v | v in vs :: v in v0 || WasCreated(created, v) || left == Some(v))
    && (forall c | c in created :: c.0 !in v0)
    && (left.Some? ==> left.value !in v0 && left.value in vs && !WasCreated(created, left.value))
    && (forall c | c in created :: c.0 in vs)
  }

  /** The failure that leaves a volume behind: it is there, but not checked to be this run's. */
  predicate LateCreateFailure(h: Host, step: Plans.Step, io: Io) {
    && step.CreateVolume? && io.ok && step.volume !in h.volumes
    && !(io.seen && io.probed && LooksOwn(MadeVolume(h, step.labels, io), step.labels))
  }

  /** The failure that leaves a stage behind. */
  predicate LateCopyFailure(cx: Context, h: Host, step: Plans.Step, io: Io) {
    step.CopyVolume? && CopyLeavesStage(cx, h, step.volume, step.suffix, io)
  }

  /** What a failing step leaves that no compensation removes. */
  datatype Leftover = Leftover(volume: Option<string>, stage: Option<string>)

  const NOTHING := Leftover(None, None)

  function LeftBehind(cx: Context, h: Host, step: Plans.Step, io: Io): Leftover {
    Leftover(if LateCreateFailure(h, step, io) then Some(step.volume) else None,
             if LateCopyFailure(cx, h, step, io) then Some(step.suffix) else None)
  }

  lemma AddedIsLeft(v0: Volumes, vs: Volumes, created: seq<(string, nat)>, targets: set<string>,
                    volume: string, v: Volume)
    requires VolumesKept(v0, vs, created, targets, None) && volume !in vs
    ensures VolumesKept(v0, vs[volume := v], created, targets, Some(volume))
  {
    hide SameVolume;
  }

  lemma AddedIsCreated(v0: Volumes, vs: Volumes, created: seq<(string, nat)>, targets: set<string>,
                       volume: string, v: Volume)
    requires VolumesKept(v0, vs, created, targets, None) && volume !in vs
    ensures VolumesKept(v0, vs[volume := v], created + [(volume, v.createdAt)], targets, None)
  {
    hide SameVolume;
    var more := created + [(volume, v.createdAt)];
    assert (volume, v.createdAt) in more && forall c | c in created :: c in more;
    forall w | w in vs && w !in v0 ensures WasCreated(more, w) {
      assert WasCreated(created, w);
    }
  }

  lemma CreateKeepsVolumes(v0: Volumes, h: Host, st: State, volume: string, labels: Docker.Labels, io: Io,
                           targets: set<string>)
    requires VolumesKept(v0, h.volumes, st.created, targets, None)
    ensures var o := AfterCreate(h, st, volume, labels, io);
            VolumesKept(v0, o.host.volumes, o.state.created, targets,
                        if LateCreateFailure(h, CreateVolume(volume, labels), io) then Some(volume) else None)
  {
    hide LooksOwn, MadeVolume, VolumesKept;
    if io.ok && volume !in h.volumes {
      AddedIsLeft(v0, h.volumes, st.created, targets, volume, MadeVolume(h, labels, io));
      AddedIsCreated(v0, h.volumes, st.created, targets, volume, MadeVolume(h, labels, io));
    }
  }

  lemma IntoKeepsVolumes(cx: Context, v0: Volumes, h: Host, st: State, source: string, target: string, io: Io,
                         targets: set<string>)
    requires VolumesKept(v0, h.volumes, st.created, targets, None) && (target in targets || target !in v0)
    ensures var o := AfterInto(cx, h, st, source, target, io);
            VolumesKept(v0, o.host.volumes, o.state.created, targets, None)
  {
    hide WasCreated, DigestOf;
  }

  lemma {:induction false} UndoCreatedRemoves(volumes: Volumes, created: seq<(string, nat)>,
                                              mounted: set<string>, io: UndoIo)
    requires UndoCreated(volumes, created, mounted, io).1
    ensures var after := UndoCreated(volumes, created, mounted, io).0;
            && (forall v :: v in after <==> v in volumes && !WasCreated(created, v))
            && forall v | v in after :: after[v] == volumes[v]
    decreases |created|
  {
    if created == [] {
    } else {
      assert created == [created[0]] + created[1..];
      UndoCreatedRemoves(volumes - {created[0].0}, created[1..], mounted, io);
    }
  }

  // ---- All of it -------------------------------------------------------------------------------------------

  /** What a run before its rebuild has changed, and how it can be undone. */
  ghost predicate Undoable(cx: Context, h0: Host, p: Progress, targets: set<string>, left: Leftover) {
    && TemplateKept(cx, h0.files, p.host.files, p.templateWritten, p.ok)
    && ListingKept(cx, h0.listing, p.host.listing, p.listingChanged)
    && AppKept(cx, h0.app, p.host.app, p.copies, p.exposed, p.ok, left.stage)
    && VolumesKept(h0.volumes, p.host.volumes, p.state.created, targets, left.volume)
    && !p.rebuilt
  }

  /** A run that can begin: its id and nonce are unused, and what it noted is so. */
  ghost predicate Ready(cx: Context, h0: Host) {
    && ValidName(cx.name) && ValidRunId(cx.runId) && Unused(h0.files, cx.name, cx.runId)
    && (forall s :: !Holds(cx.hash, h0.app, StageOf(cx, s)))
    && cx.wasRunning == h0.running && cx.listedBefore == (cx.name in ParseAutostart(h0.listing))
  }

  /**
   The host as it was, but for exposed copies, the contents of `targets`, and what a
   failing step left.
   */
  ghost predicate PutBack(cx: Context, h0: Host, h: Host, copies: seq<string>, targets: set<string>, left: Leftover) {
    && SameAt(h0.files, h.files, TemplatePath(cx.name))
    && (forall n :: n in ParseAutostart(h.listing) <==> n in ParseAutostart(h0.listing))
    && AppRestored(cx, h0.app, h.app, copies, left.stage)
    && (forall v | v in h0.volumes ::
          v in h.volumes && SameVolume(h0.volumes[v], h.volumes[v]) && (v in targets || h.volumes[v] == h0.volumes[v]))
    && h.volumes.Keys == h0.volumes.Keys + (if left.volume.Some? then {left.volume.value} else {})
    && (left.volume.Some? ==> left.volume.value !in h0.volumes)
  }

  lemma BeginUndoable(cx: Context, h0: Host, st: State, targets: set<string>)
    requires Ready(cx, h0) && st.created == []
    ensures Undoable(cx, h0, Begin(h0, st), targets, NOTHING)
  {
    hide Unused, ParseAutostart, Holds;
  }

  /**
   If every compensation succeeds, all of it is undone, and the container runs if it ran or was
   stopped for the run.
   */
  lemma RollBackRestores(cx: Context, h0: Host, p: Progress, targets: set<string>, left: Leftover, io: UndoIo)
    requires Ready(cx, h0) && Undoable(cx, h0, p, targets, left) && !p.ok && RolledBack(cx, p, io).1
    ensures PutBack(cx, h0, RolledBack(cx, p, io).0, p.copies, targets, left)
    ensures RolledBack(cx, p, io).0.running == (p.host.running || (p.stopped && h0.running))
  {
    hide TemplateKept, ListingKept, AppKept, AppRestored, SameAt, ParseAutostart, UndoTemplate, UndoListing, UndoCopies,
         UndoCreated, Unused, ValidRunId, ValidName, Holds;
    var (h1, _) := UndoTemplate(cx, p.host, p.templateWritten, io);
    UndoTemplateRestores(cx, h0.files, p.host, p.templateWritten, io);
    var (h2, _) := UndoListing(cx, h1, p.listingChanged, io);
    UndoListingRestores(cx, h0.listing, h1, p.listingChanged, io);
    UndoCopiesLeaves(cx, h0.app, h2.app, p.copies, p.exposed, left.stage, io);
    UndoCreatedRemoves(h2.volumes, p.state.created, h2.mounted, io);
    var h := RolledBack(cx, p, io).0;
    VolumesUndone(h0.volumes, h2.volumes, h.volumes, p.state.created, targets, left.volume);
  }

  lemma VolumesUndone(v0: Volumes, vs: Volumes, after: Volumes, created: seq<(string, nat)>,
                      targets: set<string>, left: Option<string>)
    requires VolumesKept(v0, vs, created, targets, left)
    requires forall v :: v in after <==> v in vs && !WasCreated(created, v)
    requires forall v | v in after :: after[v] == vs[v]
    ensures forall v | v in v0 :: v in after && SameVolume(v0[v], after[v]) && (v in targets || after[v] == v0[v])
    ensures after.Keys == v0.Keys + (if left.Some? then {left.value} else {})
    ensures left.Some? ==> left.value !in v0
  {
    forall v | v in v0 ensures v in after {
      assert !WasCreated(created, v);
    }
  }

  // ---- What others do between steps ---------------------------------------------------------------------------

  predicate WritesOnly(es: seq<Event>, targets: set<string>) {
    forall e | e in es && e.WriteVolume? :: e.volume in targets
  }

  lemma EventKeepsVolumes(v0: Volumes, h: Host, e: Event, created: seq<(string, nat)>, targets: set<string>,
                          left: Option<string>)
    requires VolumesKept(v0, h.volumes, created, targets, left) && (e.WriteVolume? ==> e.volume in targets)
    ensures VolumesKept(v0, AfterEvent(h, e).volumes, created, targets, left)
  {
    hide WasCreated;
  }

  /** Others keep the files, the listing and the directory, and change volumes only in content. */
  lemma {:induction false} EventsKeep(v0: Volumes, h: Host, es: seq<Event>, created: seq<(string, nat)>,
                                      targets: set<string>, left: Option<string>)
    requires VolumesKept(v0, h.volumes, created, targets, left) && WritesOnly(es, targets)
    ensures var after := AfterEvents(h, es);
            && after.files == h.files && after.listing == h.listing && after.app == h.app
            && VolumesKept(v0, after.volumes, created, targets, left)
    decreases |es|
  {
    if es == [] {
    } else {
      hide VolumesKept;
      assert es[0] in es && forall e | e in es[1..] :: e in es;
      EventKeepsVolumes(v0, h, es[0], created, targets, left);
      EventsKeep(v0, AfterEvent(h, es[0]), es[1..], created, targets, left);
    }
  }

  lemma EventsUndoable(cx: Context, h0: Host, p: Progress, turn: Turn, targets: set<string>)
    requires Undoable(cx, h0, p, targets, NOTHING) && WritesOnly(turn.events, targets)
    ensures Undoable(cx, h0, Mid(p, turn), targets, NOTHING)
  {
    hide TemplateKept, ListingKept, AppKept, VolumesKept, AfterEvents, WritesOnly;
    EventsKeep(h0.volumes, p.host, turn.events, p.state.created, targets, None);
  }

  // ---- One step ---------------------------------------------------------------------------------------------------

  /** What a step before the rebuild must meet: a plan's order. */
  predicate Undoes(h0: Host, p: Progress, step: Plans.Step, targets: set<string>) {
    && p.ok && IsEarly(step)
    && (step.WriteTemplate? ==> !p.templateWritten)
    && (step.CopyIntoVolume? ==> step.target in targets || step.target !in h0.volumes)
  }

  /** What an advance takes from the step's outcome. */
  lemma AdvanceParts(cx: Context, p: Progress, step: Plans.Step, io: Io)
    ensures var (q, o) := (Advance(cx, p, step, io), RunStep(cx, p.host, p.state, step, io));
            && q.host == o.host && q.state.created == o.state.created && (p.ok ==> q.ok == o.ok)
            && q.rebuilt == (p.rebuilt || step.Rebuild?)
            && q.listingChanged == (p.listingChanged || (step.SetAutostart? && !p.rebuilt))
            && q.stopped == (p.stopped || (step.Stop? && o.ok))
            && q.templateWritten == (p.templateWritten || (step.WriteTemplate? && o.ok))
            && q.copies == (if step.CopyVolume? && o.ok then p.copies + [step.suffix] else p.copies)
            && q.exposed == (if step.ExposeCopy? && o.ok then p.exposed + [step.suffix] else p.exposed)
  {
    hide RunStep;
  }

  lemma StepTemplate(cx: Context, h0: Host, p: Progress, step: Plans.Step, io: Io, targets: set<string>)
    requires Ready(cx, h0) && Undoable(cx, h0, p, targets, NOTHING) && Undoes(h0, p, step, targets)
    ensures var q := Advance(cx, p, step, io);
            TemplateKept(cx, h0.files, q.host.files, q.templateWritten, q.ok)
  {
    hide TemplateKept, ListingKept, AppKept, VolumesKept, Unused, ValidRunId, ValidName, Holds, ParseAutostart;
    if step.WriteTemplate? {
      WriteKeepsTemplate(cx, h0.files, p.host, p.state, step.xml, io);
    } else if step.SaveInspect? {
      InspectKeepsTemplate(cx, h0.files, p.host, p.state, step.json, io, p.templateWritten);
    } else {
      FilesFrame(cx, p.host, p.state, step, io);
    }
    AdvanceParts(cx, p, step, io);
    hide Advance;
    var q := Advance(cx, p, step, io);
    TemplateWeaker(cx, h0.files, q.host.files, q.templateWritten);
  }

  lemma TemplateWeaker(cx: Context, f0: Files, f: Files, written: bool)
    ensures TemplateKept(cx, f0, f, written, true) ==> TemplateKept(cx, f0, f, written, false)
  {}

  lemma StepListing(cx: Context, h0: Host, p: Progress, step: Plans.Step, io: Io)
    requires IsEarly(step) && !p.rebuilt && ListingKept(cx, h0.listing, p.host.listing, p.listingChanged)
    ensures var q := Advance(cx, p, step, io);
            ListingKept(cx, h0.listing, q.host.listing, q.listingChanged)
  {
    AdvanceParts(cx, p, step, io);
    hide ListingKept, Advance;
    if step.SetAutostart? {
      ListingStep(cx, h0.listing, p.host, p.state, step.on, io, p.listingChanged);
    } else {
      ListingFrame(cx, p.host, p.state, step, io);
    }
  }

  lemma StepApp(cx: Context, h0: Host, p: Progress, step: Plans.Step, io: Io, targets: set<string>)
    requires AppKept(cx, h0.app, p.host.app, p.copies, p.exposed, true, None) && Undoes(h0, p, step, targets)
    ensures var q := Advance(cx, p, step, io);
            AppKept(cx, h0.app, q.host.app, q.copies, q.exposed, q.ok, LeftBehind(cx, p.host, step, io).stage)
  {
    AdvanceParts(cx, p, step, io);
    hide AppKept, Advance;
    if step.CopyVolume? {
      CopyKeepsApp(cx, h0.app, p.host, p.state, step.volume, step.suffix, io, p.copies, p.exposed);
    } else if step.ExposeCopy? {
      ExposeKeepsApp(cx, h0.app, p.host, p.state, step.suffix, io, p.copies, p.exposed);
    } else {
      AppFrame(cx, p.host, p.state, step, io);
      WeakerAppKept(cx, h0.app, p.host.app, p.copies, p.exposed);
    }
  }

  lemma StepVolumes(cx: Context, h0: Host, p: Progress, step: Plans.Step, io: Io, targets: set<string>)
    requires VolumesKept(h0.volumes, p.host.volumes, p.state.created, targets, None)
    requires Undoes(h0, p, step, targets)
    ensures var q := Advance(cx, p, step, io);
            VolumesKept(h0.volumes, q.host.volumes, q.state.created, targets, LeftBehind(cx, p.host, step, io).volume)
  {
    AdvanceParts(cx, p, step, io);
    hide VolumesKept, Advance;
    if step.CreateVolume? {
      CreateKeepsVolumes(h0.volumes, p.host, p.state, step.volume, step.labels, io, targets);
    } else {
      VolumesFrame(cx, p.host, p.state, step, io);
      if step.CopyIntoVolume? {
        IntoKeepsVolumes(cx, h0.volumes, p.host, p.state, step.source, step.target, io, targets);
      }
    }
  }

  lemma StepUndoable(cx: Context, h0: Host, p: Progress, step: Plans.Step, io: Io, targets: set<string>)
    requires Ready(cx, h0) && Undoable(cx, h0, p, targets, NOTHING) && Undoes(h0, p, step, targets)
    ensures Undoable(cx, h0, Advance(cx, p, step, io), targets, LeftBehind(cx, p.host, step, io))
    ensures Advance(cx, p, step, io).ok ==> LeftBehind(cx, p.host, step, io) == NOTHING
  {
    StepTemplate(cx, h0, p, step, io, targets);
    StepListing(cx, h0, p, step, io);
    StepApp(cx, h0, p, step, io, targets);
    StepVolumes(cx, h0, p, step, io, targets);
    AdvanceParts(cx, p, step, io);
    hide TemplateKept, ListingKept, AppKept, VolumesKept, Ready, Advance, LateCreateFailure, LateCopyFailure;
    if LateCreateFailure(p.host, step, io) || LateCopyFailure(cx, p.host, step, io) {
      LateFails(cx, p.host, p.state, step, io);
    }
    hide RunStep;
  }

  lemma LateFails(cx: Context, h: Host, st: State, step: Plans.Step, io: Io)
    requires LateCreateFailure(h, step, io) || LateCopyFailure(cx, h, step, io)
    ensures !RunStep(cx, h, st, step, io).ok
  {
    hide CopyLeavesStage, AfterCopy, LooksOwn, MadeVolume;
    if step.CopyVolume? { CopyLeavingFails(cx, h, st, step.volume, step.suffix, io); }
  }

  // ---- The whole run -------------------------------------------------------------------------------------------

  /** A run whose last step, still before the rebuild, failed. */
  ghost predicate FailedEarly(cx: Context, h0: Host, steps: seq<Plans.Step>, turns: seq<Turn>, ps: seq<Progress>) {
    var n := |ps| - 1;
    && IsTrace(cx, steps, turns, ps) && 0 < n <= |steps| == |turns|
    && ps[0] == Begin(h0, NewState(h0)) && !ps[n].ok
    && forall i | 0 <= i < n :: IsEarly(steps[i])
  }

  /** The volumes others wrote before one of the first `n` steps. */
  function WrittenByOthers(turns: seq<Turn>, n: nat): set<string>
    requires n <= |turns|
  {
    set i, e | 0 <= i < n && e in turns[i].events && e.WriteVolume? :: e.volume
  }

  predicate WriteIn(steps: seq<Plans.Step>, i: nat)
    requires i <= |steps|
  {
    exists j | 0 <= j < i :: steps[j].WriteTemplate?
  }

  function LeftAt(cx: Context, steps: seq<Plans.Step>, turns: seq<Turn>, ps: seq<Progress>, i: nat): Leftover
    requires i < |ps| <= |steps| + 1 && |turns| == |steps|
  {
    if i == 0 then NOTHING else LeftBehind(cx, Before(turns, ps, i - 1), steps[i - 1], turns[i - 1].io)
  }

  lemma TraceStep(cx: Context, steps: seq<Plans.Step>, turns: seq<Turn>, ps: seq<Progress>, i: nat)
    requires IsTrace(cx, steps, turns, ps) && i < |ps| - 1
    ensures ps[i].ok && ps[i + 1] == Advance(cx, Mid(ps[i], turns[i]), steps[i], turns[i].io)
    ensures Mid(ps[i], turns[i]) == ps[i].(host := Before(turns, ps, i))
  {
    hide Advance;
    assert Ran(cx, steps, turns, ps, i);
  }

  lemma CreatedIsNew(cx: Context, h0: Host, p: Progress, step: Plans.Step, io: Io, targets: set<string>)
    requires VolumesKept(h0.volumes, p.host.volumes, p.state.created, targets, None)
    requires step.CreateVolume? && p.ok && Advance(cx, p, step, io).ok
    ensures step.volume !in h0.volumes
  {
    AdvanceParts(cx, p, step, io);
    hide Advance, WasCreated, LooksOwn, MadeVolume;
  }

  ghost predicate OthersWrite(turns: seq<Turn>, n: nat, targets: set<string>)
    requires n <= |turns|
  {
    forall i | 0 <= i < n :: WritesOnly(turns[i].events, targets)
  }

  lemma {:induction false} PrefixUndoable(cx: Context, h0: Host, steps: seq<Plans.Step>, turns: seq<Turn>,
                                          ps: seq<Progress>, reused: set<string>, targets: set<string>, i: nat)
    requires Ready(cx, h0) && FailedEarly(cx, h0, steps, turns, ps) && i < |ps|
    requires TemplateOnce(steps) && TargetsMade(steps, reused)
    requires reused <= targets && OthersWrite(turns, |ps| - 1, targets)
    ensures Undoable(cx, h0, ps[i], targets, LeftAt(cx, steps, turns, ps, i))
    ensures ps[i].ok ==> LeftAt(cx, steps, turns, ps, i) == NOTHING
    ensures ps[i].templateWritten ==> WriteIn(steps, i)
    decreases i
  {
    hide Ready, Undoable, Advance, IsTrace, TemplateOnce, TargetsMade, Undoes, LeftBehind, WritesOnly;
    if i == 0 {
      BeginReady(cx, h0, targets);
    } else {
      PrefixUndoable(cx, h0, steps, turns, ps, reused, targets, i - 1);
      TraceStep(cx, steps, turns, ps, i - 1);
      var p := Mid(ps[i - 1], turns[i - 1]);
      EventsUndoable(cx, h0, ps[i - 1], turns[i - 1], targets);
      if steps[i - 1].CopyIntoVolume? {
        TargetIsNew(cx, h0, steps, turns, ps, reused, targets, i - 1);
      }
      StepUndoes(cx, h0, steps, turns, ps, targets, i - 1);
      StepUndoable(cx, h0, p, steps[i - 1], turns[i - 1].io, targets);
      AdvanceParts(cx, p, steps[i - 1], turns[i - 1].io);
      if steps[i - 1].WriteTemplate? { assert WriteIn(steps, i); }
      if WriteIn(steps, i - 1) { assert WriteIn(steps, i); }
    }
  }

  lemma BeginReady(cx: Context, h0: Host, targets: set<string>)
    requires Ready(cx, h0)
    ensures Undoable(cx, h0, Begin(h0, NewState(h0)), targets, NOTHING)
  {
    hide Ready, Undoable;
    BeginUndoable(cx, h0, NewState(h0), targets);
  }

  lemma TargetIsNew(cx: Context, h0: Host, steps: seq<Plans.Step>, turns: seq<Turn>, ps: seq<Progress>,
                    reused: set<string>, targets: set<string>, i: nat)
    requires Ready(cx, h0) && FailedEarly(cx, h0, steps, turns, ps) && i < |ps| - 1
    requires TemplateOnce(steps) && TargetsMade(steps, reused) && steps[i].CopyIntoVolume?
    requires reused <= targets && OthersWrite(turns, |ps| - 1, targets)
    ensures steps[i].target in targets || steps[i].target !in h0.volumes
    decreases i
  {
    hide Ready, Advance, IsTrace, TemplateOnce, Undoes, LeftBehind, TemplateKept, ListingKept, AppKept, VolumesKept,
         WritesOnly;
    assert TargetMade(steps, reused, i);
    if steps[i].target !in reused {
      var s :| s in steps[..i] && MakesVolume(s, steps[i].target);
      var j :| 0 <= j < i && steps[..i][j] == s;
      PrefixUndoable(cx, h0, steps, turns, ps, reused, targets, j);
      TraceStep(cx, steps, turns, ps, j);
      TraceStep(cx, steps, turns, ps, j + 1);
      EventsUndoable(cx, h0, ps[j], turns[j], targets);
      CreatedIsNew(cx, h0, Mid(ps[j], turns[j]), steps[j], turns[j].io, targets);
    }
  }

  lemma StepUndoes(cx: Context, h0: Host, steps: seq<Plans.Step>, turns: seq<Turn>, ps: seq<Progress>,
                   targets: set<string>, i: nat)
    requires FailedEarly(cx, h0, steps, turns, ps) && i < |ps| - 1 && TemplateOnce(steps)
    requires steps[i].CopyIntoVolume? ==> steps[i].target in targets || steps[i].target !in h0.volumes
    requires ps[i].templateWritten ==> WriteIn(steps, i)
    ensures Undoes(h0, Mid(ps[i], turns[i]), steps[i], targets)
  {
    hide Advance, IsTrace;
    TraceStep(cx, steps, turns, ps, i);
    assert steps[i].WriteTemplate? ==> !WriteIn(steps, i);
  }

  lemma WrittenAreTargets(turns: seq<Turn>, n: nat, reused: set<string>)
    requires n <= |turns|
    ensures OthersWrite(turns, n, reused + WrittenByOthers(turns, n))
  {
    forall i, e | 0 <= i < n && e in turns[i].events && e.WriteVolume?
      ensures e.volume in WrittenByOthers(turns, n)
    {
    }
  }

  /**
   A failure before the rebuild is undone: whatever step fails, with whatever answers, and
   whatever others did to the container and its volumes meanwhile. If the compensations succeed,
   the host is as before, but for copies already exposed, the contents of volumes that were reused
   or that others wrote, and what a late failure of its own creation or copy leaves. The container
   runs if it ran at the failure or was stopped for this run.
   */
  lemma FailureIsUndone(cx: Context, h0: Host, o: Outline, turns: seq<Turn>, ps: seq<Progress>, undo: UndoIo)
    requires Ready(cx, h0) && InOrder(o)
    requires FailedEarly(cx, h0, o.steps, turns, ps) && RolledBack(cx, ps[|ps| - 1], undo).1
    ensures var n := |ps| - 1;
            var h := RolledBack(cx, ps[n], undo).0;
            && PutBack(cx, h0, h, ps[n].copies, o.reused + WrittenByOthers(turns, n),
                       LeftBehind(cx, Before(turns, ps, n - 1), o.steps[n - 1], turns[n - 1].io))
            && h.running == (ps[n].host.running || (ps[n].stopped && h0.running))
  {
    hide Ready, RolledBack, PutBack, TemplateOnce, TargetsMade, Framed, Undoable, LeftBehind, Advance, IsTrace,
         OthersWrite, WrittenByOthers;
    var n := |ps| - 1;
    var targets := o.reused + WrittenByOthers(turns, n);
    WrittenAreTargets(turns, n, o.reused);
    PrefixUndoable(cx, h0, o.steps, turns, ps, o.reused, targets, n);
    RollBackRestores(cx, h0, ps[n], targets, LeftAt(cx, o.steps, turns, ps, n), undo);
  }

  /** A created volume is left exactly when the failing step could not check what it had created. */
  lemma VolumeLeftIffLateFailure(cx: Context, h0: Host, o: Outline, turns: seq<Turn>,
                                 ps: seq<Progress>, undo: UndoIo)
    requires Ready(cx, h0) && InOrder(o)
    requires FailedEarly(cx, h0, o.steps, turns, ps) && RolledBack(cx, ps[|ps| - 1], undo).1
    ensures var n := |ps| - 1;
            RolledBack(cx, ps[n], undo).0.volumes.Keys == h0.volumes.Keys
            <==> !LateCreateFailure(Before(turns, ps, n - 1), o.steps[n - 1], turns[n - 1].io)
  {
    hide Ready, RolledBack, PutBack, InOrder, LeftBehind, IsTrace, Advance, AfterEvents, WrittenByOthers, IsEarly,
         LateCreateFailure, LateCopyFailure;
    FailureIsUndone(cx, h0, o, turns, ps, undo);
    var n := |ps| - 1;
    PutBackKeys(cx, h0, RolledBack(cx, ps[n], undo).0, ps[n].copies, o.reused + WrittenByOthers(turns, n),
                Before(turns, ps, n - 1), o.steps[n - 1], turns[n - 1].io);
  }

  lemma PutBackKeys(cx: Context, h0: Host, h: Host, copies: seq<string>, targets: set<string>,
                    found: Host, step: Plans.Step, io: Io)
    requires PutBack(cx, h0, h, copies, targets, LeftBehind(cx, found, step, io))
    ensures h.volumes.Keys == h0.volumes.Keys <==> !LateCreateFailure(found, step, io)
    ensures LateCopyFailure(cx, found, step, io) <==> exists n :: n in h.app && n !in h0.app && n !in copies
  {
    hide AppRestored, SameAt, ParseAutostart, LateCreateFailure, LateCopyFailure;
    LeftStageIffNew(cx, h0.app, h.app, copies, LeftBehind(cx, found, step, io).stage);
  }

  /** A stage of the run is left exactly when the failing step is a copy whose own discard stopped. */
  lemma StageLeftIffLateCopy(cx: Context, h0: Host, o: Outline, turns: seq<Turn>, ps: seq<Progress>, undo: UndoIo)
    requires Ready(cx, h0) && InOrder(o)
    requires FailedEarly(cx, h0, o.steps, turns, ps) && RolledBack(cx, ps[|ps| - 1], undo).1
    ensures var n := |ps| - 1;
            LateCopyFailure(cx, Before(turns, ps, n - 1), o.steps[n - 1], turns[n - 1].io)
            <==> exists e :: e in RolledBack(cx, ps[n], undo).0.app && e !in h0.app && e !in ps[n].copies
  {
    hide Ready, RolledBack, PutBack, InOrder, LeftBehind, IsTrace, Advance, AfterEvents, WrittenByOthers, IsEarly,
         LateCreateFailure, LateCopyFailure;
    FailureIsUndone(cx, h0, o, turns, ps, undo);
    var n := |ps| - 1;
    PutBackKeys(cx, h0, RolledBack(cx, ps[n], undo).0, ps[n].copies, o.reused + WrittenByOthers(turns, n),
                Before(turns, ps, n - 1), o.steps[n - 1], turns[n - 1].io);
  }

  // ---- Without interference ---------------------------------------------------------------------------------------

  predicate Quiet(turns: seq<Turn>, n: nat)
    requires n <= |turns|
  {
    forall i | 0 <= i < n :: turns[i].events == []
  }

  lemma {:induction false} QuietRunning(cx: Context, h0: Host, steps: seq<Plans.Step>, turns: seq<Turn>,
                                        ps: seq<Progress>, i: nat)
    requires FailedEarly(cx, h0, steps, turns, ps) && Quiet(turns, |ps| - 1) && i < |ps|
    ensures ps[i].host.running == if ps[i].stopped then false else h0.running
  {
    hide Advance, IsTrace, IsEarly;
    if i == 0 {
    } else {
      QuietRunning(cx, h0, steps, turns, ps, i - 1);
      TraceStep(cx, steps, turns, ps, i - 1);
      assert turns[i - 1].events == [];
      var p := Mid(ps[i - 1], turns[i - 1]);
      RunningFrame(cx, p.host, p.state, steps[i - 1], turns[i - 1].io);
      AdvanceParts(cx, p, steps[i - 1], turns[i - 1].io);
    }
  }

  /** If nobody interferes, the container also runs exactly if it did, and only reused volumes may have changed. */
  lemma QuietFailureIsUndone(cx: Context, h0: Host, o: Outline, turns: seq<Turn>, ps: seq<Progress>, undo: UndoIo)
    requires Ready(cx, h0) && InOrder(o)
    requires FailedEarly(cx, h0, o.steps, turns, ps) && RolledBack(cx, ps[|ps| - 1], undo).1
    requires Quiet(turns, |ps| - 1)
    ensures var n := |ps| - 1;
            var h := RolledBack(cx, ps[n], undo).0;
            && PutBack(cx, h0, h, ps[n].copies, o.reused,
                       LeftBehind(cx, Before(turns, ps, n - 1), o.steps[n - 1], turns[n - 1].io))
            && h.running == h0.running
  {
    hide Ready, RolledBack, PutBack, InOrder, LeftBehind, IsTrace, Advance, IsEarly;
    var n := |ps| - 1;
    FailureIsUndone(cx, h0, o, turns, ps, undo);
    QuietRunning(cx, h0, o.steps, turns, ps, n);
    assert o.reused + WrittenByOthers(turns, n) == o.reused;
  }
}
