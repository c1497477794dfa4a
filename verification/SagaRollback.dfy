/**
 That a failed run can be undone: if every call of the compensations goes through, all of them
 succeed, unless the failing step was an exposure that took its stage's token and left the stage.
 */
module SagaRollback {
  import opened Wrappers
  import opened Names
  import opened Plans
  import opened PlanLaws
  import opened Stages
  import opened Saga
  import opened SagaUndo
  import opened SagaWrites
  import Templates

  /** Every call of the compensations goes through. */
  ghost predicate CallsGoThrough(undo: UndoIo) {
    && undo.restore == Templates.ALL_RESTORED && undo.listing && undo.start
    && (forall s :: undo.copies(s) == DiscardIo(None, true, true, true))
    && forall v :: undo.inspected(v) && undo.removed(v)
  }

  /** A failed exposure that took the token of its stage and left the rest of it. */
  predicate LateExposeFailure(cx: Context, h: Host, step: Plans.Step, io: Io) {
    && step.ExposeCopy?
    && Holds(cx.hash, h.app, StageOf(cx, step.suffix))
    && var after := Exposed(cx.hash, h.app, StageOf(cx, step.suffix), io.expose);
       StageName(cx.hash, StageOf(cx, step.suffix)) in after && !Holds(cx.hash, after, StageOf(cx, step.suffix))
  }

  // ---- What the compensations find ------------------------------------------------------------

  /** The run's stage for `s`, holding nothing but its token and a copy. */
  ghost predicate CleanStage(cx: Context, a: Entries, s: string) {
    && Holds(cx.hash, a, StageOf(cx, s))
    && var stage := OpenStage(cx.hash, a, StageOf(cx, s)).value.value;
       && (forall e | e in stage :: e == STAGE_TOKEN || e == STAGE_DATA)
       && (STAGE_DATA in stage ==> stage[STAGE_DATA].Dir?)
  }

  ghost predicate Distinct(s: seq<string>) {
    forall i, j | 0 <= i < j < |s| :: s[i] != s[j]
  }

  ghost predicate StagesClean(cx: Context, a: Entries, copies: seq<string>, exposed: seq<string>) {
    forall s | s in copies && s !in exposed :: CleanStage(cx, a, s)
  }

  /** The volumes created are there, as created, each once. */
  ghost predicate CreatedThere(vs: Volumes, created: seq<(string, nat)>) {
    && (forall i | 0 <= i < |created| :: created[i].0 in vs && vs[created[i].0].createdAt == created[i].1)
    && forall i, j | 0 <= i < j < |created| :: created[i].0 != created[j].0
  }

  ghost predicate NoneMounted(created: seq<(string, nat)>, mounted: set<string>) {
    forall i | 0 <= i < |created| :: created[i].0 !in mounted
  }

  /** A template of the run's carries orca's marker. */
  ghost predicate TemplateMarked(cx: Context, h: Host, written: bool) {
    written ==>
      && Templates.TemplatePath(cx.name) in h.files
      && Templates.Managed(h.files[Templates.TemplatePath(cx.name)])
  }

  // ---- Each compensation succeeds ----------------------------------------------------------------

  lemma TemplateComes(cx: Context, f0: Templates.Files, h: Host, written: bool, undo: UndoIo)
    requires ValidName(cx.name) && Templates.ValidRunId(cx.runId) && TemplateKept(cx, f0, h.files, written, false)
    requires TemplateMarked(cx, h, written) && undo.restore == Templates.ALL_RESTORED
    ensures UndoTemplate(cx, h, written, undo).1
  {
    hide Templates.ValidRunId, Templates.TemplatePath, Templates.BackupPath, Templates.NoneSentinel, Templates.Managed,
         ValidName;
  }

  lemma CleanStageGoes(cx: Context, a: Entries, s: string)
    requires CleanStage(cx, a, s)
    ensures StageName(cx.hash, StageOf(cx, s))
            !in Removed(cx.hash, a, StageOf(cx, s), DiscardIo(None, true, true, true))
  {
    hide StageName, ValidName, ValidNonce, Token;
    var stage := OpenStage(cx.hash, a, StageOf(cx, s)).value.value;
    assert stage - {STAGE_DATA, STAGE_TOKEN} == map[];
  }

  lemma OthersStayClean(cx: Context, a: Entries, op: Stages.Op, s: string)
    requires CleanStage(cx, a, s) && op.p != StageOf(cx, s)
    ensures CleanStage(cx, Stages.Step(cx.hash, cx.digests.tree, a, op), s)
  {
    OpKeepsStage(cx, a, op, s);
    hide Stages.Step, Holds, OpenStage;
  }

  lemma {:induction false} CopiesGo(cx: Context, a: Entries, copies: seq<string>, exposed: seq<string>, undo: UndoIo)
    requires StagesClean(cx, a, copies, exposed) && Distinct(copies) && CallsGoThrough(undo)
    ensures UndoCopies(cx, a, copies, exposed, undo).1
    decreases |copies|
  {
    hide CleanStage, Holds, Removed, StageName;
    if copies == [] {
    } else {
      assert copies == [copies[0]] + copies[1..];
      if copies[0] in exposed {
        CopiesGo(cx, a, copies[1..], exposed, undo);
      } else {
        var op := Remove(StageOf(cx, copies[0]), undo.copies(copies[0]));
        var after := Stages.Step(cx.hash, cx.digests.tree, a, op);
        assert CleanStage(cx, a, copies[0]);
        CleanStageGoes(cx, a, copies[0]);
        CleanHolds(cx, a, copies[0]);
        forall s | s in copies[1..] && s !in exposed ensures CleanStage(cx, after, s) {
          assert s != copies[0];
          OthersStayClean(cx, a, op, s);
        }
        CopiesGo(cx, after, copies[1..], exposed, undo);
      }
    }
  }

  lemma CleanHolds(cx: Context, a: Entries, s: string)
    requires CleanStage(cx, a, s)
    ensures Holds(cx.hash, a, StageOf(cx, s))
  {}

  lemma {:induction false} CreatedGo(vs: Volumes, created: seq<(string, nat)>, mounted: set<string>, undo: UndoIo)
    requires CreatedThere(vs, created) && NoneMounted(created, mounted) && CallsGoThrough(undo)
    ensures UndoCreated(vs, created, mounted, undo).1
    decreases |created|
  {
    if created == [] {
    } else {
      assert created[0].0 in vs && vs[created[0].0].createdAt == created[0].1;
      var rest := created[1..];
      forall i | 0 <= i < |rest| ensures rest[i].0 in vs - {created[0].0} && vs[rest[i].0].createdAt == rest[i].1 {
        assert rest[i] == created[i + 1];
      }
      forall i, j | 0 <= i < j < |rest| ensures rest[i].0 != rest[j].0 {
        assert rest[i] == created[i + 1] && rest[j] == created[j + 1];
      }
      CreatedGo(vs - {created[0].0}, rest, mounted, undo);
    }
  }

  // ---- What every step of a run keeps ----------------------------------------------------------------

  ghost predicate CanUndo(cx: Context, h0: Host, p: Progress) {
    && StagesClean(cx, p.host.app, p.copies, p.exposed) && Distinct(p.copies)
    && CreatedThere(p.host.volumes, p.state.created) && p.host.mounted == h0.mounted
    && TemplateMarked(cx, p.host, p.templateWritten)
  }

  lemma EventKeepsCreated(h: Host, e: Event, created: seq<(string, nat)>)
    requires CreatedThere(h.volumes, created)
    ensures CreatedThere(AfterEvent(h, e).volumes, created) && AfterEvent(h, e).mounted == h.mounted
  {}

  lemma {:induction false} EventsKeepCreated(h: Host, es: seq<Event>, created: seq<(string, nat)>)
    requires CreatedThere(h.volumes, created)
    ensures var after := AfterEvents(h, es);
            && CreatedThere(after.volumes, created) && after.mounted == h.mounted
            && after.app == h.app && after.files == h.files
    decreases |es|
  {
    if es == [] {
    } else {
      EventKeepsCreated(h, es[0], created);
      EventsKeepCreated(AfterEvent(h, es[0]), es[1..], created);
    }
  }

  lemma EventsCanUndo(cx: Context, h0: Host, p: Progress, turn: Turn)
    requires CanUndo(cx, h0, p)
    ensures CanUndo(cx, h0, Mid(p, turn))
  {
    hide StagesClean, Distinct, CreatedThere, AfterEvents, Templates.Managed;
    EventsKeepCreated(p.host, turn.events, p.state.created);
  }

  /** An early step keeps what is mounted, and volumes where they are. */
  lemma StepKeepsMounts(cx: Context, h: Host, st: State, step: Plans.Step, io: Io)
    requires IsEarly(step)
    ensures RunStep(cx, h, st, step, io).host.mounted == h.mounted
  {
    hide Created, Filled, Exposed, Templates.Written, HostAutostart.AfterWrite, AllUnchanged, CreateOk, Holds,
         CopyVerified, DigestOf;
  }

  lemma CreateKeepsCreated(h: Host, st: State, volume: string, labels: Docker.Labels, io: Io)
    requires CreatedThere(h.volumes, st.created)
    ensures var o := AfterCreate(h, st, volume, labels, io); CreatedThere(o.host.volumes, o.state.created)
  {
    hide LooksOwn, MadeVolume;
    var o := AfterCreate(h, st, volume, labels, io);
    if io.ok && volume !in h.volumes {
      var vs := h.volumes[volume := MadeVolume(h, labels, io)];
      assert CreatedThere(vs, st.created);
      if o.ok {
        assert o.state.created == st.created + [(volume, vs[volume].createdAt)];
      }
    }
  }

  lemma StepKeepsCreated(cx: Context, h: Host, st: State, step: Plans.Step, io: Io)
    requires IsEarly(step) && CreatedThere(h.volumes, st.created)
    ensures var o := RunStep(cx, h, st, step, io); CreatedThere(o.host.volumes, o.state.created)
  {
    if step.CreateVolume? {
      CreateKeepsCreated(h, st, step.volume, step.labels, io);
    } else {
      VolumesFrame(cx, h, st, step, io);
      if step.CopyIntoVolume? { hide DigestOf; }
      hide Created, Filled, Exposed, Templates.Written, HostAutostart.AfterWrite, AllUnchanged, CreateOk, Holds,
           CopyVerified, Listed;
    }
  }

  lemma StepKeepsMarked(cx: Context, p: Progress, step: Plans.Step, io: Io)
    requires IsEarly(step) && Templates.ValidRunId(cx.runId) && TemplateMarked(cx, p.host, p.templateWritten)
    requires step.WriteTemplate? ==> !p.templateWritten && (step.xml == "" || Templates.Marked(step.xml))
    ensures var q := Advance(cx, p, step, io); p.ok ==> TemplateMarked(cx, q.host, q.templateWritten)
  {
    AdvanceParts(cx, p, step, io);
    hide Advance, Templates.Managed, Templates.Marked, Templates.ValidRunId, Templates.TemplatePath,
         Templates.BackupPath, Templates.NoneSentinel, Templates.InspectPath;
    if step.WriteTemplate? {
      Templates.ManagedIffMarked(step.xml);
    } else if step.SaveInspect? {
      Templates.InspectApart(cx.name, cx.runId, cx.name, cx.runId);
      InspectPathOnly(cx, p.host, p.state, step.json, io, Templates.TemplatePath(cx.name));
    } else {
      FilesFrame(cx, p.host, p.state, step, io);
    }
  }

  // ---- The stages -------------------------------------------------------------------------------------

  lemma CopiedStageIsClean(cx: Context, a: Entries, s: string, src: Node, io: Io)
    requires CreateOk(cx.hash, a, StageOf(cx, s), io.create) && CopyVerified(cx.digests.tree, src, io.copy)
    ensures var p := StageOf(cx, s);
            CleanStage(cx, Filled(cx.hash, cx.digests.tree, Created(cx.hash, a, p, io.create), p, src, io.copy), s)
  {
    hide ValidName, ValidNonce, StageName, Token, Discarded;
    var p := StageOf(cx, s);
    CreatedHolds(cx.hash, a, p, io.create);
    CopyIsHeld(cx, a, p, src, io);
    var made := Created(cx.hash, a, p, io.create);
    assert OpenStage(cx.hash, made, p).value.value == map[STAGE_TOKEN := File(Token(p))];
  }

  /** Through a copy's two operations the other stages stay clean. */
  lemma CopyKeepsOthers(cx: Context, h: Host, st: State, volume: string, suffix: string, io: Io, s: string)
    requires CleanStage(cx, h.app, s) && s != suffix
    ensures CleanStage(cx, AfterCopy(cx, h, st, volume, suffix, io).host.app, s)
  {
    CopyApp(cx, h, st, volume, suffix, io);
    var app := AfterCopy(cx, h, st, volume, suffix, io).host.app;
    hide AfterCopy, Created, Filled, CleanStage;
    var p := StageOf(cx, suffix);
    var made := Created(cx.hash, h.app, p, io.create);
    if app != h.app {
      OthersStayClean(cx, h.app, Create(p, io.create), s);
      if app != made {
        var src :| app == Filled(cx.hash, cx.digests.tree, made, p, src, io.copy);
        OthersStayClean(cx, made, Fill(p, src, io.copy), s);
      }
    }
  }

  /** A copy whose stage or folder is there already does nothing. */
  lemma CopyNeedsFree(cx: Context, h: Host, st: State, volume: string, suffix: string, io: Io)
    requires Holds(cx.hash, h.app, StageOf(cx, suffix)) || suffix in h.app
    ensures !AfterCopy(cx, h, st, volume, suffix, io).ok && AfterCopy(cx, h, st, volume, suffix, io).host.app == h.app
  {
    if Holds(cx.hash, h.app, StageOf(cx, suffix)) { StageIsThere(cx.hash, h.app, StageOf(cx, suffix)); }
    hide Holds, StageName, ValidName, ValidNonce, Filled, CopyVerified;
  }

  lemma CopyParts(cx: Context, h: Host, st: State, volume: string, suffix: string, io: Io)
    requires AfterCopy(cx, h, st, volume, suffix, io).ok
    ensures var (p, src) := (StageOf(cx, suffix), Root(h.volumes[volume]));
            && CreateOk(cx.hash, h.app, p, io.create) && CopyVerified(cx.digests.tree, src, io.copy)
            && AfterCopy(cx, h, st, volume, suffix, io).host.app
               == Filled(cx.hash, cx.digests.tree, Created(cx.hash, h.app, p, io.create), p, src, io.copy)
  {
    hide Created, Filled, CreateOk, CopyVerified;
  }

  lemma CopyKeepsClean(cx: Context, h: Host, st: State, volume: string, suffix: string, io: Io,
                       copies: seq<string>, exposed: seq<string>)
    requires StagesClean(cx, h.app, copies, exposed) && Distinct(copies) && forall s | s in exposed :: s in h.app
    ensures var o := AfterCopy(cx, h, st, volume, suffix, io);
            var more := if o.ok then copies + [suffix] else copies;
            StagesClean(cx, o.host.app, more, exposed) && Distinct(more)
  {
    hide CleanStage, Holds;
    var o := AfterCopy(cx, h, st, volume, suffix, io);
    if suffix in copies {
      if suffix !in exposed { CleanHolds(cx, h.app, suffix); }
      CopyNeedsFree(cx, h, st, volume, suffix, io);
      hide AfterCopy;
    } else {
      forall s | s in copies && s !in exposed ensures CleanStage(cx, o.host.app, s) {
        CopyKeepsOthers(cx, h, st, volume, suffix, io, s);
      }
      if o.ok {
        CopyParts(cx, h, st, volume, suffix, io);
        CopiedStageIsClean(cx, h.app, suffix, Root(h.volumes[volume]), io);
      }
      hide AfterCopy;
    }
  }

  /** An exposure that fails and leaves its stage its token leaves it clean. */
  lemma ExposedStageStaysClean(cx: Context, a: Entries, s: string, io: Io)
    requires CleanStage(cx, a, s)
    ensures var (p, after) := (StageOf(cx, s), Exposed(cx.hash, a, StageOf(cx, s), io.expose));
            StageName(cx.hash, p) in after && Holds(cx.hash, after, p) ==> CleanStage(cx, after, s)
  {
    SuffixIsNoStage(cx.hash, s, StageOf(cx, s));
    hide StageName, ValidName, ValidNonce, Token;
  }

  lemma ExposeKeepsClean(cx: Context, h: Host, st: State, suffix: string, io: Io, copies: seq<string>,
                         exposed: seq<string>)
    requires StagesClean(cx, h.app, copies, exposed) && !LateExposeFailure(cx, h, ExposeCopy(suffix), io)
    ensures var o := AfterExpose(cx, h, st, suffix, io);
            StagesClean(cx, o.host.app, copies, if o.ok then exposed + [suffix] else exposed)
  {
    hide CleanStage, Holds, Exposed, StageName;
    var o := AfterExpose(cx, h, st, suffix, io);
    var now := if o.ok then exposed + [suffix] else exposed;
    forall s | s in copies && s !in now ensures CleanStage(cx, o.host.app, s) {
      assert s !in exposed;
      if s != suffix {
        OthersStayClean(cx, h.app, Expose(StageOf(cx, suffix), io.expose), s);
      } else {
        CleanHolds(cx, h.app, s);
        ExposedStageStaysClean(cx, h.app, s, io);
      }
    }
  }

  lemma StepKeepsClean(cx: Context, p: Progress, step: Plans.Step, io: Io)
    requires IsEarly(step) && p.ok && StagesClean(cx, p.host.app, p.copies, p.exposed) && Distinct(p.copies)
    requires forall s | s in p.exposed :: s in p.host.app
    requires !LateExposeFailure(cx, p.host, step, io)
    ensures var q := Advance(cx, p, step, io); StagesClean(cx, q.host.app, q.copies, q.exposed) && Distinct(q.copies)
  {
    AdvanceParts(cx, p, step, io);
    hide Advance, StagesClean, Distinct, LateExposeFailure;
    if step.CopyVolume? {
      CopyKeepsClean(cx, p.host, p.state, step.volume, step.suffix, io, p.copies, p.exposed);
    } else if step.ExposeCopy? {
      ExposeKeepsClean(cx, p.host, p.state, step.suffix, io, p.copies, p.exposed);
    } else {
      AppSteps(cx, p.host, p.state, step, io);
    }
    hide RunStep, AfterCopy, AfterExpose;
  }

  lemma StepCanUndo(cx: Context, h0: Host, p: Progress, step: Plans.Step, io: Io)
    requires IsEarly(step) && p.ok && CanUndo(cx, h0, p) && Templates.ValidRunId(cx.runId)
    requires forall s | s in p.exposed :: s in p.host.app
    requires step.WriteTemplate? ==> !p.templateWritten && (step.xml == "" || Templates.Marked(step.xml))
    requires !LateExposeFailure(cx, p.host, step, io)
    ensures CanUndo(cx, h0, Advance(cx, p, step, io))
  {
    hide StagesClean, Distinct, CreatedThere, TemplateMarked, LateExposeFailure, Templates.Marked, Templates.ValidRunId;
    StepKeepsClean(cx, p, step, io);
    StepKeepsMarked(cx, p, step, io);
    StepKeepsCreated(cx, p.host, p.state, step, io);
    StepKeepsMounts(cx, p.host, p.state, step, io);
    AdvanceParts(cx, p, step, io);
    hide Advance, RunStep;
  }

  // ---- The whole run -----------------------------------------------------------------------------------

  /** Every template the run writes carries orca's marker. */
  ghost predicate WritesMarked(steps: seq<Plans.Step>) {
    forall s | s in steps && s.WriteTemplate? :: s.xml == "" || Templates.Marked(s.xml)
  }

  lemma LateExposureFails(cx: Context, h: Host, st: State, step: Plans.Step, io: Io)
    requires LateExposeFailure(cx, h, step, io)
    ensures !RunStep(cx, h, st, step, io).ok
  {
    hide Holds, Exposed, StageName;
  }

  lemma ExposedAreThere(cx: Context, h0: Host, p: Progress, targets: set<string>, left: Leftover)
    requires Undoable(cx, h0, p, targets, left)
    ensures forall s | s in p.exposed :: s in p.host.app
  {
    hide TemplateKept, ListingKept, VolumesKept;
  }

  lemma BeginCanUndo(cx: Context, h0: Host)
    ensures CanUndo(cx, h0, Begin(h0, NewState(h0)))
  {}

  /** Up to a failure that is no late exposure, everything can be undone. */
  lemma {:induction false} PrefixCanUndo(cx: Context, h0: Host, o: Outline, turns: seq<Turn>, ps: seq<Progress>,
                                         targets: set<string>, i: nat)
    requires Ready(cx, h0) && InOrder(o) && WritesMarked(o.steps) && FailedEarly(cx, h0, o.steps, turns, ps)
    requires o.reused <= targets && OthersWrite(turns, |ps| - 1, targets) && i < |ps|
    requires i == |ps| - 1 ==> !LateExposeFailure(cx, Before(turns, ps, i - 1), o.steps[i - 1], turns[i - 1].io)
    ensures CanUndo(cx, h0, ps[i])
  {
    hide Ready, Undoable, Advance, IsTrace, CanUndo, LateExposeFailure, WritesMarked, TemplateOnce, TargetsMade, Framed,
         Undoes, OthersWrite;
    if i == 0 {
      BeginCanUndo(cx, h0);
    } else {
      var (k, n) := (i - 1, |ps| - 1);
      TraceStep(cx, o.steps, turns, ps, k);
      var p := Mid(ps[k], turns[k]);
      if i < n { StepThatWent(cx, o.steps, turns, ps, k); }
      PrefixCanUndo(cx, h0, o, turns, ps, targets, k);
      EventsCanUndo(cx, h0, ps[k], turns[k]);
      StepIsFit(cx, h0, o, turns, ps, targets, k);
      StepCanUndo(cx, h0, p, o.steps[k], turns[k].io);
    }
  }

  /** A step that others followed was no such exposure. */
  lemma StepThatWent(cx: Context, steps: seq<Plans.Step>, turns: seq<Turn>, ps: seq<Progress>, k: nat)
    requires IsTrace(cx, steps, turns, ps) && |turns| == |steps| && |ps| <= |steps| + 1 && k < |ps| - 2
    ensures !LateExposeFailure(cx, Before(turns, ps, k), steps[k], turns[k].io)
  {
    hide Advance, IsTrace, LateExposeFailure;
    TraceStep(cx, steps, turns, ps, k);
    TraceStep(cx, steps, turns, ps, k + 1);
    var p := Mid(ps[k], turns[k]);
    if LateExposeFailure(cx, p.host, steps[k], turns[k].io) {
      LateExposureFails(cx, p.host, p.state, steps[k], turns[k].io);
      AdvanceParts(cx, p, steps[k], turns[k].io);
    }
  }

  /** What a step of the run meets. */
  lemma StepIsFit(cx: Context, h0: Host, o: Outline, turns: seq<Turn>, ps: seq<Progress>, targets: set<string>, k: nat)
    requires Ready(cx, h0) && InOrder(o) && WritesMarked(o.steps) && FailedEarly(cx, h0, o.steps, turns, ps)
    requires o.reused <= targets && OthersWrite(turns, |ps| - 1, targets) && k < |ps| - 1
    ensures var (p, step) := (Mid(ps[k], turns[k]), o.steps[k]);
            && IsEarly(step) && p.ok && Templates.ValidRunId(cx.runId)
            && (forall s | s in p.exposed :: s in p.host.app)
            && (step.WriteTemplate? ==> !p.templateWritten && (step.xml == "" || Templates.Marked(step.xml)))
  {
    hide Undoable, Advance, IsTrace, TemplateOnce, TargetsMade, Framed, Undoes, OthersWrite, Templates.Marked,
         Templates.ValidRunId, Templates.Unused, ValidName;
    var step := o.steps[k];
    assert step in o.steps;
    PrefixUndoable(cx, h0, o.steps, turns, ps, o.reused, targets, k);
    TraceStep(cx, o.steps, turns, ps, k);
    ExposedAreThere(cx, h0, ps[k], targets, LeftAt(cx, o.steps, turns, ps, k));
    EventsKeepApp(ps[k].host, turns[k].events);
    if step.WriteTemplate? { WrittenOnce(o.steps, k); }
  }

  lemma WrittenOnce(steps: seq<Plans.Step>, k: nat)
    requires TemplateOnce(steps) && k < |steps| && steps[k].WriteTemplate?
    ensures !WriteIn(steps, k)
  {}

  // ---- All compensations ---------------------------------------------------------------------------------

  lemma UndoSucceeds(cx: Context, h0: Host, p: Progress, targets: set<string>, left: Leftover, undo: UndoIo)
    requires Ready(cx, h0) && Undoable(cx, h0, p, targets, left) && !p.ok && CanUndo(cx, h0, p)
    requires CallsGoThrough(undo) && h0.mounted <= h0.volumes.Keys
    ensures RolledBack(cx, p, undo).1
  {
    hide TemplateKept, ListingKept, AppKept, StagesClean, Distinct, CreatedThere, TemplateMarked, Templates.ValidRunId,
         Templates.Unused, ValidName, UndoTemplate, UndoListing, UndoCopies, UndoCreated, UndoStop;
    var (h1, _) := UndoTemplate(cx, p.host, p.templateWritten, undo);
    TemplateComes(cx, h0.files, p.host, p.templateWritten, undo);
    TemplateUndoFrame(cx, p.host, p.templateWritten, undo);
    var (h2, _) := UndoListing(cx, h1, p.listingChanged, undo);
    ListingUndone(cx, h1, p.listingChanged, undo);
    CopiesGo(cx, h2.app, p.copies, p.exposed, undo);
    forall i | 0 <= i < |p.state.created| ensures p.state.created[i].0 !in h2.mounted {
      assert p.state.created[i] in p.state.created;
    }
    CreatedGo(h2.volumes, p.state.created, h2.mounted, undo);
    StopUndone(h2, p.stopped && cx.wasRunning, undo);
    StopUndone(h2.(app := UndoCopies(cx, h2.app, p.copies, p.exposed, undo).0,
                   volumes := UndoCreated(h2.volumes, p.state.created, h2.mounted, undo).0),
               p.stopped && cx.wasRunning, undo);
  }

  lemma TemplateUndoFrame(cx: Context, h: Host, written: bool, undo: UndoIo)
    ensures var after := UndoTemplate(cx, h, written, undo).0; after == h.(files := after.files)
  {
    hide Templates.Restored;
  }

  lemma ListingUndone(cx: Context, h: Host, changed: bool, undo: UndoIo)
    requires undo.listing
    ensures var (after, ok) := UndoListing(cx, h, changed, undo); ok && after == h.(listing := after.listing)
  {
    hide HostAutostart.AfterWrite;
  }

  lemma StopUndone(h: Host, stopped: bool, undo: UndoIo)
    requires undo.start
    ensures UndoStop(h, stopped, undo).1
  {}

  /** A stage without its token cannot be taken for the run's, so its removal fails. */
  lemma {:induction false} TokenlessStays(cx: Context, a: Entries, copies: seq<string>, exposed: seq<string>,
                                          undo: UndoIo,
                                          s: string)
    requires s in copies && s !in exposed && !Holds(cx.hash, a, StageOf(cx, s))
    ensures !UndoCopies(cx, a, copies, exposed, undo).1
    decreases |copies|
  {
    hide Holds, Removed, StageName;
    assert copies == [copies[0]] + copies[1..];
    if copies[0] in exposed {
      TokenlessStays(cx, a, copies[1..], exposed, undo, s);
    } else if copies[0] != s {
      var op := Remove(StageOf(cx, copies[0]), undo.copies(copies[0]));
      var after := Stages.Step(cx.hash, cx.digests.tree, a, op);
      if Holds(cx.hash, after, StageOf(cx, s)) {
        StepMakesOwnStage(cx.hash, cx.digests.tree, a, op, StageOf(cx, s));
      }
      TokenlessStays(cx, after, copies[1..], exposed, undo, s);
    }
  }

  lemma LateExposureStays(cx: Context, h0: Host, p: Progress, targets: set<string>, step: Plans.Step, io: Io,
                          undo: UndoIo)
    requires Undoable(cx, h0, p, targets, NOTHING) && p.ok && LateExposeFailure(cx, p.host, step, io)
    ensures !RolledBack(cx, Advance(cx, p, step, io), undo).1
  {
    var (s, q) := (step.suffix, Advance(cx, p, step, io));
    LateExposureLeaves(cx, h0, p, targets, step, io);
    hide Advance, Holds, UndoCopies, Undoable, LateExposeFailure, UndoTemplate, UndoListing, UndoCreated, UndoStop;
    TemplateUndoFrame(cx, q.host, q.templateWritten, undo);
    var h1 := UndoTemplate(cx, q.host, q.templateWritten, undo).0;
    ListingUndoFrame(cx, h1, q.listingChanged, undo);
    TokenlessStays(cx, q.host.app, q.copies, q.exposed, undo, s);
  }

  /** The failed exposure's copy is noted, its stage there without the token. */
  lemma LateExposureLeaves(cx: Context, h0: Host, p: Progress, targets: set<string>, step: Plans.Step, io: Io)
    requires Undoable(cx, h0, p, targets, NOTHING) && p.ok && LateExposeFailure(cx, p.host, step, io)
    ensures var q := Advance(cx, p, step, io);
            && step.suffix in q.copies && step.suffix !in q.exposed
            && !Holds(cx.hash, q.host.app, StageOf(cx, step.suffix))
  {
    hide TemplateKept, ListingKept, VolumesKept, StageName, ValidName;
    LateExposureFails(cx, p.host, p.state, step, io);
    AdvanceParts(cx, p, step, io);
    hide Advance, Holds;
    assert StageKnown(cx, h0.app, p.copies, step.suffix);
    assert forall x | x in p.exposed :: x in p.host.app;
  }

  lemma ListingUndoFrame(cx: Context, h: Host, changed: bool, undo: UndoIo)
    ensures var after := UndoListing(cx, h, changed, undo).0; after == h.(listing := after.listing)
  {
    hide HostAutostart.AfterWrite;
  }

  /**
   Of a run that failed before its rebuild, whoever interfered: if the calls go through, every
   compensation succeeds, exactly unless the failing step was an exposure that took its stage's
   token and left the stage.
   */
  lemma CompensationSucceedsIff(cx: Context, h0: Host, o: Outline, turns: seq<Turn>, ps: seq<Progress>, undo: UndoIo)
    requires Ready(cx, h0) && InOrder(o) && WritesMarked(o.steps) && h0.mounted <= h0.volumes.Keys
    requires FailedEarly(cx, h0, o.steps, turns, ps) && CallsGoThrough(undo)
    ensures var n := |ps| - 1;
            RolledBack(cx, ps[n], undo).1
            <==> !LateExposeFailure(cx, Before(turns, ps, n - 1), o.steps[n - 1], turns[n - 1].io)
  {
    hide Ready, RolledBack, Undoable, Advance, IsTrace, OthersWrite, WrittenByOthers, LateExposeFailure, CanUndo,
         WritesMarked, CallsGoThrough, Undoes, WritesOnly;
    var n := |ps| - 1;
    var targets := o.reused + WrittenByOthers(turns, n);
    WrittenAreTargets(turns, n, o.reused);
    if LateExposeFailure(cx, Before(turns, ps, n - 1), o.steps[n - 1], turns[n - 1].io) {
      LateExposureRun(cx, h0, o, turns, ps, targets, undo);
    } else {
      OtherFailureRun(cx, h0, o, turns, ps, targets, undo);
    }
  }

  lemma LateExposureRun(cx: Context, h0: Host, o: Outline, turns: seq<Turn>, ps: seq<Progress>, targets: set<string>,
                        undo: UndoIo)
    requires Ready(cx, h0) && InOrder(o) && FailedEarly(cx, h0, o.steps, turns, ps)
    requires o.reused <= targets && OthersWrite(turns, |ps| - 1, targets)
    requires var k := |ps| - 2; LateExposeFailure(cx, Before(turns, ps, k), o.steps[k], turns[k].io)
    ensures !RolledBack(cx, ps[|ps| - 1], undo).1
  {
    hide Ready, RolledBack, Undoable, Advance, IsTrace, OthersWrite, LateExposeFailure, TemplateOnce, TargetsMade,
         Framed, WritesOnly;
    var k := |ps| - 2;
    TraceStep(cx, o.steps, turns, ps, k);
    LastEventsUndoable(cx, h0, o, turns, ps, targets);
    LateExposureStays(cx, h0, Mid(ps[k], turns[k]), targets, o.steps[k], turns[k].io, undo);
  }

  lemma OtherFailureRun(cx: Context, h0: Host, o: Outline, turns: seq<Turn>, ps: seq<Progress>, targets: set<string>,
                        undo: UndoIo)
    requires Ready(cx, h0) && InOrder(o) && WritesMarked(o.steps) && h0.mounted <= h0.volumes.Keys
    requires FailedEarly(cx, h0, o.steps, turns, ps) && CallsGoThrough(undo)
    requires o.reused <= targets && OthersWrite(turns, |ps| - 1, targets)
    requires var k := |ps| - 2; !LateExposeFailure(cx, Before(turns, ps, k), o.steps[k], turns[k].io)
    ensures RolledBack(cx, ps[|ps| - 1], undo).1
  {
    hide Ready, RolledBack, Undoable, Advance, IsTrace, OthersWrite, LateExposeFailure, CanUndo, TemplateOnce,
         TargetsMade, Framed, WritesMarked, CallsGoThrough, WritesOnly;
    var n := |ps| - 1;
    PrefixUndoable(cx, h0, o.steps, turns, ps, o.reused, targets, n);
    PrefixCanUndo(cx, h0, o, turns, ps, targets, n);
    UndoSucceeds(cx, h0, ps[n], targets, LeftAt(cx, o.steps, turns, ps, n), undo);
  }

  lemma LastEventsUndoable(cx: Context, h0: Host, o: Outline, turns: seq<Turn>, ps: seq<Progress>, targets: set<string>)
    requires Ready(cx, h0) && InOrder(o) && FailedEarly(cx, h0, o.steps, turns, ps)
    requires o.reused <= targets && OthersWrite(turns, |ps| - 1, targets)
    ensures Undoable(cx, h0, Mid(ps[|ps| - 2], turns[|ps| - 2]), targets, NOTHING)
  {
    hide Ready, Undoable, Advance, IsTrace, TemplateOnce, TargetsMade, Framed, LeftBehind, WritesOnly;
    var k := |ps| - 2;
    PrefixUndoable(cx, h0, o.steps, turns, ps, o.reused, targets, k);
    TraceStep(cx, o.steps, turns, ps, k);
    EventsUndoable(cx, h0, ps[k], turns[k], targets);
  }
}
