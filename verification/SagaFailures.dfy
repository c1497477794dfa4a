/**
 Runs whose failure their compensations, all successful, do not wholly undo, and runs that
 lose a volume nothing copied.
 */
module SagaFailures {
  import opened Wrappers
  import opened Names
  import opened Conversions
  import opened Plans
  import opened PlanLaws
  import opened Stages
  import opened Saga
  import opened SagaUndo
  import opened SagaWrites
  import opened SagaRollback
  import opened SagaAdopt
  import Templates
  import Numerals
  import HostAutostart

  const RUN_ID := "20250101-000000-00000000"
  const NONCE := "0000000000000000"

  /** A container without a template, stopped and not listed, on an otherwise empty host. */
  const HOST := Host(false, 0, 0, 1, map[], "", map[], map[], {})

  function ContextOf(hash: Hash, digests: Digests, check: Templates.Check): Context {
    Context("app", RUN_ID, NONCE, false, false, {"anon"}, {"anon"}, hash, digests, check)
  }

  const CONVERSION := Conversion("anon", "app_data", "/data", false, map[], false, false)

  /** One anonymous volume to convert, and nothing else to do. */
  const PLAN := Plan([], [CONVERSION], false, false, false, "", "", false, ["anon"], None, None)

  // ---- The run can begin ------------------------------------------------------------------

  lemma TwoDigits(s: string)
    requires |s| == 2 && Templates.AreDigits(s)
    ensures Templates.Number(s) == 10 * (s[0] as int - '0' as int) + (s[1] as int - '0' as int)
  {
    assert s[..1] == [s[0]] && [s[0]][..0] == "";
    assert Numerals.DigitsValue([s[0]]) == s[0] as int - '0' as int;
  }

  lemma SlicesOf(date: string, time: string, rest: string)
    requires |date| == 8 && |time| == 6
    ensures var id := date + "-" + time + rest; id[..8] == date && id[9..15] == time
  {}

  lemma TimestampParts()
    ensures "20250101"[6..] == "01" == "20250101"[4..6]
    ensures "000000"[..2] == "000000"[2..4] == "000000"[4..] == "00"
  {}

  lemma RunIdSlices()
    ensures RUN_ID[..8] == "20250101" && RUN_ID[9..15] == "000000"
  {
    assert RUN_ID == "20250101" + "-" + "000000" + "-00000000";
    SlicesOf("20250101", "000000", "-00000000");
  }

  lemma RunIdDigits()
    ensures Templates.AreDigits("20250101") && Templates.AreDigits("000000") && |RUN_ID| == 24
    ensures RUN_ID[8] == '-' == RUN_ID[15] && forall i | 16 <= i < 24 :: IsLowerHex(RUN_ID[i])
  {}

  lemma TimestampIsReal()
    ensures Templates.AreDigits(RUN_ID[..8]) && Templates.AreDigits(RUN_ID[9..15]) && Templates.RealTimestamp(RUN_ID)
  {
    hide Templates.Number, Templates.AreDigits;
    RunIdSlices();
    RunIdDigits();
    TimestampParts();
    TwoDigitNumbers();
  }

  lemma TwoDigitNumbers()
    ensures Templates.AreDigits("01") && Templates.AreDigits("00")
    ensures Templates.Number("01") == 1 && Templates.Number("00") == 0
  {
    hide Templates.Number;
    TwoDigits("01");
    TwoDigits("00");
  }

  lemma RunIdIsValid()
    ensures Templates.ValidRunId(RUN_ID)
  {
    hide Templates.Number, Templates.AreDigits, Templates.RealTimestamp, IsLowerHex;
    RunIdSlices();
    RunIdDigits();
    TimestampIsReal();
  }

  lemma HostIsReady(cx: Context, hash: Hash, digests: Digests, check: Templates.Check)
    requires cx == ContextOf(hash, digests, check)
    ensures Ready(cx, HOST)
  {
    hide Templates.ValidRunId;
    RunIdIsValid();
    assert HostAutostart.ParseAutostart("") == [];
  }

  // ---- Its second step fails late -------------------------------------------------------------

  function Answer(ok: bool, seen: bool, each: string -> RemoveIo): Io {
    Io.Io(ok, seen, true, false, CreateIo(true, true, Synced, true),
          CopyIo(None, true, DiscardIo(None, true, true, true)),
       ExposeIo(true, true, true), Templates.ALL_WRITTEN, None, IntoIo(0, 0, map[], "", true, map[]),
       RebuildIo({}, {}, false), each)
  }

  function Turns(each: string -> RemoveIo): seq<Turn> {
    seq(|PlanSteps(PLAN)|, i => Turn([], Answer(true, i != 1, each)))
  }

  lemma PlanBegins()
    ensures |PlanSteps(PLAN)| > 2 && PlanSteps(PLAN)[0] == Probe
            && PlanSteps(PLAN)[1] == CreateVolume("app_data", map[])
  {
    assert StopPart(PLAN) == [Probe];
    assert ConversionSteps([CONVERSION])[0] == CreateVolume("app_data", map[]);
    assert CopyPart(PLAN)[0] == CreateVolume("app_data", map[]);
  }

  /** The plan's steps are in order. */
  lemma PlanIsInOrder() returns (o: Outline)
    ensures InOrder(o) && o.steps == PlanSteps(PLAN)
  {
    assert ConvertedNames([CONVERSION]) == ["anon"];
    assert MigratedNames([]) == [];
    hide InOrder;
    o := StepsWellOrdered(PLAN);
  }

  /** What the failing step finds and leaves. */
  lemma SecondStepFails(cx: Context, p: Progress, io: Io)
    requires p == Begin(HOST, NewState(HOST)) && io.ok && !io.seen && io.rival.None?
    ensures var q := Advance(cx, p, CreateVolume("app_data", map[]), io);
            && !q.ok && !q.templateWritten && !q.listingChanged && !q.stopped && q.copies == [] && q.state.created == []
            && q.host == HOST.(volumes := map["app_data" := EmptyVolume(map[], 1)], clock := 2)
            && LateCreateFailure(p.host, CreateVolume("app_data", map[]), io)
  {}

  lemma FirstStepPasses(cx: Context, p: Progress, io: Io)
    requires p == Begin(HOST, NewState(HOST)) && io.ok
    ensures Advance(cx, p, Probe, io) == p
  {}

  lemma NothingToUndo(cx: Context, p: Progress, undo: UndoIo)
    requires !p.templateWritten && !p.listingChanged && !p.stopped && p.copies == [] && p.state.created == []
    ensures RolledBack(cx, p, undo) == (p.host, true)
  {}

  lemma QuietMid(p: Progress, io: Io)
    ensures Mid(p, Turn([], io)) == p
  {}

  lemma TwoStepFailure(cx: Context, h0: Host, steps: seq<Plans.Step>, turns: seq<Turn>, p0: Progress, p2: Progress)
    requires |steps| == |turns| > 2 && turns[0].events == [] && turns[1].events == []
    requires IsEarly(steps[0]) && IsEarly(steps[1])
    requires p0 == Begin(h0, NewState(h0)) == Advance(cx, p0, steps[0], turns[0].io)
    requires p2 == Advance(cx, p0, steps[1], turns[1].io) && !p2.ok
    ensures FailedEarly(cx, h0, steps, turns, [p0, p0, p2])
    ensures Before(turns, [p0, p0, p2], 1) == h0
  {
    hide Advance, AfterEvents;
    QuietMid(p0, turns[0].io);
    QuietMid(p0, turns[1].io);
    var ps := [p0, p0, p2];
    assert Ran(cx, steps, turns, ps, 0) && Ran(cx, steps, turns, ps, 1);
  }

  lemma TurnsOf(each: string -> RemoveIo)
    ensures |Turns(each)| == |PlanSteps(PLAN)|
    ensures forall i | 0 <= i < |Turns(each)| :: Turns(each)[i] == Turn([], Answer(true, i != 1, each))
  {
    hide PlanSteps;
  }

  /**
   A run of an ordered plan, on a host ready for it, in which the inspection after
   `docker volume create` fails: every compensation succeeds, and the volume is still there.
   */
  lemma VolumeIsLeft(hash: Hash, digests: Digests, check: Templates.Check, each: string -> RemoveIo, undo: UndoIo)
    returns (cx: Context, o: Outline, turns: seq<Turn>, ps: seq<Progress>)
    ensures Ready(cx, HOST) && InOrder(o) && FailedEarly(cx, HOST, o.steps, turns, ps)
    ensures |ps| == 3 && LateCreateFailure(Before(turns, ps, 1), o.steps[1], turns[1].io)
    ensures RolledBack(cx, ps[2], undo).1
    ensures "app_data" in RolledBack(cx, ps[2], undo).0.volumes && "app_data" !in HOST.volumes
  {
    hide *;
    cx := ContextOf(hash, digests, check);
    HostIsReady(cx, hash, digests, check);
    o := PlanIsInOrder();
    PlanBegins();
    turns := Turns(each);
    TurnsOf(each);
    var p0 := Begin(HOST, NewState(HOST));
    AnswersOk(each);
    FirstStepPasses(cx, p0, turns[0].io);
    SecondStepFails(cx, p0, turns[1].io);
    var p2 := Advance(cx, p0, o.steps[1], turns[1].io);
    ps := [p0, p0, p2];
    EarlyBeginning();
    TwoStepFailure(cx, HOST, o.steps, turns, p0, p2);
    NothingToUndo(cx, p2, undo);
    BeginsAt();
  }

  lemma AnswersOk(each: string -> RemoveIo)
    ensures Answer(true, true, each).ok && Answer(true, false, each).ok && !Answer(true, false, each).seen
    ensures Answer(true, false, each).rival.None?
  {}

  lemma EarlyBeginning()
    ensures IsEarly(Probe) && IsEarly(CreateVolume("app_data", map[]))
  {}

  lemma BeginsAt()
    ensures Begin(HOST, NewState(HOST)).host == HOST && HOST.volumes == map[]
  {}

  // ---- A copy that does not verify and is not wholly discarded ---------------------------------

  /** One volume to migrate, and nothing else to do. */
  const MIGRATING := Plan([Migration("data", "data")], [], false, false, false, "", "", false, [], None, None)

  const STORE := HOST.(volumes := map["data" := EmptyVolume(map[], 0)])

  function MigratingContext(hash: Hash, digests: Digests, check: Templates.Check): Context {
    ContextOf(hash, digests, check).(converted := {}, ownAnonymous := {})
  }

  /** `cp` fails, and the discard after it cannot remove the token. */
  function BadCopy(each: string -> RemoveIo): Io {
    Answer(true, true, each).(copy := CopyIo(None, false, DiscardIo(None, true, false, true)))
  }

  function MigratingTurns(each: string -> RemoveIo): seq<Turn> {
    seq(|PlanSteps(MIGRATING)|, i => Turn([], BadCopy(each)))
  }

  lemma MigrationBegins()
    ensures |PlanSteps(MIGRATING)| > 2 && PlanSteps(MIGRATING)[0] == Probe
    ensures PlanSteps(MIGRATING)[1] == CopyVolume("data", "data")
  {
    assert StopPart(MIGRATING) == [Probe];
    assert CopyPart(MIGRATING)[0] == CopyVolume("data", "data");
  }

  lemma MigrationIsInOrder() returns (o: Outline)
    ensures InOrder(o) && o.steps == PlanSteps(MIGRATING)
  {
    assert ConvertedNames([]) == [];
    hide InOrder;
    o := StepsWellOrdered(MIGRATING);
  }

  lemma StoreIsReady(hash: Hash, digests: Digests, check: Templates.Check)
    ensures Ready(MigratingContext(hash, digests, check), STORE)
  {
    hide Templates.ValidRunId;
    RunIdIsValid();
    assert HostAutostart.ParseAutostart("") == [];
  }

  lemma BadCopyLeaves(hash: Hash, digests: Digests, check: Templates.Check, each: string -> RemoveIo)
    ensures var (cx, io) := (MigratingContext(hash, digests, check), BadCopy(each));
            && io.ok && LateCopyFailure(cx, STORE, CopyVolume("data", "data"), io)
  {
    hide Token;
    assert ValidName("data") && ValidName("app") && ValidNonce(NONCE);
    var stage := map[STAGE_TOKEN := File(Token(Pair(NONCE, "data")))];
    assert STAGE_DATA !in stage;
  }

  lemma BadCopyFails(cx: Context, p: Progress, io: Io)
    requires p == Begin(STORE, NewState(STORE)) && LateCopyFailure(cx, STORE, CopyVolume("data", "data"), io)
    ensures var q := Advance(cx, p, CopyVolume("data", "data"), io);
            && !q.ok && !q.templateWritten && !q.listingChanged && !q.stopped && q.copies == [] && q.state.created == []
  {
    AdvanceParts(cx, p, CopyVolume("data", "data"), io);
    CopyLeavingFails(cx, STORE, p.state, "data", "data", io);
    hide CopyLeavesStage, Advance;
    VolumesFrame(cx, STORE, p.state, CopyVolume("data", "data"), io);
    hide AfterCopy;
  }

  lemma FirstStepOfStore(cx: Context, p: Progress, io: Io)
    requires p == Begin(STORE, NewState(STORE)) && io.ok
    ensures Advance(cx, p, Probe, io) == p
  {}

  lemma MigratingTurnsOf(each: string -> RemoveIo)
    ensures |MigratingTurns(each)| == |PlanSteps(MIGRATING)|
    ensures forall i | 0 <= i < |MigratingTurns(each)| :: MigratingTurns(each)[i] == Turn([], BadCopy(each))
  {
    hide PlanSteps;
  }

  lemma MigrationBeginsEarly()
    ensures IsEarly(Probe) && IsEarly(CopyVolume("data", "data"))
  {}

  /**
   A run of an ordered plan whose copy does not verify and keeps its token when it is discarded:
   every compensation succeeds, and something of the run's is still in the appdata directory.
   */
  lemma StageIsLeft(hash: Hash, digests: Digests, check: Templates.Check, each: string -> RemoveIo, undo: UndoIo)
    returns (cx: Context, o: Outline, turns: seq<Turn>, ps: seq<Progress>)
    ensures Ready(cx, STORE) && InOrder(o) && FailedEarly(cx, STORE, o.steps, turns, ps) && |ps| == 3
    ensures RolledBack(cx, ps[2], undo).1
    ensures ps[2].copies == [] && exists e :: e in RolledBack(cx, ps[2], undo).0.app && e !in STORE.app
  {
    hide *;
    cx := MigratingContext(hash, digests, check);
    StoreIsReady(hash, digests, check);
    o := MigrationIsInOrder();
    MigrationBegins();
    turns := MigratingTurns(each);
    MigratingTurnsOf(each);
    var p0 := Begin(STORE, NewState(STORE));
    BadCopyLeaves(hash, digests, check, each);
    FirstStepOfStore(cx, p0, turns[0].io);
    BadCopyFails(cx, p0, turns[1].io);
    var p2 := Advance(cx, p0, o.steps[1], turns[1].io);
    ps := [p0, p0, p2];
    MigrationBeginsEarly();
    TwoStepFailure(cx, STORE, o.steps, turns, p0, p2);
    NothingToUndo(cx, p2, undo);
    StageLeftIffLateCopy(cx, STORE, o, turns, ps, undo);
  }

  // ---- An exposure that stops between the token and the stage -----------------------------------

  /** Every call goes through, but for the removal of the exposed copy's stage. */
  function HalfExposed(each: string -> RemoveIo): Io {
    Answer(true, true, each).(copy := CopyIo(Some(Root(EmptyVolume(map[], 0))), true,
                                             DiscardIo(None, true, true, true)),
                              expose := ExposeIo(true, true, false))
  }

  function ExposingTurns(each: string -> RemoveIo): (turns: seq<Turn>)
    ensures |turns| == |PlanSteps(MIGRATING)|
  {
    seq(|PlanSteps(MIGRATING)|, i => Turn([], HalfExposed(each)))
  }

  lemma ExposingTurnsAre(each: string -> RemoveIo)
    ensures forall i | 0 <= i < |ExposingTurns(each)| :: ExposingTurns(each)[i] == Turn([], HalfExposed(each))
  {
    hide PlanSteps;
  }

  lemma MigrationSteps()
    ensures var steps := PlanSteps(MIGRATING);
            && |steps| > 5 && steps[0] == Probe && steps[1] == CopyVolume("data", "data") && steps[2] == SaveInspect("")
            && steps[3] == WriteTemplate("") && steps[4] == ExposeCopy("data")
            && (forall i | 0 <= i < 5 :: IsEarly(steps[i])) && forall s | s in steps && s.WriteTemplate? :: s.xml == ""
  {
    assert StopPart(MIGRATING) == [Probe] && CopyPart(MIGRATING) == [CopyVolume("data", "data")];
    assert WritePart(MIGRATING) == [SaveInspect(""), WriteTemplate("")];
    assert BeforeRebuild(MIGRATING)[4] == ExposeCopy("data");
    var steps := PlanSteps(MIGRATING);
    forall s | s in steps && s.WriteTemplate? ensures s.xml == "" {
      var i :| 0 <= i < |steps| && steps[i] == s;
      PlanTemplateOnce(MIGRATING);
      assert steps[3].WriteTemplate?;
    }
  }

  /** After the copy, its stage is clean and holds it, and the folder is free. */
  lemma MigrationCopies(cx: Context, p: Progress, each: string -> RemoveIo)
    requires p.ok && !p.rebuilt && p.host == STORE && cx.name == "app" && cx.nonce == NONCE
    ensures var q := Advance(cx, p, CopyVolume("data", "data"), HalfExposed(each));
            && q.ok && q.host == STORE.(app := q.host.app)
            && CleanStage(cx, q.host.app, "data") && "data" !in q.host.app
            && STAGE_DATA in OpenStage(cx.hash, q.host.app, StageOf(cx, "data")).value.value
  {
    var (io, src) := (HalfExposed(each), Root(EmptyVolume(map[], 0)));
    assert ValidName("data") && ValidName("app") && ValidNonce(NONCE);
    hide Token;
    assert CreateOk(cx.hash, map[], StageOf(cx, "data"), io.create);
    CopiedStageIsClean(cx, map[], "data", src, io);
    SuffixIsNoStage(cx.hash, "data", StageOf(cx, "data"));
    hide CleanStage;
  }

  lemma CleanExposureIsLate(cx: Context, h: Host, s: string, io: Io)
    requires CleanStage(cx, h.app, s) && s !in h.app && io.expose == ExposeIo(true, true, false)
    requires STAGE_DATA in OpenStage(cx.hash, h.app, StageOf(cx, s)).value.value
    ensures LateExposeFailure(cx, h, ExposeCopy(s), io)
  {
    hide ValidName, ValidNonce, Token;
    SuffixIsNoStage(cx.hash, s, StageOf(cx, s));
    var stage := OpenStage(cx.hash, h.app, StageOf(cx, s)).value.value;
    assert stage - {STAGE_DATA} - {STAGE_DATA, STAGE_TOKEN} == map[];
  }

  lemma StepsKeepApp(cx: Context, q: Progress, step: Plans.Step, io: Io)
    requires step.Probe? || step.SaveInspect? || step.WriteTemplate?
    ensures Advance(cx, q, step, io).host.app == q.host.app
  {
    AdvanceHost(cx, q, step, io);
    AppSteps(cx, q.host, q.state, step, io);
    hide RunStep, Advance;
  }

  lemma AllGoesThrough(each: string -> RemoveIo)
    ensures var io := HalfExposed(each);
            io.ok && io.write == Templates.ALL_WRITTEN && io.expose == ExposeIo(true, true, false)
  {}

  lemma StoreHasNoFiles(cx: Context)
    ensures Templates.InspectPath(cx.name, cx.runId) !in STORE.files && STORE.mounted <= STORE.volumes.Keys
    ensures forall p: Progress :: p == Begin(STORE, NewState(STORE)) ==> p.ok && !p.rebuilt && p.host == STORE
  {}

  lemma SavedIsUnused(cx: Context, files: Templates.Files)
    requires Templates.ValidRunId(cx.runId) && files == STORE.files[Templates.InspectPath(cx.name, cx.runId) := ""]
    ensures Templates.Unused(files, cx.name, cx.runId)
  {
    Templates.InspectApart(cx.name, cx.runId, cx.name, cx.runId);
    hide Templates.ValidRunId, Templates.InspectPath, Templates.BackupPath, Templates.NoneSentinel;
  }

  /**
   A run of an ordered plan whose exposure takes the token of its stage and then fails: though every
   call of the compensations goes through, they do not all succeed.
   */
  lemma StageCannotGo(hash: Hash, digests: Digests, check: Templates.Check, each: string -> RemoveIo, undo: UndoIo)
    returns (cx: Context, o: Outline, turns: seq<Turn>, ps: seq<Progress>)
    requires check("app", "") && CallsGoThrough(undo)
    ensures Ready(cx, STORE) && InOrder(o) && WritesMarked(o.steps) && FailedEarly(cx, STORE, o.steps, turns, ps)
    ensures |ps| == 6 && LateExposeFailure(cx, Before(turns, ps, 4), o.steps[4], turns[4].io)
    ensures !RolledBack(cx, ps[5], undo).1
  {
    hide *;
    cx := MigratingContext(hash, digests, check);
    MigratingContextIs(hash, digests, check);
    StoreIsReady(hash, digests, check);
    ReadyHasName(cx, STORE);
    o := MigrationIsInOrder();
    MigrationSteps();
    turns := ExposingTurns(each);
    ExposingTurnsAre(each);
    AllGoesThrough(each);
    StoreHasNoFiles(cx);
    var p0 := Begin(STORE, NewState(STORE));
    ps := [p0];
    OneIsRun(cx, o.steps, turns, STORE);
    EarlyPasses(cx, p0, Probe, turns[0].io);
    FirstStepOfStore(cx, p0, turns[0].io);
    ps := RunSnoc(cx, o.steps, turns, ps, STORE);
    MigrationCopies(cx, ps[1], each);
    ps := RunSnoc(cx, o.steps, turns, ps, STORE);
    EarlyPasses(cx, ps[2], SaveInspect(""), turns[2].io);
    StepsKeepApp(cx, ps[2], SaveInspect(""), turns[2].io);
    ps := RunSnoc(cx, o.steps, turns, ps, STORE);
    SavedIsUnused(cx, ps[3].host.files);
    EarlyPasses(cx, ps[3], WriteTemplate(""), turns[3].io);
    StepsKeepApp(cx, ps[3], WriteTemplate(""), turns[3].io);
    ps := RunSnoc(cx, o.steps, turns, ps, STORE);
    CleanExposureIsLate(cx, ps[4].host, "data", turns[4].io);
    LateExposureFails(cx, ps[4].host, ps[4].state, o.steps[4], turns[4].io);
    AdvanceOk(cx, ps[4], o.steps[4], turns[4].io);
    ps := RunSnoc(cx, o.steps, turns, ps, STORE);
    RunIsFailedEarly(cx, STORE, o.steps, turns, ps);
    MarkedAll(o.steps);
    CompensationSucceedsIff(cx, STORE, o, turns, ps, undo);
  }

  lemma MigratingContextIs(hash: Hash, digests: Digests, check: Templates.Check)
    ensures var cx := MigratingContext(hash, digests, check);
            cx.name == "app" && cx.nonce == NONCE && cx.check == check && ValidName("app")
  {}

  lemma MarkedAll(steps: seq<Plans.Step>)
    requires forall s | s in steps && s.WriteTemplate? :: s.xml == ""
    ensures WritesMarked(steps)
  {}

  lemma RunIsFailedEarly(cx: Context, h0: Host, steps: seq<Plans.Step>, turns: seq<Turn>, ps: seq<Progress>)
    requires IsRunOf(cx, steps, turns, ps, h0) && |ps| > 1 && !ps[|ps| - 1].ok && |ps| - 1 <= |steps| == |turns|
    requires forall i | 0 <= i < |ps| - 1 :: IsEarly(steps[i])
    ensures FailedEarly(cx, h0, steps, turns, ps)
  {
    hide IsTrace, IsEarly;
  }

  // ---- A rebuild that drops a volume nothing copied ---------------------------------------------

  /** Every call goes through, and docker drops `v` when it rebuilds. */
  function DroppingTurns(p: Plan, v: string, each: string -> RemoveIo): (turns: seq<Turn>)
    ensures |turns| == |PlanSteps(p)|
  {
    seq(|PlanSteps(p)|, i => Turn([], Answer(true, true, each).(rebuild := RebuildIo({v}, {}, false))))
  }

  /** A plan of set_icon that converts nothing, for a run that can save and write its template. */
  ghost predicate IconOnly(cx: Context, h0: Host, p: Plan) {
    && p.migrations == [] && p.conversions == [] && Ready(cx, h0)
    && Templates.InspectPath(cx.name, cx.runId) !in h0.files && cx.check(cx.name, p.xml)
  }

  lemma IconOnlyBegins(p: Plan)
    requires p.migrations == [] && p.conversions == []
    ensures var (steps, r) := (PlanSteps(p), |BeforeRebuild(p)|);
            && 3 <= r < |steps| && steps[r] == Rebuild
            && steps[0] == Probe && steps[1] == SaveInspect(p.json) && steps[2] == WriteTemplate(p.xml)
            && forall i | 3 <= i < r :: steps[i].SetAutostart?
  {
    assert StopPart(p) == [Probe] && GuardPart(p) == [];
    assert BeforeRebuild(p) == [Probe] + WritePart(p);
  }

  /** A step before the rebuild of such a plan passes and leaves the volumes; so the rebuild finds its template. */
  lemma EarlyPasses(cx: Context, q: Progress, step: Plans.Step, io: Io)
    requires q.ok && io.ok && io.write == Templates.ALL_WRITTEN && ValidName(cx.name)
    requires match step
             case Probe => true
             case SaveInspect(_) => Templates.InspectPath(cx.name, cx.runId) !in q.host.files
             case WriteTemplate(xml) =>
               && Templates.ValidRunId(cx.runId) && cx.check(cx.name, xml)
               && Templates.Unused(q.host.files, cx.name, cx.runId)
             case SetAutostart(_) => true
             case _ => false
    ensures var after := Advance(cx, q, step, io);
            && after.ok && after.host.volumes == q.host.volumes
            && match step
               case SaveInspect(json) =>
                 after.host.files == q.host.files[Templates.InspectPath(cx.name, cx.runId) := json]
               case WriteTemplate(_) => Templates.TemplatePath(cx.name) in after.host.files
               case _ => after.host.files == q.host.files
  {
    hide Templates.ValidRunId, ValidName, Templates.TemplatePath, Templates.InspectPath, Templates.BackupPath,
         Templates.NoneSentinel, HostAutostart.AfterWrite;
  }

  lemma RunSnoc(cx: Context, steps: seq<Plans.Step>, turns: seq<Turn>, ps: seq<Progress>, h0: Host)
    returns (more: seq<Progress>)
    requires IsRunOf(cx, steps, turns, ps, h0) && |ps| <= |steps| && ps[|ps| - 1].ok && turns[|ps| - 1].events == []
    ensures IsRunOf(cx, steps, turns, more, h0) && |more| == |ps| + 1 && more[..|ps|] == ps
    ensures Before(turns, more, |ps| - 1) == ps[|ps| - 1].host
    ensures more[|ps|] == Advance(cx, ps[|ps| - 1], steps[|ps| - 1], turns[|ps| - 1].io)
  {
    hide Advance;
    TraceSnoc(cx, steps, turns, ps);
    var n := |ps| - 1;
    QuietMid(ps[n], turns[n].io);
    more := ps + [Advance(cx, Mid(ps[n], turns[n]), steps[n], turns[n].io)];
  }

  lemma OneIsRun(cx: Context, steps: seq<Plans.Step>, turns: seq<Turn>, h0: Host)
    requires |turns| == |steps|
    ensures IsRunOf(cx, steps, turns, [Begin(h0, NewState(h0))], h0)
  {}

  lemma {:induction false} ReachesRebuild(cx: Context, h0: Host, p: Plan, v: string, each: string -> RemoveIo, i: nat)
    returns (ps: seq<Progress>)
    requires IconOnly(cx, h0, p) && i <= |BeforeRebuild(p)|
    ensures IsRunOf(cx, PlanSteps(p), DroppingTurns(p, v, each), ps, h0) && |ps| == i + 1
    ensures ps[i].ok && ps[i].host.volumes == h0.volumes && (i <= 1 ==> ps[i].host.files == h0.files)
    ensures i == 2 ==> ps[i].host.files == h0.files[Templates.InspectPath(cx.name, cx.runId) := p.json]
    ensures i >= 3 ==> Templates.TemplatePath(cx.name) in ps[i].host.files
    decreases i
  {
    hide PlanSteps, BeforeRebuild, Advance, Templates.InspectPath, Templates.TemplatePath, ValidName, Ready, IsRunOf,
         Templates.ValidRunId, Templates.BackupPath, Templates.NoneSentinel, Answer, AfterEvents;
    IconOnlyBegins(p);
    ReadyHasName(cx, h0);
    var turns := DroppingTurns(p, v, each);
    DroppingTurnsAre(p, v, each);
    if i == 0 {
      ps := [Begin(h0, NewState(h0))];
      OneIsRun(cx, PlanSteps(p), turns, h0);
    } else {
      ps := ReachesRebuild(cx, h0, p, v, each, i - 1);
      if i == 3 { Templates.InspectApart(cx.name, cx.runId, cx.name, cx.runId); }
      EarlyPasses(cx, ps[i - 1], PlanSteps(p)[i - 1], turns[i - 1].io);
      ps := RunSnoc(cx, PlanSteps(p), turns, ps, h0);
    }
  }

  lemma RebuildDrops(cx: Context, q: Progress, io: Io, v: string)
    requires ValidName(cx.name) && Templates.TemplatePath(cx.name) in q.host.files
    requires v in cx.ownAnonymous && v in io.rebuild.dropped
    ensures v !in Advance(cx, q, Rebuild, io).host.volumes
  {
    hide ValidName, Templates.TemplatePath;
  }

  /**
   Whenever set_icon converts nothing, each anonymous volume of its container can go uncopied: all
   it takes is a docker that drops the volume at the rebuild.
   */
  lemma UncopiedCanGo(cx: Context, h0: Host, p: Plan, v: string, each: string -> RemoveIo)
    returns (turns: seq<Turn>, ps: seq<Progress>, k: nat)
    requires IconOnly(cx, h0, p) && v in h0.volumes && v in cx.ownAnonymous
    ensures Removes(cx, h0, p, turns, ps, k, v) && !IsKept(cx, p, turns, ps, k, v)
    ensures forall t | t in turns :: t.events == []
  {
    hide *;
    IconOnlyIs(cx, h0, p);
    IconOnlyBegins(p);
    k := |BeforeRebuild(p)|;
    turns := DroppingTurns(p, v, each);
    DroppingTurnsAre(p, v, each);
    ps := ReachesRebuild(cx, h0, p, v, each, k);
    ReadyHasName(cx, h0);
    RebuildDrops(cx, ps[k], turns[k].io, v);
    assert turns[k] in turns;
    ps := RunSnoc(cx, PlanSteps(p), turns, ps, h0);
    assert ps[k] == ps[..k + 1][k];
    QuietIsAtomic(PlanSteps(p), turns);
    RemovesAt(cx, h0, p, turns, ps, k, v);
    NothingIsKept(cx, p, turns, ps, k, v);
  }

  lemma IconOnlyIs(cx: Context, h0: Host, p: Plan)
    requires IconOnly(cx, h0, p)
    ensures p.migrations == [] && p.conversions == [] && Ready(cx, h0)
  {
    hide Ready;
  }

  lemma QuietIsAtomic(steps: seq<Plans.Step>, turns: seq<Turn>)
    requires |turns| == |steps| && forall t | t in turns :: t.events == []
    ensures GuardAtomic(steps, turns)
  {}

  lemma RemovesAt(cx: Context, h0: Host, p: Plan, turns: seq<Turn>, ps: seq<Progress>, k: nat, v: string)
    requires IsRunOf(cx, PlanSteps(p), turns, ps, h0) && GuardAtomic(PlanSteps(p), turns) && k + 1 < |ps|
    requires v in Before(turns, ps, k).volumes && v !in ps[k + 1].host.volumes
    ensures Removes(cx, h0, p, turns, ps, k, v) && k < |ps| - 1 <= |PlanSteps(p)| == |turns|
  {
    hide PlanSteps, IsTrace, GuardAtomic, AfterEvents;
  }

  lemma DroppingTurnsAre(p: Plan, v: string, each: string -> RemoveIo)
    ensures forall t | t in DroppingTurns(p, v, each) :: t.events == [] && t.io.rebuild.dropped == {v} && t.io.ok
                                                        && t.io.write == Templates.ALL_WRITTEN
  {
    hide PlanSteps;
  }

  lemma ReadyHasName(cx: Context, h0: Host)
    requires Ready(cx, h0)
    ensures ValidName(cx.name) && Templates.ValidRunId(cx.runId) && Templates.Unused(h0.files, cx.name, cx.runId)
  {
    hide ValidName, Templates.ValidRunId, Templates.Unused;
  }

  lemma NothingIsKept(cx: Context, p: Plan, turns: seq<Turn>, ps: seq<Progress>, k: nat, v: string)
    requires p.migrations == [] && p.conversions == []
    requires k < |ps| - 1 <= |PlanSteps(p)| == |turns| && v in Before(turns, ps, k).volumes
    ensures !IsKept(cx, p, turns, ps, k, v)
  {
    hide PlanSteps, KeptIn, CopyIsThere, CopyPlanned, AfterEvents;
    PlanCopiesIff(p, v);
    forall j: nat ensures !KeptIn(cx, PlanSteps(p), turns, ps, k, v, j) {
      if KeptIn(cx, PlanSteps(p), turns, ps, k, v, j) { KeptIsPlanned(cx, PlanSteps(p), turns, ps, k, v, j); }
    }
  }
}
