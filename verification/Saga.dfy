/**
 Applying a plan (src/docker_adopt/mod.rs): the steps on the host, compensation of a
 failure before the rebuild, and a reported recovery after it. Between steps others may
 start or stop the container and write its volumes.
 */
module Saga {
  import opened Wrappers
  import opened Text
  import opened Names
  import Docker
  import opened Plans
  import opened Stages
  import Templates
  import HostAutostart

  // ---- The host ---------------------------------------------------------------------------

  /** A docker volume: its data root and what docker records. */
  datatype Volume = Volume(uid: nat, mode: nat, entries: Entries, xattrs: string, labels: Docker.Labels, createdAt: nat)

  function Root(v: Volume): Node {
    Dir(v.uid, v.mode, v.entries)
  }

  type Volumes = map<string, Volume>

  /**
   What one run sees and changes: the container, the templates directory, the autostart
   file, the container's appdata directory, the volumes, and which of them are mounted.
   Times are read off `clock`.
   */
  datatype Host = Host(
    running: bool, startedAt: nat, finishedAt: nat, clock: nat,
    files: Templates.Files, listing: string, app: Entries, volumes: Volumes, mounted: set<string>)

  /** The manifest digests: of a tree, and of a tree with extended attributes. */
  datatype Digests = Digests(tree: Digest, full: (Node, string) -> string)

  /** What a run knows of its container and itself. */
  datatype Context = Context(
    name: string, runId: string, nonce: string, wasRunning: bool, listedBefore: bool,
    converted: set<string>, ownAnonymous: set<string>, hash: Hash, digests: Digests, check: Templates.Check)

  datatype State = State(manifests: map<string, string>, created: seq<(string, nat)>, stopped: Option<(nat, nat)>)

  function Times(h: Host): (nat, nat) {
    (h.startedAt, h.finishedAt)
  }

  /** `ApplyState::new`. */
  function NewState(h: Host): State {
    State(map[], [], if h.running then None else Some(Times(h)))
  }

  function Listed(cx: Context, h: Host): bool {
    cx.name in HostAutostart.ParseAutostart(h.listing)
  }

  function StageOf(cx: Context, suffix: string): Pair {
    Pair(cx.nonce, suffix)
  }

  function DigestOf(cx: Context, v: Volume, xattrs: bool): string {
    if xattrs then cx.digests.full(Root(v), v.xattrs) else cx.digests.tree(Root(v))
  }

  function Stopped(h: Host): Host {
    if h.running then h.(running := false, finishedAt := h.clock, clock := h.clock + 1) else h
  }

  function Started(h: Host): Host {
    if h.running then h else h.(running := true, startedAt := h.clock, clock := h.clock + 1)
  }

  // ---- What the outside answers to a step ----------------------------------------------------

  /** What `cp` makes of a volume's root, whether all around it passed, and what clearing leaves. */
  datatype IntoIo = IntoIo(uid: nat, mode: nat, entries: Entries, xattrs: string, passed: bool, left: Entries)

  /** The old container's anonymous volumes docker drops, what is mounted after, and a failure's leavings. */
  datatype RebuildIo = RebuildIo(dropped: set<string>, mounted: set<string>, running: bool)

  datatype RemoveIo = RemoveIo(listed: bool, readable: bool, removed: bool)

  /**
   `rival`: the volume someone else made under the name between the look and the creation.
   `ok`: the step's own call goes through, checks not modelled here included. `seen` and
   `probed`: the reads around it do. `effect`: a call that is reported as failed was made.
   */
  datatype Io = Io(
    ok: bool, seen: bool, probed: bool, effect: bool,
    create: CreateIo, copy: CopyIo, expose: ExposeIo, write: Templates.WriteIo,
    rival: Option<Volume>, into: IntoIo, rebuild: RebuildIo, each: string -> RemoveIo)

  // ---- One step --------------------------------------------------------------------------------

  datatype Outcome = Outcome(host: Host, state: State, ok: bool, digest: Option<string>)

  function Plain(h: Host, st: State, ok: bool): Outcome {
    Outcome(h, st, ok, None)
  }

  datatype Since = Same | Changed | Unreadable

  /** `changed_since_copy`. */
  function ChangedSinceCopy(cx: Context, h: Host, st: State, volume: string, xattrs: bool, readable: bool): Since {
    if volume !in st.manifests then Changed
    else if !readable || volume !in h.volumes then Unreadable
    else if DigestOf(cx, h.volumes[volume], xattrs) == st.manifests[volume] then Same
    else Changed
  }

  function AfterStop(h: Host, st: State, io: Io): Outcome {
    if !io.ok then Plain(h, st, false)
    else Plain(Stopped(h), if io.seen then st.(stopped := Some(Times(Stopped(h)))) else st, true)
  }

  function AfterCopy(cx: Context, h: Host, st: State, volume: string, suffix: string, io: Io): Outcome {
    if !io.ok || !ValidName(cx.name) || h.running || volume !in h.volumes then Plain(h, st, false)
    else
      var (p, src) := (StageOf(cx, suffix), Root(h.volumes[volume]));
      var made := Created(cx.hash, h.app, p, io.create);
      if !CreateOk(cx.hash, h.app, p, io.create) then Plain(h.(app := made), st, false)
      else
        var verified := CopyVerified(cx.digests.tree, src, io.copy);
        Outcome(h.(app := Filled(cx.hash, cx.digests.tree, made, p, src, io.copy)), st, verified,
                if verified then Some(cx.digests.tree(src)) else None)
  }

  function AfterExpose(cx: Context, h: Host, st: State, suffix: string, io: Io): Outcome {
    var p := StageOf(cx, suffix);
    var app := Exposed(cx.hash, h.app, p, io.expose);
    Plain(h.(app := app), st, Holds(cx.hash, h.app, p) && StageName(cx.hash, p) !in app)
  }

  function AfterSaveInspect(cx: Context, h: Host, st: State, json: string, io: Io): Outcome {
    var path := Templates.InspectPath(cx.name, cx.runId);
    if !io.ok || path in h.files then Plain(h, st, false)
    else if io.write.saved then Plain(h.(files := h.files[path := json]), st, true)
    else if io.write.part.Some? then
      Plain(h.(files := h.files[path := FirstBytes(json, io.write.part.value)]), st, false)
    else Plain(h, st, false)
  }

  function AfterTemplate(cx: Context, h: Host, st: State, xml: string, io: Io): Outcome {
    var (files, r) := Templates.Written(cx.check, h.files, cx.name, xml, cx.runId, io.write);
    Plain(h.(files := files), st, r.Ok?)
  }

  function AfterListing(cx: Context, h: Host, st: State, on: bool, io: Io): Outcome {
    if ValidName(cx.name) && (io.ok || io.effect) then
      Plain(h.(listing := HostAutostart.AfterWrite(h.listing, cx.name, on)), st, io.ok)
    else Plain(h, st, false)
  }

  /** The container is running afterwards exactly when it is listed, if the rebuild succeeds. */
  function AfterRebuild(cx: Context, h: Host, st: State, io: Io): Outcome {
    if !ValidName(cx.name) || Templates.TemplatePath(cx.name) !in h.files then Plain(h, st, false)
    else
      var running := if io.ok then Listed(cx, h) else io.rebuild.running;
      Plain(h.(volumes := h.volumes - (io.rebuild.dropped * cx.ownAnonymous), mounted := io.rebuild.mounted,
                running := running, startedAt := h.clock, clock := h.clock + 1), st, io.ok)
  }

  function AfterEnsureState(h: Host, st: State, running: bool, io: Io): Outcome {
    if !io.seen then Plain(h, st, false)
    else if h.running == running then Plain(h, st, true)
    else if !io.ok then Plain(h, st, false)
    else Plain(if running then Started(h) else Stopped(h), st, true)
  }

  function Sources(cx: Context, st: State): set<string> {
    st.manifests.Keys + cx.converted
  }

  predicate AllUnchanged(cx: Context, h: Host, st: State) {
    forall v | v in Sources(cx, st) :: ChangedSinceCopy(cx, h, st, v, v in cx.converted, true) == Same
  }

  function AfterEnsureStopped(cx: Context, h: Host, st: State, io: Io): Outcome {
    Plain(h, st, io.seen && !h.running && st.stopped == Some(Times(h)) && io.ok && AllUnchanged(cx, h, st))
  }

  /** Owned by root, with docker's default mode, and empty. */
  function EmptyVolume(labels: Docker.Labels, createdAt: nat): Volume {
    Volume(ROOT, 493, map[], "", labels, createdAt)
  }

  /** What stands under the name after `docker volume create`: it succeeds on an existing volume too. */
  function MadeVolume(h: Host, labels: Docker.Labels, io: Io): Volume {
    io.rival.GetOr(EmptyVolume(labels, h.clock))
  }

  /** The volume can only be this run's: just these labels, and nothing in it. */
  predicate LooksOwn(v: Volume, labels: Docker.Labels) {
    v.labels == labels && v.entries == map[]
  }

  function AfterCreate(h: Host, st: State, volume: string, labels: Docker.Labels, io: Io): Outcome {
    if !io.ok || volume in h.volumes then Plain(h, st, false)
    else
      var v := MadeVolume(h, labels, io);
      var made := h.(volumes := h.volumes[volume := v], clock := h.clock + 1);
      if !io.seen || !io.probed || !LooksOwn(v, labels) then Plain(made, st, false)
      else Plain(made, st.(created := st.created + [(volume, v.createdAt)]), true)
  }

  function Copied(v: Volume, io: IntoIo): Volume {
    v.(uid := io.uid, mode := io.mode, entries := io.entries, xattrs := io.xattrs)
  }

  function AfterInto(cx: Context, h: Host, st: State, source: string, target: string, io: Io): Outcome {
    if !io.ok || h.running || source !in h.volumes || target !in h.volumes || target in h.mounted
       || h.volumes[target].entries != map[]
    then Plain(h, st, false)
    else
      var want := DigestOf(cx, h.volumes[source], true);
      var copied := Copied(h.volumes[target], io.into);
      if io.into.passed && DigestOf(cx, copied, true) == want then
        Outcome(h.(volumes := h.volumes[target := copied]), st, true, Some(want))
      else Plain(h.(volumes := h.volumes[target := copied.(entries := io.into.left)]), st, false)
  }

  /** `docker volume rm`: refused for a mounted volume. */
  function AfterRemove(cx: Context, h: Host, st: State, volume: string, io: Io): Outcome {
    if !io.seen then Plain(h, st, false)
    else if !h.running then Plain(h, st, true)
    else
      match ChangedSinceCopy(cx, h, st, volume, false, io.probed)
      case Changed => Plain(h, st, true)
      case Unreadable => Plain(h, st, false)
      case Same =>
        if io.ok && volume !in h.mounted then Plain(h.(volumes := h.volumes - {volume}), st, true)
        else Plain(h, st, false)
  }

  /** The walk over the candidates no container mounts: the volumes left, and whether it got through. */
  function Walk(cx: Context, h: Host, st: State, candidates: seq<string>, each: string -> RemoveIo): (Volumes, bool)
    decreases |candidates|
  {
    if candidates == [] then (h.volumes, true)
    else
      var (v, rest) := (candidates[0], candidates[1..]);
      if v in h.mounted then Walk(cx, h, st, rest, each)
      else if !each(v).listed then (h.volumes, false)
      else if v !in h.volumes then Walk(cx, h, st, rest, each)
      else
        match ChangedSinceCopy(cx, h, st, v, true, each(v).readable)
        case Changed => Walk(cx, h, st, rest, each)
        case Unreadable => (h.volumes, false)
        case Same =>
          if each(v).removed then Walk(cx, h.(volumes := h.volumes - {v}), st, rest, each) else (h.volumes, false)
  }

  function AfterRemoveOwn(cx: Context, h: Host, st: State, candidates: seq<string>, io: Io): Outcome {
    if !io.seen then Plain(h, st, false)
    else
      var (volumes, ok) := Walk(cx, h, st, candidates, io.each);
      Plain(h.(volumes := volumes), st, ok)
  }

  /** `run_step`. */
  function RunStep(cx: Context, h: Host, st: State, step: Step, io: Io): Outcome {
    match step
    case Stop => AfterStop(h, st, io)
    case CopyVolume(volume, suffix) => AfterCopy(cx, h, st, volume, suffix, io)
    case ExposeCopy(suffix) => AfterExpose(cx, h, st, suffix, io)
    case SaveInspect(json) => AfterSaveInspect(cx, h, st, json, io)
    case WriteTemplate(xml) => AfterTemplate(cx, h, st, xml, io)
    case SetAutostart(on) => AfterListing(cx, h, st, on, io)
    case Rebuild => AfterRebuild(cx, h, st, io)
    case EnsureState(running) => AfterEnsureState(h, st, running, io)
    case VerifyManaged(running) => Plain(h, st, io.ok && (running ==> h.running))
    case EnsureStopped => AfterEnsureStopped(cx, h, st, io)
    case CreateVolume(volume, labels) => AfterCreate(h, st, volume, labels, io)
    case CopyIntoVolume(source, target) => AfterInto(cx, h, st, source, target, io)
    case RemoveVolume(volume) => AfterRemove(cx, h, st, volume, io)
    case RemoveOwnAnonymousVolumes(candidates) => AfterRemoveOwn(cx, h, st, candidates, io)
    case _ => Plain(h, st, io.ok)
  }

  // ---- Others, between steps --------------------------------------------------------------------

  datatype Event =
    | StartContainer
    | StopContainer
    | WriteVolume(volume: string, uid: nat, mode: nat, entries: Entries, xattrs: string)

  function AfterEvent(h: Host, e: Event): Host {
    match e
    case StartContainer => Started(h)
    case StopContainer => Stopped(h)
    case WriteVolume(v, uid, mode, entries, xattrs) =>
      if v !in h.volumes then h
      else h.(volumes := h.volumes[v := h.volumes[v].(uid := uid, mode := mode, entries := entries, xattrs := xattrs)])
  }

  function AfterEvents(h: Host, es: seq<Event>): Host
    decreases |es|
  {
    if es == [] then h else AfterEvents(AfterEvent(h, es[0]), es[1..])
  }

  /** What others do before a step, and the answers to the step. */
  datatype Turn = Turn(events: seq<Event>, io: Io)

  // ---- The apply loop ------------------------------------------------------------------------------

  datatype Progress = Progress(
    host: Host, state: State, rebuilt: bool, stopped: bool, templateWritten: bool, listingChanged: bool,
    copies: seq<string>, exposed: seq<string>, ok: bool)

  function Begin(h: Host, st: State): Progress {
    Progress(h, st, false, false, false, false, [], [], true)
  }

  /** Marked before the step runs: a failed one may have taken effect. */
  function Marked(p: Progress, step: Step): Progress {
    p.(rebuilt := p.rebuilt || step.Rebuild?,
       listingChanged := p.listingChanged || (step.SetAutostart? && !p.rebuilt))
  }

  function Source(step: Step): Option<string> {
    match step
    case CopyVolume(volume, _) => Some(volume)
    case CopyIntoVolume(source, _) => Some(source)
    case _ => None
  }

  function Recorded(st: State, step: Step, digest: Option<string>): State {
    if Source(step).Some? && digest.Some?
    then st.(manifests := st.manifests[Source(step).value := digest.value]) else st
  }

  /** Marked once the step succeeded. */
  function Succeeded(p: Progress, step: Step, o: Outcome): Progress {
    p.(host := o.host, state := Recorded(o.state, step, o.digest),
       stopped := p.stopped || step.Stop?,
       templateWritten := p.templateWritten || step.WriteTemplate?,
       copies := if step.CopyVolume? then p.copies + [step.suffix] else p.copies,
       exposed := if step.ExposeCopy? then p.exposed + [step.suffix] else p.exposed)
  }

  function Advance(cx: Context, p: Progress, step: Step, io: Io): Progress {
    var q := Marked(p, step);
    var o := RunStep(cx, q.host, q.state, step, io);
    if o.ok then Succeeded(q, step, o) else q.(host := o.host, state := o.state, ok := false)
  }

  function Mid(p: Progress, turn: Turn): Progress {
    p.(host := AfterEvents(p.host, turn.events))
  }

  /** The host as step `i` finds it, after what others did. */
  function Before(turns: seq<Turn>, ps: seq<Progress>, i: nat): Host
    requires i < |ps| && i < |turns|
  {
    Mid(ps[i], turns[i]).host
  }

  /** Step `i` ran, on what the one before it and others left. */
  predicate Ran(cx: Context, steps: seq<Step>, turns: seq<Turn>, ps: seq<Progress>, i: nat)
    requires i + 1 < |ps| <= |steps| + 1 && |turns| == |steps|
  {
    ps[i].ok && ps[i + 1] == Advance(cx, Mid(ps[i], turns[i]), steps[i], turns[i].io)
  }

  /** The progress before, between and after the steps that ran; only the last may have failed. */
  predicate IsTrace(cx: Context, steps: seq<Step>, turns: seq<Turn>, ps: seq<Progress>) {
    && 0 < |ps| <= |steps| + 1 && |turns| == |steps|
    && forall i: nat | i < |ps| - 1 :: Ran(cx, steps, turns, ps, i)
  }

  lemma TraceSnoc(cx: Context, steps: seq<Step>, turns: seq<Turn>, ps: seq<Progress>)
    requires IsTrace(cx, steps, turns, ps) && |ps| <= |steps| && ps[|ps| - 1].ok
    ensures var i := |ps| - 1;
            IsTrace(cx, steps, turns, ps + [Advance(cx, Mid(ps[i], turns[i]), steps[i], turns[i].io)])
  {
    hide Advance;
    var n := |ps| - 1;
    var more := ps + [Advance(cx, Mid(ps[n], turns[n]), steps[n], turns[n].io)];
    forall i: nat | i < |more| - 1 ensures Ran(cx, steps, turns, more, i) {
      if i < n { assert Ran(cx, steps, turns, ps, i); }
    }
  }

  // ---- Compensation ---------------------------------------------------------------------------------

  datatype UndoIo = UndoIo(
    restore: Templates.RestoreIo, listing: bool, copies: string -> DiscardIo,
    inspected: string -> bool, removed: string -> bool, start: bool)

  function UndoTemplate(cx: Context, h: Host, written: bool, io: UndoIo): (Host, bool) {
    if !written then (h, true)
    else
      var (files, r) := Templates.Restored(h.files, cx.name, cx.runId, io.restore);
      (h.(files := files), r.Ok?)
  }

  function UndoListing(cx: Context, h: Host, changed: bool, io: UndoIo): (Host, bool) {
    if !changed then (h, true)
    else if !io.listing then (h, false)
    else (h.(listing := HostAutostart.AfterWrite(h.listing, cx.name, cx.listedBefore)), true)
  }

  /** The copies not exposed, each removed by its token; all are tried. */
  function UndoCopies(cx: Context, app: Entries, copies: seq<string>, exposed: seq<string>, io: UndoIo): (Entries,
                      bool) {
    if copies == [] then (app, true)
    else if copies[0] in exposed then UndoCopies(cx, app, copies[1..], exposed, io)
    else
      var p := StageOf(cx, copies[0]);
      var after := Removed(cx.hash, app, p, io.copies(copies[0]));
      var (rest, ok) := UndoCopies(cx, after, copies[1..], exposed, io);
      (rest, ok && Holds(cx.hash, app, p) && StageName(cx.hash, p) !in after)
  }

  /** The volumes this run created, each removed only if it still is the one created. */
  function UndoCreated(volumes: Volumes, created: seq<(string, nat)>, mounted: set<string>, io: UndoIo): (Volumes,
                       bool) {
    if created == [] then (volumes, true)
    else
      var (v, at) := created[0];
      if io.inspected(v) && v in volumes && volumes[v].createdAt == at && io.removed(v) && v !in mounted
      then UndoCreated(volumes - {v}, created[1..], mounted, io)
      else (UndoCreated(volumes, created[1..], mounted, io).0, false)
  }

  function UndoStop(h: Host, stopped: bool, io: UndoIo): (Host, bool) {
    if !stopped then (h, true)
    else if io.start then (Started(h), true)
    else (h, false)
  }

  /** The host after every compensation, and whether all of them succeeded. */
  function RolledBack(cx: Context, p: Progress, io: UndoIo): (Host, bool) {
    var (h1, ok1) := UndoTemplate(cx, p.host, p.templateWritten, io);
    var (h2, ok2) := UndoListing(cx, h1, p.listingChanged, io);
    var (app, ok3) := UndoCopies(cx, h2.app, p.copies, p.exposed, io);
    var (volumes, ok4) := UndoCreated(h2.volumes, p.state.created, h2.mounted, io);
    var (h5, ok5) := UndoStop(h2.(app := app, volumes := volumes), p.stopped && cx.wasRunning, io);
    (h5, ok1 && ok2 && ok3 && ok4 && ok5)
  }
}
