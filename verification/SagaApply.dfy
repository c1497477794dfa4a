/** `run_step` and `apply` (src/docker_adopt/mod.rs) as they run, against their specification. */
module SagaApply {
  import opened Wrappers
  import opened Text
  import opened Names
  import Docker
  import opened Plans
  import opened Stages
  import opened Saga
  import Templates
  import HostAutostart

  class Runner {
    const cx: Context
    var host: Host
    var state: State

    constructor (cx: Context, host: Host)
      ensures this.cx == cx && this.host == host && state == NewState(host)
    {
      this.cx, this.host, this.state := cx, host, NewState(host);
    }

    /** `changed_since_copy`. */
    method CompareWithCopy(volume: string, xattrs: bool, readable: bool) returns (r: Since)
      ensures r == ChangedSinceCopy(cx, host, state, volume, xattrs, readable)
    {
      if volume !in state.manifests { return Changed; }
      if !readable || volume !in host.volumes { return Unreadable; }
      var now := DigestOf(cx, host.volumes[volume], xattrs);
      return if now == state.manifests[volume] then Same else Changed;
    }

    /** The stopped check: never ran since, and every source as it was copied. */
    method EnsureStoppedStep(io: Io) returns (ok: bool)
      ensures ok == AfterEnsureStopped(cx, host, state, io).ok
    {
      if !io.seen || host.running { return false; }
      if state.stopped.None? || state.stopped.value != Times(host) { return false; }
      if !io.ok { return false; }
      var todo := Sources(cx, state);
      while todo != {}
        invariant todo <= Sources(cx, state)
        invariant forall v | v in Sources(cx, state) && v !in todo ::
            ChangedSinceCopy(cx, host, state, v, v in cx.converted, true) == Same
        decreases todo
      {
        var v :| v in todo;
        var since := CompareWithCopy(v, v in cx.converted, true);
        if since != Same { return false; }
        todo := todo - {v};
      }
      return true;
    }

    /** The walk of `remove-own-anonymous-volumes`; what it removed stays removed when it stops. */
    method RemoveOwnStep(candidates: seq<string>, io: Io) returns (ok: bool)
      modifies this`host
      ensures Plain(host, state, ok) == AfterRemoveOwn(cx, old(host), state, candidates, io)
    {
      if !io.seen { return false; }
      ghost var all := Walk(cx, host, state, candidates, io.each);
      var i := 0;
      while i < |candidates|
        invariant i <= |candidates|
        invariant host == old(host).(volumes := host.volumes)
        invariant Walk(cx, host, state, candidates[i..], io.each) == all
      {
        var v := candidates[i];
        assert candidates[i..][1..] == candidates[i + 1..];
        i := i + 1;
        if v in host.mounted { continue; }
        if !io.each(v).listed { return false; }
        if v !in host.volumes { continue; }
        var since := CompareWithCopy(v, true, io.each(v).readable);
        if since == Unreadable { return false; }
        if since == Same {
          if !io.each(v).removed { return false; }
          host := host.(volumes := host.volumes - {v});
        }
      }
      return true;
    }

    method CreateVolumeStep(volume: string, labels: Docker.Labels, io: Io) returns (ok: bool)
      modifies this
      ensures Plain(host, state, ok) == AfterCreate(old(host), old(state), volume, labels, io)
    {
      if !io.ok || volume in host.volumes { return false; }
      if io.rival.Some? {
        host := host.(volumes := host.volumes[volume := io.rival.value]);
      }
      if volume !in host.volumes {
        host := host.(volumes := host.volumes[volume := EmptyVolume(labels, host.clock)]);
      }
      host := host.(clock := host.clock + 1);
      if !io.seen { return false; }
      var v := host.volumes[volume];
      if v.labels != labels { return false; }
      if !io.probed || v.entries != map[] { return false; }
      state := state.(created := state.created + [(volume, v.createdAt)]);
      return true;
    }

    method RemoveVolumeStep(volume: string, io: Io) returns (ok: bool)
      modifies this`host
      ensures Plain(host, state, ok) == AfterRemove(cx, old(host), state, volume, io)
    {
      if !io.seen { return false; }
      if !host.running { return true; }
      var since := CompareWithCopy(volume, false, io.probed);
      match since {
        case Changed => return true;
        case Unreadable => return false;
        case Same =>
          if !io.ok || volume in host.mounted { return false; }
          host := host.(volumes := host.volumes - {volume});
          return true;
      }
    }

    method StopStep(io: Io) returns (ok: bool)
      modifies this
      ensures Plain(host, state, ok) == AfterStop(old(host), old(state), io)
    {
      if !io.ok { return false; }
      if host.running {
        host := host.(running := false, finishedAt := host.clock, clock := host.clock + 1);
      }
      if io.seen {
        state := state.(stopped := Some((host.startedAt, host.finishedAt)));
      }
      return true;
    }

    method EnsureStateStep(running: bool, io: Io) returns (ok: bool)
      modifies this`host
      ensures Plain(host, state, ok) == AfterEnsureState(old(host), state, running, io)
    {
      if !io.seen { return false; }
      var now := host.running;
      if now == running { return true; }
      if !io.ok { return false; }
      if running {
        host := host.(running := true, startedAt := host.clock, clock := host.clock + 1);
      } else {
        host := host.(running := false, finishedAt := host.clock, clock := host.clock + 1);
      }
      return true;
    }

    /** The root side's volume copy: a stage is created, filled and verified, or discarded. */
    method CopyVolumeStep(volume: string, suffix: string, io: Io) returns (ok: bool, digest: Option<string>)
      modifies this`host
      ensures Outcome(host, state, ok, digest) == AfterCopy(cx, old(host), state, volume, suffix, io)
    {
      if !io.ok || !ValidName(cx.name) || host.running || volume !in host.volumes { return false, None; }
      var p, src := StageOf(cx, suffix), Root(host.volumes[volume]);
      var dir := new AppDir(cx.hash, cx.digests.tree, host.app);
      var made := dir.CreateStage(p, io.create);
      if made.Err? {
        host := host.(app := dir.entries);
        return false, None;
      }
      CreatedHolds(cx.hash, host.app, p, io.create);
      hide Created, Filled, CreateOk, Holds;
      var filled := dir.FillStage(p, src, io.copy);
      host := host.(app := dir.entries);
      if filled.Err? { return false, None; }
      return true, Some(cx.digests.tree(src));
    }

    method ExposeCopyStep(suffix: string, io: Io) returns (ok: bool)
      modifies this`host
      ensures Plain(host, state, ok) == AfterExpose(cx, old(host), state, suffix, io)
    {
      hide Exposed, Holds;
      var dir := new AppDir(cx.hash, cx.digests.tree, host.app);
      var r := dir.ExposeStaged(StageOf(cx, suffix), io.expose);
      host := host.(app := dir.entries);
      return r.Ok?;
    }

    method SaveInspectStep(json: string, io: Io) returns (ok: bool)
      modifies this`host
      ensures Plain(host, state, ok) == AfterSaveInspect(cx, old(host), state, json, io)
    {
      var path := Templates.InspectPath(cx.name, cx.runId);
      if !io.ok || path in host.files { return false; }
      if !io.write.saved && io.write.part.None? { return false; }
      var bytes := if io.write.saved then json else FirstBytes(json, io.write.part.value);
      host := host.(files := host.files[path := bytes]);
      return io.write.saved;
    }

    method WriteTemplateStep(xml: string, io: Io) returns (ok: bool)
      modifies this`host
      ensures Plain(host, state, ok) == AfterTemplate(cx, old(host), state, xml, io)
    {
      hide Templates.Written;
      var dir := new Templates.TemplateDir(cx.check, host.files);
      var r := dir.WriteTemplateIn(cx.name, xml, cx.runId, io.write);
      host := host.(files := dir.files);
      return r.Ok?;
    }

    /** The list is read, and replaced only if the name is not as wanted. */
    method SetAutostartStep(on: bool, io: Io) returns (ok: bool)
      modifies this`host
      ensures Plain(host, state, ok) == AfterListing(cx, old(host), state, on, io)
    {
      hide HostAutostart.AutostartWith;
      if !ValidName(cx.name) { return false; }
      if io.ok || io.effect {
        var next := HostAutostart.AutostartWith(host.listing, cx.name, on);
        if next.Some? { host := host.(listing := next.value); }
      }
      return io.ok;
    }

    /** dockerMan recreates the container, drops anonymous volumes of the old one, and starts it if it is listed. */
    method RebuildStep(io: Io) returns (ok: bool)
      modifies this`host
      ensures Plain(host, state, ok) == Saga.AfterRebuild(cx, old(host), state, io)
    {
      if !ValidName(cx.name) || Templates.TemplatePath(cx.name) !in host.files { return false; }
      var listed := Listed(cx, host);
      hide Listed;
      var dropped := set v | v in io.rebuild.dropped && v in cx.ownAnonymous;
      assert dropped == io.rebuild.dropped * cx.ownAnonymous;
      host := host.(volumes := host.volumes - dropped, mounted := io.rebuild.mounted);
      host := host.(running := if io.ok then listed else io.rebuild.running);
      host := host.(startedAt := host.clock, clock := host.clock + 1);
      return io.ok;
    }

    /** The copy into an empty, unused volume, compared with attributes; one that differs is cleared again. */
    method CopyIntoStep(source: string, target: string, io: Io) returns (ok: bool, digest: Option<string>)
      modifies this`host
      ensures Outcome(host, state, ok, digest) == AfterInto(cx, old(host), state, source, target, io)
    {
      if !io.ok || host.running || source !in host.volumes || target !in host.volumes || target in host.mounted {
        return false, None;
      }
      if host.volumes[target].entries != map[] { return false, None; }
      var before := DigestOf(cx, host.volumes[source], true);
      var copied := Copied(host.volumes[target], io.into);
      host := host.(volumes := host.volumes[target := copied]);
      if io.into.passed {
        var after := DigestOf(cx, copied, true);
        if after == before { return true, Some(before); }
      }
      var cleared := host.volumes[target].(entries := io.into.left);
      host := host.(volumes := host.volumes[target := cleared]);
      return false, None;
    }

    method VerifyManagedStep(running: bool, io: Io) returns (ok: bool)
      ensures ok == (io.ok && (running ==> host.running))
    {
      if running && !host.running { return false; }
      return io.ok;
    }

    method Perform(step: Step, io: Io) returns (ok: bool, digest: Option<string>)
      modifies this
      ensures Outcome(host, state, ok, digest) == RunStep(cx, old(host), old(state), step, io)
    {
      hide AfterCopy, AfterExpose, AfterSaveInspect, AfterTemplate, AfterListing, Saga.AfterRebuild, AfterInto,
           AfterStop, AfterEnsureState, AfterCreate, AfterRemove, AfterRemoveOwn, AllUnchanged;
      digest := None;
      match step {
        case Stop => ok := StopStep(io);
        case CopyVolume(volume, suffix) => ok, digest := CopyVolumeStep(volume, suffix, io);
        case ExposeCopy(suffix) => ok := ExposeCopyStep(suffix, io);
        case SaveInspect(json) => ok := SaveInspectStep(json, io);
        case WriteTemplate(xml) => ok := WriteTemplateStep(xml, io);
        case SetAutostart(on) => ok := SetAutostartStep(on, io);
        case Rebuild => ok := RebuildStep(io);
        case EnsureState(running) => ok := EnsureStateStep(running, io);
        case VerifyManaged(running) => ok := VerifyManagedStep(running, io);
        case EnsureStopped => ok := EnsureStoppedStep(io);
        case CreateVolume(volume, labels) => ok := CreateVolumeStep(volume, labels, io);
        case CopyIntoVolume(source, target) => ok, digest := CopyIntoStep(source, target, io);
        case RemoveVolume(volume) => ok := RemoveVolumeStep(volume, io);
        case RemoveOwnAnonymousVolumes(candidates) => ok := RemoveOwnStep(candidates, io);
        case _ => ok := io.ok;
      }
    }

    /**
     `apply`: the steps in order, each after whatever others did. A failure before the rebuild
     is compensated; one from the rebuild on leaves everything for a reported recovery.
     */
    method Apply(steps: seq<Step>, turns: seq<Turn>, undo: UndoIo) returns (ok: bool, ghost ps: seq<Progress>)
      requires |turns| == |steps|
      modifies this
      ensures IsTrace(cx, steps, turns, ps) && ps[0] == Begin(old(host), old(state))
      ensures var last := ps[|ps| - 1];
              ok == last.ok && (ok ==> |ps| == |steps| + 1 && host == last.host)
      ensures var last := ps[|ps| - 1];
              !ok ==> host == if last.rebuilt then last.host else RolledBack(cx, last, undo).0
    {
      hide RunStep, RolledBack, AfterEvents;
      var rebuilt, stopped, templateWritten, listingChanged := false, false, false, false;
      var copies: seq<string>, exposed: seq<string> := [], [];
      ps := [Begin(host, state)];
      for i := 0 to |steps|
        invariant |ps| == i + 1 && IsTrace(cx, steps, turns, ps) && ps[0] == Begin(old(host), old(state))
        invariant ps[i] == Progress(host, state, rebuilt, stopped, templateWritten, listingChanged,
                              copies, exposed, true)
      {
        var step, io := steps[i], turns[i].io;
        assert Mid(ps[i], turns[i]) == ps[i].(host := AfterEvents(host, turns[i].events));
        host := AfterEvents(host, turns[i].events);
        ghost var next := Advance(cx, Mid(ps[i], turns[i]), step, io);
        TraceSnoc(cx, steps, turns, ps);
        ps := ps + [next];
        if step.SetAutostart? && !rebuilt { listingChanged := true; }
        if step.Rebuild? { rebuilt := true; }
        var done, digest := Perform(step, io);
        if !done {
          assert next == Progress(host, state, rebuilt, stopped, templateWritten, listingChanged,
                                 copies, exposed, false);
          if !rebuilt {
            RollBack(templateWritten, listingChanged, stopped, copies, exposed, undo, next);
          }
          return false, ps;
        }
        if step.Stop? { stopped := true; }
        if step.WriteTemplate? { templateWritten := true; }
        if step.CopyVolume? { copies := copies + [step.suffix]; }
        if step.ExposeCopy? { exposed := exposed + [step.suffix]; }
        if Source(step).Some? && digest.Some? {
          state := state.(manifests := state.manifests[Source(step).value := digest.value]);
        }
      }
      return true, ps;
    }

    /** The compensations, every one tried. */
    method RollBack(templateWritten: bool, listingChanged: bool, stopped: bool, copies: seq<string>,
                    exposed: seq<string>, io: UndoIo, ghost p: Progress)
      requires p == Progress(host, state, false, stopped, templateWritten, listingChanged, copies, exposed, false)
      modifies this`host
      ensures host == RolledBack(cx, p, io).0
    {
      hide Templates.Restored, HostAutostart.AutostartWith, UndoCopies, UndoCreated;
      if templateWritten {
        var dir := new Templates.TemplateDir(cx.check, host.files);
        var _ := dir.RestoreTemplateIn(cx.name, cx.runId, io.restore);
        host := host.(files := dir.files);
      }
      if listingChanged && io.listing {
        var next := HostAutostart.AutostartWith(host.listing, cx.name, cx.listedBefore);
        if next.Some? { host := host.(listing := next.value); }
      }
      RemoveCopies(copies, exposed, io);
      RemoveCreated(io);
      if stopped && cx.wasRunning && io.start {
        host := Started(host);
      }
    }

    method RemoveCopies(copies: seq<string>, exposed: seq<string>, io: UndoIo)
      modifies this`host
      ensures host == old(host).(app := UndoCopies(cx, old(host).app, copies, exposed, io).0)
    {
      hide Removed, Holds;
      for i := 0 to |copies|
        invariant host == old(host).(app := host.app)
        invariant UndoCopies(cx, host.app, copies[i..], exposed, io).0
               == UndoCopies(cx, old(host).app, copies, exposed, io).0
      {
        assert copies[i..][1..] == copies[i + 1..];
        if copies[i] !in exposed {
          var dir := new AppDir(cx.hash, cx.digests.tree, host.app);
          var _ := dir.RemoveStaged(StageOf(cx, copies[i]), io.copies(copies[i]));
          host := host.(app := dir.entries);
        }
      }
    }

    method RemoveCreated(io: UndoIo)
      modifies this`host
      ensures host == old(host).(volumes := UndoCreated(old(host).volumes, state.created, old(host).mounted, io).0)
    {
      var created := state.created;
      for i := 0 to |created|
        invariant host == old(host).(volumes := host.volumes)
        invariant UndoCreated(host.volumes, created[i..], host.mounted, io).0
               == UndoCreated(old(host).volumes, created, host.mounted, io).0
      {
        assert created[i..][1..] == created[i + 1..];
        var (v, at) := created[i];
        if io.inspected(v) && v in host.volumes && host.volumes[v].createdAt == at
           && io.removed(v) && v !in host.mounted {
          host := host.(volumes := host.volumes - {v});
        }
      }
    }
  }
}
