/**
 When a step of a run succeeds, and what is different after it: of each step, by itself, whatever
 the host answers (src/docker_adopt/mod.rs, src/docker_adopt/privileged.rs).
 */
module SagaSteps {
  import opened Wrappers
  import opened Names
  import Docker
  import opened Plans
  import opened Stages
  import opened Saga
  import Templates
  import HostAutostart

  /** Two hosts with the same container: its state, its run times and the clock they are read off. */
  predicate SameContainer(a: Host, b: Host) {
    a.running == b.running && a.startedAt == b.startedAt && a.finishedAt == b.finishedAt && a.clock == b.clock
  }

  predicate SameFiles(a: Host, b: Host) {
    a.files == b.files && a.listing == b.listing
  }

  predicate SameStores(a: Host, b: Host) {
    a.app == b.app && a.volumes == b.volumes && a.mounted == b.mounted
  }

  // ---- The container ----------------------------------------------------------------------

  /** A stop leaves the container stopped, and notes when it ran if it can see it. */
  lemma StopStops(cx: Context, h: Host, st: State, io: Io)
    ensures var o := RunStep(cx, h, st, Stop, io);
            && (o.ok <==> io.ok)
            && (o.ok ==> !o.host.running && o.host.startedAt == h.startedAt)
            && (o.ok && h.running ==> o.host.finishedAt == h.clock && o.host.clock > h.clock)
            && (o.ok && !h.running ==> o.host == h)
            && (o.ok && io.seen ==> o.state.stopped == Some((o.host.startedAt, o.host.finishedAt)))
            && (!o.ok || !io.seen ==> o.state == st)
            && (!o.ok ==> o.host == h) && SameFiles(h, o.host) && SameStores(h, o.host)
            && o.state.manifests == st.manifests && o.state.created == st.created
  {}

  /** The state is put right: nothing is done if it is, and a start is a new run. */
  lemma EnsureStateSets(cx: Context, h: Host, st: State, wanted: bool, io: Io)
    ensures var o := RunStep(cx, h, st, EnsureState(wanted), io);
            && (o.ok <==> io.seen && (h.running == wanted || io.ok))
            && (o.ok ==> o.host.running == wanted)
            && (!o.ok || h.running == wanted ==> o.host == h)
            && (o.ok && wanted && !h.running ==>
                  o.host.startedAt == h.clock < o.host.clock && o.host.finishedAt == h.finishedAt)
            && (o.ok && !wanted && h.running ==>
                  o.host.finishedAt == h.clock < o.host.clock && o.host.startedAt == h.startedAt)
            && SameFiles(h, o.host) && SameStores(h, o.host) && o.state == st
  {}

  /** The verification looks, and holds a container that was running to running. */
  lemma VerifyLooks(cx: Context, h: Host, st: State, running: bool, io: Io)
    ensures var o := RunStep(cx, h, st, VerifyManaged(running), io);
            o.host == h && o.state == st && (o.ok <==> io.ok && (running ==> h.running))
  {}

  /**
   The stopped check passes exactly if the container is stopped, with the run times noted, and every
   volume copied or to be converted is there and has the digest noted.
   */
  lemma StoppedCheckIff(cx: Context, h: Host, st: State, io: Io)
    ensures var o := RunStep(cx, h, st, EnsureStopped, io);
            && o.host == h && o.state == st
            && (o.ok <==>
                  && io.seen && io.ok && !h.running
                  && st.stopped == Some((h.startedAt, h.finishedAt))
                  && (forall v | v in st.manifests || v in cx.converted ::
                        && v in st.manifests && v in h.volumes
                        && st.manifests[v] == DigestNow(cx, h.volumes[v], v in cx.converted)))
  {
    forall v ensures ChangedSinceCopy(cx, h, st, v, v in cx.converted, true) == Same
                <==> v in st.manifests && v in h.volumes
                     && st.manifests[v] == DigestNow(cx, h.volumes[v], v in cx.converted)
    {
    }
    hide ChangedSinceCopy, DigestNow;
  }

  function DigestNow(cx: Context, v: Volume, full: bool): string {
    if full then cx.digests.full(Dir(v.uid, v.mode, v.entries), v.xattrs)
    else cx.digests.tree(Dir(v.uid, v.mode, v.entries))
  }

  /** A source that is not read, or not there, is neither the same nor changed; one never copied is changed. */
  lemma SinceSpelled(cx: Context, h: Host, st: State, v: string, full: bool, readable: bool)
    ensures var since := ChangedSinceCopy(cx, h, st, v, full, readable);
            && (since == Same <==> v in st.manifests && readable && v in h.volumes
                                   && st.manifests[v] == DigestNow(cx, h.volumes[v], full))
            && (since == Unreadable <==> v in st.manifests && (!readable || v !in h.volumes))
  {}

  /**
   The rebuild needs its template, brings the container up exactly if it is listed, and drops only
   its own volumes.
   */
  lemma RebuildBrings(cx: Context, h: Host, st: State, io: Io)
    ensures var o := RunStep(cx, h, st, Rebuild, io);
            && (o.ok <==> io.ok && ValidName(cx.name) && "my-" + cx.name + ".xml" in h.files)
            && (o.ok ==> o.host.running == (cx.name in HostAutostart.ParseAutostart(h.listing)))
            && (o.ok ==> o.host.startedAt == h.clock < o.host.clock)
            && (forall v :: v in o.host.volumes <==>
                  v in h.volumes && !(v in cx.ownAnonymous && v in io.rebuild.dropped
                                      && ValidName(cx.name) && "my-" + cx.name + ".xml" in h.files))
            && (forall v | v in o.host.volumes :: o.host.volumes[v] == h.volumes[v])
            && SameFiles(h, o.host) && o.host.app == h.app && o.state == st
  {
    hide HostAutostart.ParseAutostart, ValidName;
  }

  // ---- Copies ---------------------------------------------------------------------------------

  /** A volume is copied only while the container is stopped, and verified; nothing but the directory changes. */
  lemma CopyIff(cx: Context, h: Host, st: State, volume: string, suffix: string, io: Io)
    ensures var o := RunStep(cx, h, st, CopyVolume(volume, suffix), io);
            var p := Pair(cx.nonce, suffix);
            && (o.ok <==>
                  && io.ok && ValidName(cx.name) && !h.running && volume in h.volumes
                  && CreateOk(cx.hash, h.app, p, io.create)
                  && io.copy.passed && io.copy.data.Some? && io.copy.data.value.Dir?
                  && cx.digests.tree(io.copy.data.value) == DigestNow(cx, h.volumes[volume], false))
            && (o.ok ==> o.digest == Some(DigestNow(cx, h.volumes[volume], false)))
            && (o.digest.Some? ==> o.ok)
            && o.host == h.(app := o.host.app) && o.state == st
  {
    hide Created, Filled, CreateOk, ValidName;
  }

  /** A stage can be made exactly where there is neither the folder nor anything of the stage's name. */
  lemma CreateIff(h: Hash, app: Entries, p: Pair, io: CreateIo)
    ensures CreateOk(h, app, p, io) <==>
              && ValidName(p.suffix) && ValidNonce(p.nonce)
              && p.suffix !in app && ".orca-stage-" + h(p.nonce + "/" + p.suffix) !in app
              && io.made && io.confirmed && io.token == Synced
  {
    hide ValidName, ValidNonce;
  }

  /**
   A volume is copied into another only while the container is stopped and the other is empty and
   unmounted; nothing but the other's root changes, not its labels, and where the copy is not
   verified what is in it is cleared.
   */
  lemma CopyIntoIff(cx: Context, h: Host, st: State, source: string, target: string, io: Io)
    ensures var o := RunStep(cx, h, st, CopyIntoVolume(source, target), io);
            var begun := && io.ok && !h.running && source in h.volumes && target in h.volumes
                         && target !in h.mounted && h.volumes[target].entries == map[];
            && (o.ok <==>
                  && begun && io.into.passed
                  && cx.digests.full(Dir(io.into.uid, io.into.mode, io.into.entries), io.into.xattrs)
                     == DigestNow(cx, h.volumes[source], true))
            && (o.ok ==> o.digest == Some(DigestNow(cx, h.volumes[source], true)))
            && (o.digest.Some? ==> o.ok)
            && (!begun ==> o.host == h)
            && (begun ==>
                  && o.host == h.(volumes := h.volumes[target := o.host.volumes[target]])
                  && var (was, now) := (h.volumes[target], o.host.volumes[target]);
                     && now.labels == was.labels && now.createdAt == was.createdAt
                     && now.entries == (if o.ok then io.into.entries else io.into.left)
                     && now.uid == io.into.uid && now.mode == io.into.mode && now.xattrs == io.into.xattrs)
            && o.state == st
  {}

  /** An exposed copy is moved out of its stage only to a free name; the step succeeds once the stage is gone. */
  lemma ExposeIff(cx: Context, h: Host, st: State, suffix: string, io: Io)
    ensures var o := RunStep(cx, h, st, ExposeCopy(suffix), io);
            && (o.ok <==> Holds(cx.hash, h.app, Pair(cx.nonce, suffix))
                          && StageName(cx.hash, Pair(cx.nonce, suffix)) !in o.host.app)
            && o.host == h.(app := o.host.app) && o.state == st
  {
    hide Holds, StageName, Exposed;
  }

  // ---- Volumes made ---------------------------------------------------------------------------

  /**
   A volume is made only where none is, is taken for the run's own only if it has just the labels and
   nothing in it, and only then is it noted, with when it was created.
   */
  lemma CreateVolumeIff(cx: Context, h: Host, st: State, volume: string, labels: Docker.Labels, io: Io)
    ensures var o := RunStep(cx, h, st, CreateVolume(volume, labels), io);
            var begun := io.ok && volume !in h.volumes;
            && (o.ok <==>
                  && begun && io.seen && io.probed
                  && (io.rival.Some? ==> io.rival.value.labels == labels && io.rival.value.entries == map[]))
            && (!begun ==> o.host == h)
            && (begun ==>
                  && volume in o.host.volumes && o.host.clock > h.clock
                  && o.host == h.(volumes := h.volumes[volume := o.host.volumes[volume]], clock := o.host.clock)
                  && (io.rival.Some? ==> o.host.volumes[volume] == io.rival.value)
                  && (io.rival.None? ==>
                        o.host.volumes[volume] == Volume(0, 0x1ED, map[], "", labels, h.clock)))
            && o.state == st.(created := if o.ok then st.created + [(volume, o.host.volumes[volume].createdAt)]
                                         else st.created)
  {
    assert 0x1ED == 493;
  }

  // ---- Volumes removed -------------------------------------------------------------------------

  /**
   A migrated volume is removed only while the container runs, unmounted and as noted. It is no
   failure to keep one because the container does not run or the volume is not as noted; it is to
   keep one that could not be read, or whose removal is refused.
   */
  lemma RemoveVolumeIff(cx: Context, h: Host, st: State, volume: string, io: Io)
    ensures var o := RunStep(cx, h, st, RemoveVolume(volume), io);
            var readable := io.probed && volume in h.volumes;
            var noted := volume in st.manifests && readable
                         && st.manifests[volume] == DigestNow(cx, h.volumes[volume], false);
            var goes := io.seen && io.ok && h.running && noted && volume !in h.mounted;
            && o.host == (if goes then h.(volumes := h.volumes - {volume}) else h) && o.state == st
            && (o.ok <==> io.seen && (!h.running || goes || volume !in st.manifests || (readable && !noted)))
  {}

  /** Whether the walk must stop at `v`: it cannot be looked up or read, or its removal is refused. */
  predicate StopsAt(cx: Context, h: Host, st: State, v: string, io: RemoveIo) {
    && v !in h.mounted
    && (!io.listed
        || (v in h.volumes && v in st.manifests
            && (!io.readable || (st.manifests[v] == DigestNow(cx, h.volumes[v], true) && !io.removed))))
  }

  /** And whether it removes it. */
  predicate TakesIt(cx: Context, h: Host, st: State, v: string, io: RemoveIo) {
    && v !in h.mounted && io.listed && v in h.volumes && v in st.manifests && io.readable
    && st.manifests[v] == DigestNow(cx, h.volumes[v], true) && io.removed
  }

  /** The walk takes one candidate after the other, and stops at the first it must. */
  lemma WalkStep(cx: Context, h: Host, st: State, candidates: seq<string>, each: string -> RemoveIo)
    requires candidates != []
    ensures var (v, rest) := (candidates[0], candidates[1..]);
            Walk(cx, h, st, candidates, each)
              == if StopsAt(cx, h, st, v, each(v)) then (h.volumes, false)
                 else Walk(cx, if TakesIt(cx, h, st, v, each(v)) then h.(volumes := h.volumes - {v}) else h, st,
                           rest, each)
  {
    hide DigestOf, DigestNow;
    assert forall v | v in h.volumes :: DigestOf(cx, h.volumes[v], true) == DigestNow(cx, h.volumes[v], true) by {
      forall v | v in h.volumes ensures DigestOf(cx, h.volumes[v], true) == DigestNow(cx, h.volumes[v], true) {
        DigestIs(cx, h.volumes[v], true);
      }
    }
  }

  lemma DigestIs(cx: Context, v: Volume, full: bool)
    ensures DigestOf(cx, v, full) == DigestNow(cx, v, full)
  {}

  lemma WalkEnd(cx: Context, h: Host, st: State, each: string -> RemoveIo, io: Io)
    ensures Walk(cx, h, st, [], each) == (h.volumes, true)
  {}

  /** The step is the walk, if it can see what is mounted. */
  lemma RemoveOwnIff(cx: Context, h: Host, st: State, candidates: seq<string>, io: Io)
    ensures var o := RunStep(cx, h, st, RemoveOwnAnonymousVolumes(candidates), io);
            && o.state == st
            && (!io.seen ==> !o.ok && o.host == h)
            && (io.seen ==> (o.host.volumes, o.ok) == Walk(cx, h, st, candidates, io.each)
                            && o.host == h.(volumes := o.host.volumes))
  {
    hide Walk;
  }

  // ---- Files --------------------------------------------------------------------------------------

  /** The old container is saved in a file of its own, never over one that is there. */
  lemma SaveInspectIff(cx: Context, h: Host, st: State, json: string, io: Io)
    ensures var o := RunStep(cx, h, st, SaveInspect(json), io);
            var path := "my-" + cx.name + ".xml.inspect-" + cx.runId + ".json";
            && (o.ok <==> io.ok && path !in h.files && io.write.saved)
            && (o.ok ==> o.host.files == h.files[path := json])
            && (forall f | f in h.files :: f in o.host.files && o.host.files[f] == h.files[f])
            && (forall f | f in o.host.files && f !in h.files :: f == path && o.host.files[f] <= json)
            && o.host == h.(files := o.host.files) && o.state == st
  {
    Templates.PathsSpelled(cx.name, cx.runId);
    hide Templates.InspectPath;
  }

  /** A template is written as the directory's write does, with the run's id and the host's check. */
  lemma WriteTemplateIff(cx: Context, h: Host, st: State, xml: string, io: Io)
    ensures var o := RunStep(cx, h, st, WriteTemplate(xml), io);
            && (o.host.files, o.ok)
               == (Templates.Written(cx.check, h.files, cx.name, xml, cx.runId, io.write).0,
                   Templates.Written(cx.check, h.files, cx.name, xml, cx.runId, io.write).1.Ok?)
            && o.host == h.(files := o.host.files) && o.state == st
  {
    hide Templates.Written;
  }

  /** The autostart file lists the container as told once the step went through, and may if it did not. */
  lemma SetAutostartIff(cx: Context, h: Host, st: State, on: bool, io: Io)
    requires ValidName(cx.name)
    ensures var o := RunStep(cx, h, st, SetAutostart(on), io);
            && (o.ok <==> io.ok)
            && (io.ok || io.effect ==> (cx.name in HostAutostart.ParseAutostart(o.host.listing)) == on)
            && (!io.ok && !io.effect ==> o.host == h)
            && (forall n | n != cx.name ::
                  n in HostAutostart.ParseAutostart(o.host.listing) <==> n in HostAutostart.ParseAutostart(h.listing))
            && o.host == h.(listing := o.host.listing) && o.state == st
  {
    ValidNameIsWord(cx.name);
    HostAutostart.AutostartReadsBack(h.listing, cx.name, on);
    hide HostAutostart.ParseAutostart, HostAutostart.AutostartWith, ValidName;
  }
}
