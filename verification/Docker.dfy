/** What docker reports of containers and volumes (src/docker_adopt/inspect.rs). */
module Docker {
  import opened Wrappers

  type Labels = map<string, string>

  /** A volume-type mount. */
  datatype Mount = Mount(name: Option<string>, source: string, destination: string, rw: bool)

  /** `binds` are the sources of its bind mounts. */
  datatype ContainerInspect = ContainerInspect(name: string, running: bool, project: Option<string>,
                                               volumes: seq<Mount>, binds: seq<string>)

  datatype VolumeInspect = VolumeInspect(driver: string, mountpoint: string, labels: Option<Labels>,
                                         options: Option<Labels>)

  const ANONYMOUS_VOLUME_LABEL := "com.docker.volume.anonymous"

  predicate IsAnonymous(v: VolumeInspect) {
    v.labels.Some? && ANONYMOUS_VOLUME_LABEL in v.labels.value
  }

  function ExpectedMountpoint(name: string): string {
    "/var/lib/docker/volumes/" + name + "/_data"
  }

  /** `local_volume_problems` finds none: a plain local volume, its data where it belongs. */
  predicate PlainLocal(name: string, v: Option<VolumeInspect>, source: string) {
    && v.Some?
    && v.value.driver == "local" && (v.value.options.None? || v.value.options.value == map[])
    && v.value.mountpoint == ExpectedMountpoint(name) == source
  }

  predicate Mounts(c: ContainerInspect, volume: string) {
    exists m | m in c.volumes :: m.name == Some(volume)
  }

  predicate MountedByOthers(volume: string, name: string, all: seq<ContainerInspect>) {
    exists c | c in all :: c.name != name && Mounts(c, volume)
  }

  predicate MountedByAny(volume: string, all: seq<ContainerInspect>) {
    exists c | c in all :: Mounts(c, volume)
  }

  // ---- The rules on a volume, spelled out -------------------------------------------------

  /** The volume was inspected, and is a plain local one that holds its data where docker puts it. */
  ghost predicate PlainVolume(volume: string, volumes: map<string, VolumeInspect>, source: string) {
    && volume in volumes
    && volumes[volume].driver == "local"
    && (volumes[volume].options == None || volumes[volume].options == Some(map[]))
    && volumes[volume].mountpoint == "/var/lib/docker/volumes/" + volume + "/_data"
    && source == "/var/lib/docker/volumes/" + volume + "/_data"
  }

  lemma PlainLocalSpelled(volume: string, volumes: map<string, VolumeInspect>, source: string)
    ensures PlainLocal(volume, VolumeNamed(volumes, volume), source) <==> PlainVolume(volume, volumes, source)
  {}

  /** No container with another name has a mount of the volume. */
  ghost predicate OnlyMountedBy(volume: string, name: string, all: seq<ContainerInspect>) {
    forall c, m | c in all && m in c.volumes && m.name == Some(volume) :: c.name == name
  }

  lemma OthersSpelled(volume: string, name: string, all: seq<ContainerInspect>)
    ensures !MountedByOthers(volume, name, all) <==> OnlyMountedBy(volume, name, all)
  {}

  /** `unmounted`: what is left of the candidates after every mounted volume. */
  function Unmounted(candidates: seq<string>, all: seq<ContainerInspect>): (free: seq<string>)
    ensures forall v :: v in free <==> v in candidates && !MountedByAny(v, all)
  {
    if candidates == [] then []
    else
      assert candidates == [candidates[0]] + candidates[1..];
      (if MountedByAny(candidates[0], all) then [] else [candidates[0]]) + Unmounted(candidates[1..], all)
  }

  function VolumeNamed(volumes: map<string, VolumeInspect>, name: string): Option<VolumeInspect> {
    if name in volumes then Some(volumes[name]) else None
  }

  predicate NamesAnonymous(m: Mount, volumes: map<string, VolumeInspect>) {
    m.name.Some? && m.name.value in volumes && IsAnonymous(volumes[m.name.value])
  }

  /** `own_anonymous_volumes`. */
  function OwnAnonymous(mounts: seq<Mount>, volumes: map<string, VolumeInspect>): (names: seq<string>)
    ensures forall m | m in mounts && NamesAnonymous(m, volumes) :: m.name.value in names
  {
    if mounts == [] then []
    else
      assert mounts == [mounts[0]] + mounts[1..];
      (if NamesAnonymous(mounts[0], volumes) then [mounts[0].name.value] else []) + OwnAnonymous(mounts[1..], volumes)
  }
}
