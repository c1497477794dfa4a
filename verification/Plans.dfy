/**
 The step lists of adopt and set_icon (src/docker_adopt/mod.rs): what is emitted, and
 that it is always well ordered.
 */
module Plans {
  import opened Wrappers
  import opened Docker
  import opened Conversions
  import opened BindPaths
  import Suffixes
  import Text

  datatype Step =
    | Probe
    | Stop
    | CopyVolume(volume: string, suffix: string)
    | SaveInspect(json: string)
    | WriteTemplate(xml: string)
    | SetAutostart(on: bool)
    | Rebuild
    | EnsureState(running: bool)
    | VerifyManaged(running: bool)
    | ClearIconCache
    | RefreshIcons
    | RemoveVolume(volume: string)
    | RemoveOwnAnonymousVolumes(candidates: seq<string>)
    | EnsureStopped
    | CreateVolume(volume: string, labels: Labels)
    | CopyIntoVolume(source: string, target: string)
    | ExposeCopy(suffix: string)
    | RemoveNetwork(network: string)
    | RetireStack(dir: string, retired: string)

  datatype Migration = Migration(volume: string, suffix: string)

  /** What a plan's steps depend on. */
  datatype Plan = Plan(
    migrations: seq<Migration>, conversions: seq<Conversion>, wasRunning: bool, inAutostart: bool, autostart: bool,
    json: string, xml: string, icon: bool, leftovers: seq<string>,
    network: Option<string>, retire: Option<(string, string)>)

  predicate Copies(p: Plan) {
    p.migrations != [] || p.conversions != []
  }

  // ---- The steps ---------------------------------------------------------------------------

  function When(c: bool, s: Step): seq<Step> {
    if c then [s] else []
  }

  function CopySteps(ms: seq<Migration>): seq<Step> {
    seq(|ms|, i requires 0 <= i < |ms| => CopyVolume(ms[i].volume, ms[i].suffix))
  }

  function ExposeSteps(ms: seq<Migration>): seq<Step> {
    seq(|ms|, i requires 0 <= i < |ms| => ExposeCopy(ms[i].suffix))
  }

  function RemoveSteps(ms: seq<Migration>): seq<Step> {
    seq(|ms|, i requires 0 <= i < |ms| => RemoveVolume(ms[i].volume))
  }

  function ConversionSteps(cs: seq<Conversion>): seq<Step> {
    if cs == [] then []
    else When(!cs[0].reuse, CreateVolume(cs[0].named, cs[0].labels)) + [CopyIntoVolume(cs[0].anon, cs[0].named)]
         + ConversionSteps(cs[1..])
  }

  function StopPart(p: Plan): seq<Step> {
    [Probe] + When(Copies(p) && p.wasRunning, Stop)
  }

  function CopyPart(p: Plan): seq<Step> {
    CopySteps(p.migrations) + ConversionSteps(p.conversions)
  }

  function WritePart(p: Plan): seq<Step> {
    [SaveInspect(p.json), WriteTemplate(p.xml)] + When(p.inAutostart != p.wasRunning, SetAutostart(p.wasRunning))
  }

  function GuardPart(p: Plan): seq<Step> {
    ExposeSteps(p.migrations) + When(Copies(p), EnsureStopped)
  }

  function VerifyPart(p: Plan): seq<Step> {
    When(p.autostart != p.wasRunning, SetAutostart(p.autostart))
    + [EnsureState(p.wasRunning), VerifyManaged(p.wasRunning)]
  }

  function CleanPart(p: Plan): seq<Step> {
    (if p.icon then [ClearIconCache, RefreshIcons] else [])
    + RemoveSteps(p.migrations)
    + (if p.leftovers != [] then [RemoveOwnAnonymousVolumes(p.leftovers)] else [])
    + (if p.network.Some? then [RemoveNetwork(p.network.value)] else [])
    + (if p.retire.Some? then [RetireStack(p.retire.value.0, p.retire.value.1)] else [])
  }

  /** Everything before the rebuild, then the rebuild, then everything after it. */
  function BeforeRebuild(p: Plan): seq<Step> {
    StopPart(p) + CopyPart(p) + WritePart(p) + GuardPart(p)
  }

  function AfterRebuild(p: Plan): seq<Step> {
    VerifyPart(p) + CleanPart(p)
  }

  function PlanSteps(p: Plan): seq<Step> {
    BeforeRebuild(p) + [Rebuild] + AfterRebuild(p)
  }

  // ---- The planners -------------------------------------------------------------------------

  datatype Snapshot = Snapshot(
    container: ContainerInspect, host: Known, listed: seq<string>, json: string, xml: string, icon: bool,
    network: Option<string>, retire: Option<(string, string)>)

  datatype Options = Options(migrateVolumes: bool, autostart: Option<bool>)

  function VolumeName(m: Mount): string {
    m.name.GetOr("")
  }

  function MountNames(mounts: seq<Mount>): (names: seq<string>)
    ensures |names| == |mounts|
    ensures forall i | 0 <= i < |names| :: names[i] == VolumeName(mounts[i])
  {
    seq(|mounts|, i requires 0 <= i < |mounts| => VolumeName(mounts[i]))
  }

  function MigratedNames(ms: seq<Migration>): (names: seq<string>)
    ensures |names| == |ms| && forall i | 0 <= i < |ms| :: names[i] == ms[i].volume
  {
    seq(|ms|, i requires 0 <= i < |ms| => ms[i].volume)
  }

  function ConvertedNames(cs: seq<Conversion>): (names: seq<string>)
    ensures |names| == |cs| && forall i | 0 <= i < |cs| :: names[i] == cs[i].anon
  {
    seq(|cs|, i requires 0 <= i < |cs| => cs[i].anon)
  }

  function NotMigrated(names: seq<string>, ms: seq<Migration>): seq<string> {
    if names == [] then []
    else (if names[0] in MigratedNames(ms) then [] else [names[0]]) + NotMigrated(names[1..], ms)
  }

  method AddConversionSteps(steps: seq<Step>, cs: seq<Conversion>) returns (more: seq<Step>)
    ensures more == steps + ConversionSteps(cs)
  {
    more := steps;
    for i := 0 to |cs|
      invariant more + ConversionSteps(cs[i..]) == steps + ConversionSteps(cs)
    {
      ghost var rest := ConversionSteps(cs[i + 1..]);
      assert cs[i..][1..] == cs[i + 1..];
      ghost var piece := When(!cs[i].reuse, CreateVolume(cs[i].named, cs[i].labels))
                         + [CopyIntoVolume(cs[i].anon, cs[i].named)];
      assert more + (piece + rest) == more + piece + rest;
      if !cs[i].reuse {
        more := more + [CreateVolume(cs[i].named, cs[i].labels)];
      }
      more := more + [CopyIntoVolume(cs[i].anon, cs[i].named)];
    }
  }

  /** A mount whose volume can be copied into appdata. */
  predicate Migratable(c: ContainerInspect, m: Mount, h: Known) {
    && PlainLocal(VolumeName(m), VolumeNamed(h.volumes, VolumeName(m)), m.source)
    && !MountedByOthers(VolumeName(m), c.name, h.all)
  }

  predicate AllMigratable(c: ContainerInspect, mounts: seq<Mount>, h: Known) {
    forall m | m in mounts :: Migratable(c, m, h)
  }

  lemma NoneToMigrate(c: ContainerInspect, h: Known)
    ensures AllMigratable(c, [], h) && FoldersFree(c.name, [], h.all)
  {}

  lemma AllMigratableSnoc(c: ContainerInspect, mounts: seq<Mount>, m: Mount, h: Known)
    ensures AllMigratable(c, mounts + [m], h) <==> AllMigratable(c, mounts, h) && Migratable(c, m, h)
  {
    hide Migratable;
    assert m in mounts + [m];
    assert forall x | x in mounts :: x in mounts + [m];
  }

  /** No container's bind reaches into a folder a volume is to be copied to. */
  predicate FoldersFree(name: string, suffixes: seq<string>, all: seq<ContainerInspect>) {
    forall x | x in suffixes :: NoBindOverlaps(Destination(name, x), all)
  }

  lemma FoldersFreeSnoc(name: string, suffixes: seq<string>, x: string, all: seq<ContainerInspect>)
    ensures FoldersFree(name, suffixes + [x], all)
       <==> FoldersFree(name, suffixes, all) && NoBindOverlaps(Destination(name, x), all)
  {
    hide NoBindOverlaps;
    assert x in suffixes + [x];
    assert forall y | y in suffixes :: y in suffixes + [x];
  }

  /** What stands in the way of the plan's copies: nothing. */
  predicate Unblocked(s: Snapshot, migrate: bool, p: Plan) {
    && (migrate ==> AllMigratable(s.container, s.container.volumes, s.host))
    && FoldersFree(s.container.name, SuffixesOf(p.migrations), s.host.all)
    && AllConvertible(s.container.name, s.container.volumes, s.host, MigratedNames(p.migrations))
    && DistinctNew(p.conversions)
  }

  /** What `plan_adopt` promises of its plan, from its inputs. */
  ghost predicate Adopts(s: Snapshot, migrate: bool, p: Plan) {
    && (!migrate ==> p.migrations == [])
    && (migrate ==>
          MigratedNames(p.migrations) == MountNames(s.container.volumes)
          && Suffixes.Assigned(s.container.name, s.container.project, MountNames(s.container.volumes),
                               SuffixesOf(p.migrations)))
    && p.conversions == ConversionsOf(s.container.name, s.container.volumes, s.host, MigratedNames(p.migrations))
    && p.leftovers == NotMigrated(OwnAnonymous(s.container.volumes, s.host.volumes), p.migrations)
  }

  method PlanMigrations(s: Snapshot) returns (migrations: seq<Migration>, blockers: seq<Problem>)
    ensures MigratedNames(migrations) == MountNames(s.container.volumes)
    ensures Suffixes.Assigned(s.container.name, s.container.project, MountNames(s.container.volumes),
                              SuffixesOf(migrations))
    ensures blockers == [] <==>
            && AllMigratable(s.container, s.container.volumes, s.host)
            && FoldersFree(s.container.name, SuffixesOf(migrations), s.host.all)
  {
    hide PlainLocal, MountedByOthers, AllMigratable, Suffixes.Assigned, FoldersFree, NoBindOverlaps;
    var mounts := s.container.volumes;
    var names := MountNames(mounts);
    var suffixes := Suffixes.AppdataSuffixes(s.container.name, s.container.project, names);
    migrations, blockers := [], [];
    assert mounts[..0] == [] && suffixes[..0] == [];
    NoneToMigrate(s.container, s.host);
    for i := 0 to |mounts|
      invariant |migrations| == i
      invariant forall k | 0 <= k < i :: migrations[k] == Migration(names[k], suffixes[k])
      invariant blockers == [] <==>
                && AllMigratable(s.container, mounts[..i], s.host)
                && FoldersFree(s.container.name, suffixes[..i], s.host.all)
    {
      assert mounts[..i + 1] == mounts[..i] + [mounts[i]] && suffixes[..i + 1] == suffixes[..i] + [suffixes[i]];
      AllMigratableSnoc(s.container, mounts[..i], mounts[i], s.host);
      FoldersFreeSnoc(s.container.name, suffixes[..i], suffixes[i], s.host.all);
      if !PlainLocal(names[i], VolumeNamed(s.host.volumes, names[i]), mounts[i].source) {
        blockers := blockers + [NotPlainLocal(names[i])];
      }
      if MountedByOthers(names[i], s.container.name, s.host.all) {
        blockers := blockers + [AlsoMounted(names[i])];
      }
      if !NoBindOverlaps(Destination(s.container.name, suffixes[i]), s.host.all) {
        blockers := blockers + [BindOverlaps(names[i])];
      }
      migrations := migrations + [Migration(names[i], suffixes[i])];
    }
    assert mounts[..|mounts|] == mounts && suffixes[..|suffixes|] == suffixes;
    assert MigratedNames(migrations) == names && SuffixesOf(migrations) == suffixes;
  }

  /** `plan_adopt`, as far as its steps and what blocks its copies go. */
  method PlanAdopt(s: Snapshot, o: Options) returns (p: Plan, steps: seq<Step>, blockers: seq<Problem>)
    ensures steps == PlanSteps(p) && Adopts(s, o.migrateVolumes, p)
    ensures blockers == [] <==> Unblocked(s, o.migrateVolumes, p)
    ensures blockers == [] <==> NothingInTheWay(s, o.migrateVolumes, p)
    ensures p.wasRunning == s.container.running && p.inAutostart == (s.container.name in s.listed)
    ensures p.autostart == o.autostart.GetOr(p.inAutostart || p.wasRunning)
    ensures p.json == s.json && p.xml == s.xml && p.icon == s.icon && p.network == s.network && p.retire == s.retire
  {
    hide AllConvertible, DistinctNew, ConversionsOf, OwnAnonymous, NotMigrated, PlanSteps, Suffixes.Assigned;
    var c := s.container;
    var migrations: seq<Migration> := [];
    blockers := [];
    if o.migrateVolumes {
      migrations, blockers := PlanMigrations(s);
    }
    var conversions, more := PlanConversions(c.name, c.volumes, s.host, MigratedNames(migrations));
    blockers := blockers + more;
    var inAutostart := c.name in s.listed;
    var autostart := o.autostart.GetOr(inAutostart || c.running);
    var leftovers := NotMigrated(OwnAnonymous(c.volumes, s.host.volumes), migrations);
    p := Plan(migrations, conversions, c.running, inAutostart, autostart, s.json, s.xml, s.icon, leftovers,
              s.network, s.retire);
    steps := EmitSteps(p);
    NoneFree(c.name, s.host.all);
    UnblockedSpelled(s, o.migrateVolumes, p);
  }

  lemma NoneFree(name: string, all: seq<ContainerInspect>)
    ensures FoldersFree(name, SuffixesOf([]), all)
  {}

  /**
   The rules on what adopt copies, spelled out: each volume to migrate is a plain local one that
   no other container mounts, and each folder free of binds; each anonymous volume that is not
   migrated may be converted; and no two of those get names that differ only in case.
   */
  ghost predicate NothingInTheWay(s: Snapshot, migrate: bool, p: Plan) {
    var (name, mounts, h) := (s.container.name, s.container.volumes, s.host);
    && (migrate ==>
          forall m | m in mounts ::
            PlainVolume(m.name.GetOr(""), h.volumes, m.source) && OnlyMountedBy(m.name.GetOr(""), name, h.all))
    && (forall x, c, b | x in p.migrations && c in h.all && b in c.binds ::
          !Overlapping("/mnt/user/appdata/" + name + "/" + x.suffix, b))
    && (forall m | m in mounts && IsToConvert(m, h, p) :: MayConvert(name, m, h))
    && forall i, j | 0 <= i < j < |p.conversions| ::
         Slug(p.conversions[i].target) != Slug(p.conversions[j].target)
  }

  /** A mount of a volume with docker's label for anonymous ones, which is not migrated. */
  ghost predicate IsToConvert(m: Mount, h: Known, p: Plan) {
    && m.name.Some? && m.name.value in h.volumes && h.volumes[m.name.value].labels.Some?
    && "com.docker.volume.anonymous" in h.volumes[m.name.value].labels.value
    && forall x | x in p.migrations :: x.volume != m.name.value
  }

  lemma UnblockedSpelled(s: Snapshot, migrate: bool, p: Plan)
    requires Adopts(s, migrate, p)
    ensures Unblocked(s, migrate, p) <==> NothingInTheWay(s, migrate, p)
  {
    hide ConversionsOf, Suffixes.Assigned, OwnAnonymous, NotMigrated;
    MigratableSpelled(s);
    FoldersSpelled(s, p);
    AllConvertibleSpelled(s, p);
    DistinctSpelled(s, p);
    hide AllMigratable, FoldersFree, AllConvertible, DistinctNew, Adopts, IsToConvert, MayConvert, PlainVolume,
         OnlyMountedBy, Overlapping, Slug;
  }

  lemma MigratableSpelled(s: Snapshot)
    ensures AllMigratable(s.container, s.container.volumes, s.host) <==>
            forall m | m in s.container.volumes ::
              && PlainVolume(VolumeName(m), s.host.volumes, m.source)
              && OnlyMountedBy(VolumeName(m), s.container.name, s.host.all)
  {
    hide PlainLocal, PlainVolume, MountedByOthers, OnlyMountedBy;
    forall m | m in s.container.volumes
      ensures Migratable(s.container, m, s.host) <==>
              && PlainVolume(VolumeName(m), s.host.volumes, m.source)
              && OnlyMountedBy(VolumeName(m), s.container.name, s.host.all)
    {
      PlainLocalSpelled(VolumeName(m), s.host.volumes, m.source);
      OthersSpelled(VolumeName(m), s.container.name, s.host.all);
    }
    hide Migratable;
  }

  lemma FoldersSpelled(s: Snapshot, p: Plan)
    ensures FoldersFree(s.container.name, SuffixesOf(p.migrations), s.host.all) <==>
            forall x, c, b | x in p.migrations && c in s.host.all && b in c.binds ::
              !Overlapping("/mnt/user/appdata/" + s.container.name + "/" + x.suffix, b)
  {
    hide Overlapping;
    forall x | x in p.migrations ensures x.suffix in SuffixesOf(p.migrations) {
      var i :| 0 <= i < |p.migrations| && p.migrations[i] == x;
      assert SuffixesOf(p.migrations)[i] == x.suffix;
    }
    forall n | n in SuffixesOf(p.migrations) ensures exists x :: x in p.migrations && x.suffix == n {
      var i :| 0 <= i < |p.migrations| && SuffixesOf(p.migrations)[i] == n;
      assert p.migrations[i] in p.migrations;
    }
  }

  lemma AllConvertibleSpelled(s: Snapshot, p: Plan)
    ensures AllConvertible(s.container.name, s.container.volumes, s.host, MigratedNames(p.migrations)) <==>
            forall m | m in s.container.volumes && IsToConvert(m, s.host, p) :: MayConvert(s.container.name, m, s.host)
  {
    hide Convertible, MayConvert;
    var names := MigratedNames(p.migrations);
    forall m: Mount ensures IsToConvert(m, s.host, p) <==> Converts(m, s.host.volumes, names) {
      MigratedSpelled(p, m.name);
    }
    forall m: Mount | m.name.Some?
      ensures Convertible(s.container.name, m, s.host) <==> MayConvert(s.container.name, m, s.host)
    {
      ConvertibleSpelled(s.container.name, m, s.host);
    }
    hide IsToConvert, Converts;
  }

  lemma MigratedSpelled(p: Plan, name: Option<string>)
    ensures name.Some? ==>
              (name.value in MigratedNames(p.migrations)
               <==> exists x :: x in p.migrations && x.volume == name.value)
  {
    if name.Some? && name.value in MigratedNames(p.migrations) {
      var i :| 0 <= i < |p.migrations| && MigratedNames(p.migrations)[i] == name.value;
      assert p.migrations[i] in p.migrations;
    }
    if x :| name.Some? && x in p.migrations && x.volume == name.value {
      var i :| 0 <= i < |p.migrations| && p.migrations[i] == x;
      assert MigratedNames(p.migrations)[i] == name.value;
    }
  }

  lemma DistinctSpelled(s: Snapshot, p: Plan)
    requires p.conversions == ConversionsOf(s.container.name, s.container.volumes, s.host, MigratedNames(p.migrations))
    ensures DistinctNew(p.conversions) <==>
            forall i, j | 0 <= i < j < |p.conversions| ::
              Slug(p.conversions[i].target) != Slug(p.conversions[j].target)
  {
    hide Slug, Text.Lower, ConvertedName;
    forall c | c in p.conversions ensures c.named == ConvertedName(s.container.name, c.target) {
      ConversionNamed(s.container.name, s.container.volumes, s.host, MigratedNames(p.migrations), c);
    }
    forall i, j | 0 <= i < j < |p.conversions|
      ensures Text.Lower(p.conversions[i].named) != Text.Lower(p.conversions[j].named)
         <==> Slug(p.conversions[i].target) != Slug(p.conversions[j].target)
    {
      assert p.conversions[i] in p.conversions && p.conversions[j] in p.conversions;
      NamesClashIff(s.container.name, p.conversions[i].target, p.conversions[j].target);
    }
  }

  // ---- What set_icon can apply ------------------------------------------------------------------

  /** What a template does not take, reported. */
  datatype NotApplied = LabelsAndConversions | NotConverted(volume: string)

  datatype Patch = Patch(conversions: seq<Conversion>, notApplied: seq<NotApplied>)

  /** The planned conversions a template takes: of the one at `i`, the Path entry is there if `takes(i)`. */
  function Taken(planned: seq<Conversion>, takes: nat -> bool): Patch {
    if planned == [] then Patch([], [])
    else
      var n := |planned| - 1;
      var (before, cv) := (Taken(planned[..n], takes), planned[n]);
      if takes(n) then before.(conversions := before.conversions + [cv])
      else before.(notApplied := before.notApplied + [NotConverted(cv.anon)])
  }

  /** What set_icon converts, and what it reports it does not; `labelled`: the template takes the labels. */
  function Patched(s: Snapshot, labelled: bool, takes: nat -> bool): Patch {
    if labelled then Taken(ConversionsOf(s.container.name, s.container.volumes, s.host, []), takes)
    else Patch([], [LabelsAndConversions])
  }

  /** `set_icon_patch`, as far as its conversions go. */
  method SetIconPatch(s: Snapshot, labelled: bool, takes: nat -> bool) returns (patch: Patch, blockers: seq<Problem>)
    ensures patch == Patched(s, labelled, takes)
    ensures blockers == [] <==>
            (labelled ==>
               AllConvertible(s.container.name, s.container.volumes, s.host, [])
               && DistinctNew(ConversionsOf(s.container.name, s.container.volumes, s.host, [])))
  {
    hide AllConvertible, DistinctNew, ConversionsOf;
    if !labelled { return Patch([], [LabelsAndConversions]), []; }
    var planned;
    planned, blockers := PlanConversions(s.container.name, s.container.volumes, s.host, []);
    patch := Patch([], []);
    for i := 0 to |planned|
      invariant patch == Taken(planned[..i], takes)
    {
      assert planned[..i + 1][..i] == planned[..i];
      if takes(i) {
        patch := patch.(conversions := patch.conversions + [planned[i]]);
      } else {
        patch := patch.(notApplied := patch.notApplied + [NotConverted(planned[i].anon)]);
      }
    }
    assert planned[..|planned|] == planned;
  }

  /** What set_icon promises of its plan, from its inputs and what the template takes. */
  ghost predicate SetsIcon(s: Snapshot, labelled: bool, takes: nat -> bool, p: Plan) {
    && p.migrations == [] && p.conversions == Patched(s, labelled, takes).conversions
    && p.leftovers == ConvertedNames(p.conversions)
  }

  /** `set_icon_steps`, given the conversions. */
  method SetIconSteps(s: Snapshot, conversions: seq<Conversion>) returns (p: Plan, steps: seq<Step>)
    ensures steps == PlanSteps(p)
    ensures p.migrations == [] && p.conversions == conversions && p.leftovers == ConvertedNames(conversions)
    ensures p.wasRunning == s.container.running && p.inAutostart == (s.container.name in s.listed)
    ensures p.autostart == p.inAutostart && p.icon && p.json == s.json && p.xml == s.xml
    ensures p.network == None && p.retire == None
  {
    var wasRunning, listed := s.container.running, s.container.name in s.listed;
    p := Plan([], conversions, wasRunning, listed, listed, s.json, s.xml, true, ConvertedNames(conversions),
              None, None);
    NothingMigrated(p);
    hide ConversionSteps, CopyPart, GuardPart, CleanPart;
    steps := [Probe];
    if conversions != [] && wasRunning { steps := steps + [Stop]; }
    assert steps == StopPart(p);
    steps := AddConversionSteps(steps, conversions);
    assert steps == StopPart(p) + CopyPart(p);
    var write := [SaveInspect(s.json)];
    write := write + [WriteTemplate(s.xml)];
    if listed != wasRunning { write := write + [SetAutostart(wasRunning)]; }
    assert write == WritePart(p);
    var guard := [];
    if conversions != [] { guard := guard + [EnsureStopped]; }
    assert guard == GuardPart(p);
    steps := steps + write + guard;
    assert steps == BeforeRebuild(p);
    steps := steps + [Rebuild];
    var after := [];
    if listed != wasRunning { after := after + [SetAutostart(listed)]; }
    after := after + [EnsureState(wasRunning), VerifyManaged(wasRunning)];
    assert after == VerifyPart(p);
    var clean := [ClearIconCache];
    clean := clean + [RefreshIcons];
    if conversions != [] { clean := clean + [RemoveOwnAnonymousVolumes(ConvertedNames(conversions))]; }
    assert clean == CleanPart(p);
    steps := steps + (after + clean);
  }

  /** The parts of a plan that only converts. */
  lemma NothingMigrated(p: Plan)
    requires p.migrations == [] && p.leftovers == ConvertedNames(p.conversions) && p.icon
    requires p.network == None && p.retire == None
    ensures CopyPart(p) == ConversionSteps(p.conversions) && GuardPart(p) == When(p.conversions != [], EnsureStopped)
    ensures CleanPart(p)
         == [ClearIconCache, RefreshIcons]
            + When(p.conversions != [], RemoveOwnAnonymousVolumes(ConvertedNames(p.conversions)))
  {
    hide ConversionSteps;
    assert CopySteps([]) == [] && ExposeSteps([]) == [] && RemoveSteps([]) == [];
    assert ConvertedNames(p.conversions) == [] <==> p.conversions == [];
  }

  /** The pushes of adopt, in order. */
  method EmitSteps(p: Plan) returns (steps: seq<Step>)
    ensures steps == PlanSteps(p)
  {
    steps := EmitBefore(p);
    steps := steps + [Rebuild];
    var after := EmitAfter(p);
    steps := steps + after;
  }

  method EmitBefore(p: Plan) returns (steps: seq<Step>)
    ensures steps == BeforeRebuild(p)
  {
    hide ConversionSteps, StepsOf;
    steps := [Probe];
    if (p.migrations != [] || p.conversions != []) && p.wasRunning { steps := steps + [Stop]; }
    assert steps == StopPart(p);
    steps := AddEach(steps, p.migrations, CopyKind);
    steps := AddConversionSteps(steps, p.conversions);
    assert steps == StopPart(p) + CopyPart(p) by { StepsOfKinds(p.migrations); }
    var write := [SaveInspect(p.json), WriteTemplate(p.xml)];
    if p.inAutostart != p.wasRunning { write := write + [SetAutostart(p.wasRunning)]; }
    steps := steps + write;
    assert steps == StopPart(p) + CopyPart(p) + WritePart(p);
    var guard := AddEach([], p.migrations, ExposeKind);
    if p.migrations != [] || p.conversions != [] { guard := guard + [EnsureStopped]; }
    assert guard == GuardPart(p) by { StepsOfKinds(p.migrations); }
    steps := steps + guard;
  }

  lemma StepsOfKinds(ms: seq<Migration>)
    ensures StepsOf(ms, CopyKind) == CopySteps(ms) && [] + StepsOf(ms, ExposeKind) == ExposeSteps(ms)
    ensures StepsOf(ms, RemoveKind) == RemoveSteps(ms)
  {}

  method EmitAfter(p: Plan) returns (steps: seq<Step>)
    ensures steps == AfterRebuild(p)
  {
    hide StepsOf;
    steps := [];
    if p.autostart != p.wasRunning { steps := steps + [SetAutostart(p.autostart)]; }
    steps := steps + [EnsureState(p.wasRunning), VerifyManaged(p.wasRunning)];
    assert steps == VerifyPart(p);
    var clean := [];
    if p.icon { clean := [ClearIconCache, RefreshIcons]; }
    clean := AddEach(clean, p.migrations, RemoveKind);
    StepsOfKinds(p.migrations);
    if p.leftovers != [] { clean := clean + [RemoveOwnAnonymousVolumes(p.leftovers)]; }
    if p.network.Some? { clean := clean + [RemoveNetwork(p.network.value)]; }
    if p.retire.Some? { clean := clean + [RetireStack(p.retire.value.0, p.retire.value.1)]; }
    assert clean == CleanPart(p);
    steps := steps + clean;
  }

  datatype Kind = CopyKind | ExposeKind | RemoveKind

  function StepsOf(ms: seq<Migration>, kind: Kind): seq<Step> {
    match kind
    case CopyKind => CopySteps(ms)
    case ExposeKind => ExposeSteps(ms)
    case RemoveKind => RemoveSteps(ms)
  }

  method AddEach(steps: seq<Step>, ms: seq<Migration>, kind: Kind) returns (more: seq<Step>)
    ensures more == steps + StepsOf(ms, kind)
  {
    more := steps;
    for i := 0 to |ms|
      invariant more == steps + StepsOf(ms, kind)[..i]
    {
      match kind {
        case CopyKind => more := more + [CopyVolume(ms[i].volume, ms[i].suffix)];
        case ExposeKind => more := more + [ExposeCopy(ms[i].suffix)];
        case RemoveKind => more := more + [RemoveVolume(ms[i].volume)];
      }
    }
  }

  function SuffixesOf(ms: seq<Migration>): (names: seq<string>)
    ensures |names| == |ms| && forall i | 0 <= i < |ms| :: names[i] == ms[i].suffix
  {
    seq(|ms|, i requires 0 <= i < |ms| => ms[i].suffix)
  }
}
