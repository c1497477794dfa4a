/** Every plan is well ordered, and what it migrates, converts and removes fits together. */
module PlanLaws {
  import opened Wrappers
  import opened Docker
  import opened Conversions
  import opened Plans
  import Suffixes

  // ---- Kinds of steps -------------------------------------------------------------------

  predicate IsCopy(s: Step) {
    s.CopyVolume? || s.CopyIntoVolume?
  }

  predicate IsRemoval(s: Step) {
    s.RemoveVolume? || s.RemoveOwnAnonymousVolumes? || s.RemoveNetwork? || s.RetireStack?
  }

  /** What may come before the rebuild: everything a failure rolls back. */
  predicate IsEarly(s: Step) {
    || s.Probe? || s.Stop? || s.CopyVolume? || s.CreateVolume? || s.CopyIntoVolume? || s.SaveInspect?
    || s.WriteTemplate? || s.SetAutostart? || s.ExposeCopy? || s.EnsureStopped?
  }

  predicate IsLate(s: Step) {
    || s.SetAutostart? || s.EnsureState? || s.VerifyManaged? || s.ClearIconCache? || s.RefreshIcons?
    || IsRemoval(s)
  }

  // ---- The order ---------------------------------------------------------------------------

  /** One rebuild, at `r`; before it only early steps, after it only late ones. */
  predicate Framed(steps: seq<Step>, r: nat) {
    && r < |steps| && steps[r] == Rebuild
    && (forall i | 0 <= i < r :: IsEarly(steps[i]))
    && forall i | r < i < |steps| :: IsLate(steps[i])
  }

  /** The rebuild is directly preceded by the stopped check exactly when something is copied. */
  predicate Guarded(steps: seq<Step>, r: nat) {
    && r < |steps|
    && (if exists s :: s in steps && IsCopy(s) then r > 0 && steps[r - 1] == EnsureStopped
        else EnsureStopped !in steps)
  }

  predicate TemplateOnce(steps: seq<Step>) {
    forall i, j | 0 <= i < |steps| && 0 <= j < |steps| && steps[i].WriteTemplate? && steps[j].WriteTemplate? :: i == j
  }

  /** The container is stopped at most once, and if it ran, before every copy. */
  predicate StoppedFirst(steps: seq<Step>, wasRunning: bool) {
    && (forall i | 0 <= i < |steps| && steps[i] == Stop :: wasRunning && i == 1)
    && (wasRunning ==> forall i | 0 <= i < |steps| && IsCopy(steps[i]) :: i > 1 && steps[1] == Stop)
  }

  /** No two volumes are staged for the same folder. */
  predicate CopiesDistinct(steps: seq<Step>) {
    forall i, j | 0 <= i < |steps| && 0 <= j < |steps| && steps[i].CopyVolume? && steps[j].CopyVolume?
                  && steps[i].suffix == steps[j].suffix :: i == j
  }

  predicate CopyOf(s: Step, suffix: string) {
    s.CopyVolume? && s.suffix == suffix
  }

  /** Every exposure comes after the copy it exposes, and every copy is exposed. */
  predicate ExposedAfterCopied(steps: seq<Step>) {
    && (forall i: nat | i < |steps| :: CopiedBefore(steps, i))
    && forall s | s in steps && s.CopyVolume? :: ExposeCopy(s.suffix) in steps
  }

  predicate CopiedBefore(steps: seq<Step>, i: nat)
    requires i < |steps|
  {
    steps[i].ExposeCopy? ==> exists s :: s in steps[..i] && CopyOf(s, steps[i].suffix)
  }

  /** Every removal comes after the verification, at `v`. */
  predicate RemovedAfterVerified(steps: seq<Step>, v: nat) {
    && v < |steps| && steps[v].VerifyManaged?
    && forall i | 0 <= i < |steps| && IsRemoval(steps[i]) :: v < i
  }

  predicate MakesVolume(s: Step, volume: string) {
    s.CreateVolume? && s.volume == volume
  }

  /** Every volume copied into is reused, or was created before. */
  predicate TargetsMade(steps: seq<Step>, reused: set<string>) {
    forall i: nat | i < |steps| :: TargetMade(steps, reused, i)
  }

  predicate TargetMade(steps: seq<Step>, reused: set<string>, i: nat)
    requires i < |steps|
  {
    steps[i].CopyIntoVolume? ==>
      steps[i].target in reused || exists s :: s in steps[..i] && MakesVolume(s, steps[i].target)
  }

  function ReusedNames(cs: seq<Conversion>): set<string> {
    set c | c in cs && c.reuse :: c.named
  }

  /** Nothing changes before the root path answered; the old container is saved before its template goes. */
  predicate Prepared(steps: seq<Step>, r: nat) {
    && 0 < r <= |steps| && steps[0] == Probe
    && exists w: nat :: IsSavedWrite(steps, w) && w < r
  }

  predicate IsSavedWrite(steps: seq<Step>, w: nat) {
    0 < w < |steps| && steps[w - 1].SaveInspect? && steps[w].WriteTemplate?
  }

  /** The running state is put right just before it is verified. */
  predicate VerifiedAs(steps: seq<Step>, v: nat, wasRunning: bool) {
    0 < v < |steps| && steps[v - 1] == EnsureState(wasRunning) && steps[v] == VerifyManaged(wasRunning)
  }

  /** Which sources are compared with extended attributes: just those copied with them. */
  predicate SourcesAgree(steps: seq<Step>, converted: set<string>) {
    forall s | s in steps :: SourceAgrees(s, converted)
  }

  predicate SourceAgrees(s: Step, converted: set<string>) {
    match s
    case CopyVolume(v, _) => v !in converted
    case CopyIntoVolume(v, _) => v in converted
    case RemoveVolume(v) => v !in converted
    case RemoveOwnAnonymousVolumes(vs) => forall v | v in vs :: v in converted
    case _ => true
  }

  /** The container's autostart membership after `steps`. */
  function ListedAfter(steps: seq<Step>, listed: bool): bool {
    if steps == [] then listed
    else ListedAfter(steps[1..], if steps[0].SetAutostart? then steps[0].on else listed)
  }

  // ---- Lemmas on step lists --------------------------------------------------------------------

  lemma {:induction false} ConversionStepKinds(cs: seq<Conversion>, s: Step)
    requires s in ConversionSteps(cs)
    ensures s.CreateVolume? || (s.CopyIntoVolume? && s.source in ConvertedNames(cs))
  {
    assert ConvertedNames(cs)[0] == cs[0].anon;
    assert forall n | n in ConvertedNames(cs[1..]) :: n in ConvertedNames(cs) by {
      assert ConvertedNames(cs) == [cs[0].anon] + ConvertedNames(cs[1..]);
    }
    if s in ConversionSteps(cs[1..]) {
      ConversionStepKinds(cs[1..], s);
    }
  }

  lemma {:induction false} ListedAfterConcat(a: seq<Step>, b: seq<Step>, listed: bool)
    ensures ListedAfter(a + b, listed) == ListedAfter(b, ListedAfter(a, listed))
  {
    if a == [] {
      assert a + b == b;
    } else {
      assert (a + b)[1..] == a[1..] + b;
      ListedAfterConcat(a[1..], b, if a[0].SetAutostart? then a[0].on else listed);
    }
  }

  lemma {:induction false} ListedUnset(a: seq<Step>, listed: bool)
    requires forall s | s in a :: !s.SetAutostart?
    ensures ListedAfter(a, listed) == listed
  {
    if a == [] {
    } else {
      assert a[0] in a && forall s | s in a[1..] :: s in a;
      ListedUnset(a[1..], listed);
    }
  }

  // ---- The parts of a plan ------------------------------------------------------------------------

  lemma StopPartKinds(p: Plan, s: Step)
    requires s in StopPart(p)
    ensures s == Probe || s == Stop
  {}

  lemma CopyPartKinds(p: Plan, s: Step)
    requires s in CopyPart(p)
    ensures || (s.CopyVolume? && s.volume in MigratedNames(p.migrations)) || s.CreateVolume?
            || (s.CopyIntoVolume? && s.source in ConvertedNames(p.conversions))
  {
    hide ConversionSteps;
    if s in CopySteps(p.migrations) {
      var i :| 0 <= i < |p.migrations| && CopySteps(p.migrations)[i] == s;
      assert MigratedNames(p.migrations)[i] == s.volume;
    } else {
      ConversionStepKinds(p.conversions, s);
    }
  }

  lemma GuardPartKinds(p: Plan, s: Step)
    requires s in GuardPart(p)
    ensures s.ExposeCopy? || (s == EnsureStopped && Copies(p))
  {}

  lemma VerifyPartKinds(p: Plan, s: Step)
    requires s in VerifyPart(p)
    ensures s.SetAutostart? || s.EnsureState? || s.VerifyManaged?
  {}

  lemma CleanPartKinds(p: Plan, s: Step)
    requires s in CleanPart(p)
    ensures IsLate(s) && !s.SetAutostart? && !s.VerifyManaged?
    ensures s.RemoveVolume? ==> s.volume in MigratedNames(p.migrations)
    ensures s.RemoveOwnAnonymousVolumes? ==> s.candidates == p.leftovers
  {
    if s in RemoveSteps(p.migrations) {
      var i :| 0 <= i < |p.migrations| && RemoveSteps(p.migrations)[i] == s;
      assert MigratedNames(p.migrations)[i] == s.volume;
    }
  }

  /** Which part a step before the rebuild is in. */
  lemma BeforeParts(p: Plan, i: nat)
    requires i < |BeforeRebuild(p)|
    ensures var (a, b, c) := (|StopPart(p)|, |CopyPart(p)|, |WritePart(p)|);
            var s := BeforeRebuild(p)[i];
            if i < a then s in StopPart(p)
            else if i < a + b then s in CopyPart(p)
            else if i < a + b + c then s == WritePart(p)[i - a - b]
            else s == GuardPart(p)[i - a - b - c]
  {
    hide StopPart, CopyPart, WritePart, GuardPart;
  }

  lemma StopPlace(p: Plan, i: nat)
    requires i < |StopPart(p)|
    ensures i < |BeforeRebuild(p)| && BeforeRebuild(p)[i] == StopPart(p)[i]
    ensures StopPart(p)[i] == Stop ==> i == 1 && p.wasRunning
  {
    hide CopyPart, WritePart, GuardPart;
  }

  lemma BeforeKinds(p: Plan, i: nat)
    requires i < |BeforeRebuild(p)|
    ensures var (a, b, c) := (|StopPart(p)|, |CopyPart(p)|, |WritePart(p)|);
            var s := BeforeRebuild(p)[i];
            && IsEarly(s)
            && (s.Stop? ==> i == 1 && p.wasRunning)
            && (IsCopy(s) ==> a <= i < a + b)
            && (s.CopyVolume? ==> s.volume in MigratedNames(p.migrations))
            && (s.CopyIntoVolume? ==> s.source in ConvertedNames(p.conversions))
            && (s.WriteTemplate? ==> i == a + b + 1)
            && (s.ExposeCopy? ==> i >= a + b + c && s in GuardPart(p))
            && (s == EnsureStopped ==> Copies(p))
            && (s.SetAutostart? ==> a + b <= i < a + b + c)
  {
    hide StopPart, CopyPart, GuardPart;
    BeforeParts(p, i);
    var (a, b, c) := (|StopPart(p)|, |CopyPart(p)|, |WritePart(p)|);
    var s := BeforeRebuild(p)[i];
    if i < a { StopPartKinds(p, s); StopPlace(p, i); }
    else if i < a + b { CopyPartKinds(p, s); }
    else if i < a + b + c { }
    else { GuardPartKinds(p, s); }
  }

  lemma AfterKinds(p: Plan, i: nat)
    requires i < |AfterRebuild(p)|
    ensures var s := AfterRebuild(p)[i];
            && IsLate(s)
            && (IsRemoval(s) ==> i >= |VerifyPart(p)|)
            && (s.RemoveVolume? ==> s.volume in MigratedNames(p.migrations))
            && (s.RemoveOwnAnonymousVolumes? ==> s.candidates == p.leftovers)
  {
    hide VerifyPart, CleanPart;
    var s := AfterRebuild(p)[i];
    if i < |VerifyPart(p)| {
      assert s == VerifyPart(p)[i];
      VerifyPartKinds(p, s);
    } else {
      assert s == CleanPart(p)[i - |VerifyPart(p)|];
      CleanPartKinds(p, s);
    }
  }

  /** A step of the plan is before the rebuild, the rebuild, or after it. */
  lemma WhereIs(p: Plan, i: nat)
    requires i < |PlanSteps(p)|
    ensures var (steps, r) := (PlanSteps(p), |BeforeRebuild(p)|);
            if i < r then steps[i] == BeforeRebuild(p)[i]
            else if i == r then steps[i] == Rebuild
            else steps[i] == AfterRebuild(p)[i - r - 1]
    ensures |PlanSteps(p)| == |BeforeRebuild(p)| + 1 + |AfterRebuild(p)|
  {
    hide BeforeRebuild, AfterRebuild;
  }

  lemma PlanFramed(p: Plan)
    ensures Framed(PlanSteps(p), |BeforeRebuild(p)|)
  {
    hide PlanSteps, BeforeRebuild, AfterRebuild, IsEarly, IsLate;
    var (steps, r) := (PlanSteps(p), |BeforeRebuild(p)|);
    LengthOf(p);
    WhereIs(p, r);
    forall i | 0 <= i < r ensures IsEarly(steps[i]) { WhereIs(p, i); BeforeKinds(p, i); }
    forall i | r < i < |steps| ensures IsLate(steps[i]) { WhereIs(p, i); AfterKinds(p, i - r - 1); }
  }

  lemma LengthOf(p: Plan)
    ensures |PlanSteps(p)| == |BeforeRebuild(p)| + 1 + |AfterRebuild(p)|
  {}

  lemma PlanTemplateOnce(p: Plan)
    ensures TemplateOnce(PlanSteps(p))
  {
    hide PlanSteps, BeforeRebuild, AfterRebuild;
    var steps := PlanSteps(p);
    var w := |StopPart(p)| + |CopyPart(p)| + 1;
    forall i | 0 <= i < |steps| && steps[i].WriteTemplate? ensures i == w {
      WhereIs(p, i);
      if i < |BeforeRebuild(p)| { BeforeKinds(p, i); }
      else if i > |BeforeRebuild(p)| { AfterKinds(p, i - |BeforeRebuild(p)| - 1); }
    }
  }

  // ---- The laws ---------------------------------------------------------------------------------

  lemma CopiesAreSteps(p: Plan)
    ensures Copies(p) <==> exists s :: s in PlanSteps(p) && IsCopy(s)
  {
    hide PlanSteps, BeforeRebuild, AfterRebuild;
    var (steps, r) := (PlanSteps(p), |BeforeRebuild(p)|);
    if Copies(p) {
      var s := CopyPart(p)[0];
      assert IsCopy(CopyPart(p)[|CopyPart(p)| - 1]) by { CopyPartEndsInCopy(p); }
      InPlan(p, CopyPart(p)[|CopyPart(p)| - 1]);
    } else {
      forall i | 0 <= i < |steps| ensures !IsCopy(steps[i]) {
        WhereIs(p, i);
        if i < r { BeforeKinds(p, i); assert CopyPart(p) == []; }
        else if i > r { AfterKinds(p, i - r - 1); }
      }
    }
  }

  lemma {:induction false} ConversionsEndInCopy(cs: seq<Conversion>)
    requires cs != []
    ensures ConversionSteps(cs) != [] && IsCopy(ConversionSteps(cs)[|ConversionSteps(cs)| - 1])
  {
    if |cs| > 1 { ConversionsEndInCopy(cs[1..]); }
  }

  lemma CopyPartEndsInCopy(p: Plan)
    requires Copies(p)
    ensures CopyPart(p) != [] && IsCopy(CopyPart(p)[|CopyPart(p)| - 1])
  {
    if p.conversions != [] { ConversionsEndInCopy(p.conversions); }
  }

  lemma InPlan(p: Plan, s: Step)
    requires s in StopPart(p) || s in CopyPart(p) || s in WritePart(p) || s in GuardPart(p) || s in AfterRebuild(p)
    ensures s in PlanSteps(p)
  {
    hide StopPart, CopyPart, WritePart, GuardPart, AfterRebuild;
  }

  lemma PlanGuarded(p: Plan)
    ensures Guarded(PlanSteps(p), |BeforeRebuild(p)|)
  {
    hide PlanSteps, BeforeRebuild, AfterRebuild, StopPart, CopyPart, WritePart;
    var (steps, r) := (PlanSteps(p), |BeforeRebuild(p)|);
    CopiesAreSteps(p);
    LengthOf(p);
    if Copies(p) {
      assert GuardPart(p)[|GuardPart(p)| - 1] == EnsureStopped;
      LastBefore(p);
      WhereIs(p, r - 1);
    } else {
      forall i | 0 <= i < |steps| ensures steps[i] != EnsureStopped {
        WhereIs(p, i);
        if i < r { BeforeKinds(p, i); }
        else if i > r { AfterKinds(p, i - r - 1); }
      }
    }
  }

  lemma LastBefore(p: Plan)
    requires GuardPart(p) != []
    ensures |BeforeRebuild(p)| > 0
    ensures BeforeRebuild(p)[|BeforeRebuild(p)| - 1] == GuardPart(p)[|GuardPart(p)| - 1]
  {
    hide StopPart, CopyPart, WritePart, GuardPart;
  }

  lemma PlanStoppedFirst(p: Plan)
    ensures StoppedFirst(PlanSteps(p), p.wasRunning)
  {
    hide PlanSteps, BeforeRebuild, AfterRebuild, CopyPart, WritePart, GuardPart;
    var (steps, r) := (PlanSteps(p), |BeforeRebuild(p)|);
    CopiesAreSteps(p);
    LengthOf(p);
    forall i | 0 <= i < |steps| && steps[i] == Stop ensures p.wasRunning && i == 1 {
      WhereIs(p, i);
      if i < r { BeforeKinds(p, i); }
      else if i > r { AfterKinds(p, i - r - 1); }
    }
    forall i | p.wasRunning && 0 <= i < |steps| && IsCopy(steps[i]) ensures i > 1 && steps[1] == Stop {
      WhereIs(p, i);
      if i < r { BeforeKinds(p, i); }
      else if i > r { AfterKinds(p, i - r - 1); }
      assert steps[i] in steps;
      assert |StopPart(p)| == 2 && StopPart(p)[1] == Stop;
      StopPlace(p, 1);
      WhereIs(p, 1);
    }
  }

  /** The container is stopped only if it runs and something is copied. */
  lemma PlanStopsIff(p: Plan)
    ensures Stop in PlanSteps(p) <==> p.wasRunning && (p.migrations != [] || p.conversions != [])
  {
    hide PlanSteps, BeforeRebuild, AfterRebuild;
    var steps := PlanSteps(p);
    if Stop in steps {
      var i :| 0 <= i < |steps| && steps[i] == Stop;
      WhereIs(p, i);
      if i < |BeforeRebuild(p)| {
        BeforeKinds(p, i);
        StopIsSecond(p, i);
      } else if i > |BeforeRebuild(p)| {
        AfterKinds(p, i - |BeforeRebuild(p)| - 1);
      }
    }
    if Copies(p) && p.wasRunning {
      assert Stop in StopPart(p);
      InPlan(p, Stop);
    }
  }

  lemma StopIsSecond(p: Plan, i: nat)
    requires i < |BeforeRebuild(p)| && BeforeRebuild(p)[i] == Stop
    ensures Copies(p)
  {
    hide CopyPart, GuardPart;
    BeforeParts(p, i);
    var s := BeforeRebuild(p)[i];
    if s in CopyPart(p) { CopyPartKinds(p, s); }
    if s in GuardPart(p) { GuardPartKinds(p, s); }
  }

  lemma PlanExposes(p: Plan)
    ensures ExposedAfterCopied(PlanSteps(p))
  {
    hide PlanSteps, BeforeRebuild, AfterRebuild, StopPart, CopyPart, WritePart, GuardPart;
    var (steps, r) := (PlanSteps(p), |BeforeRebuild(p)|);
    LengthOf(p);
    forall i: nat | i < |steps| ensures CopiedBefore(steps, i) {
      WhereIs(p, i);
      if i < r { BeforeKinds(p, i); }
      else if i > r { AfterKinds(p, i - r - 1); }
      if steps[i].ExposeCopy? {
        var k := ExposureHasCopy(p, steps[i]);
        var j := |StopPart(p)| + k;
        CopyPlace(p, k);
        assert j < i;
        WhereIs(p, j);
        assert steps[..i][j] == CopyPart(p)[k];
      }
    }
    forall s | s in steps && s.CopyVolume? ensures ExposeCopy(s.suffix) in steps {
      var i :| 0 <= i < |steps| && steps[i] == s;
      WhereIs(p, i);
      if i < r {
        BeforeParts(p, i);
        BeforeKinds(p, i);
        CopyHasExposure(p, s);
        InPlan(p, ExposeCopy(s.suffix));
      } else if i > r { AfterKinds(p, i - r - 1); }
    }
  }

  predicate DistinctSuffixes(ms: seq<Migration>) {
    forall i, j | 0 <= i < j < |ms| :: ms[i].suffix != ms[j].suffix
  }

  /** A staged copy of the plan is that of the migration at its place. */
  lemma CopyIsMigration(p: Plan, i: nat)
    requires i < |PlanSteps(p)| && PlanSteps(p)[i].CopyVolume?
    ensures |StopPart(p)| <= i < |StopPart(p)| + |p.migrations|
    ensures PlanSteps(p)[i].suffix == p.migrations[i - |StopPart(p)|].suffix
  {
    hide PlanSteps, BeforeRebuild, AfterRebuild, StopPart, WritePart, GuardPart, ConversionSteps;
    var (r, a) := (|BeforeRebuild(p)|, |StopPart(p)|);
    LengthOf(p);
    WhereIs(p, i);
    if i < r { BeforeKinds(p, i); }
    else if i > r { AfterKinds(p, i - r - 1); }
    CopyPlace(p, i - a);
    if i - a >= |p.migrations| {
      assert PlanSteps(p)[i] in ConversionSteps(p.conversions);
      ConversionStepKinds(p.conversions, PlanSteps(p)[i]);
    }
  }

  lemma PlanCopiesDistinct(p: Plan)
    requires DistinctSuffixes(p.migrations)
    ensures CopiesDistinct(PlanSteps(p))
  {
    hide PlanSteps, StopPart;
    var steps := PlanSteps(p);
    forall i, j | 0 <= i < |steps| && 0 <= j < |steps| && steps[i].CopyVolume? && steps[j].CopyVolume?
                  && steps[i].suffix == steps[j].suffix
      ensures i == j
    {
      CopyIsMigration(p, i);
      CopyIsMigration(p, j);
    }
  }

  lemma CopyPlace(p: Plan, k: nat)
    requires k < |CopyPart(p)|
    ensures |StopPart(p)| + k < |StopPart(p)| + |CopyPart(p)| <= |BeforeRebuild(p)|
    ensures BeforeRebuild(p)[|StopPart(p)| + k] == CopyPart(p)[k]
  {
    hide StopPart, CopyPart, WritePart, GuardPart;
  }

  lemma ExposureHasCopy(p: Plan, s: Step) returns (k: nat)
    requires s in GuardPart(p) && s.ExposeCopy?
    ensures k < |CopyPart(p)| && CopyOf(CopyPart(p)[k], s.suffix)
  {
    k :| 0 <= k < |p.migrations| && ExposeSteps(p.migrations)[k] == s;
    assert CopyPart(p)[k] == CopySteps(p.migrations)[k];
  }

  lemma CopyHasExposure(p: Plan, s: Step)
    requires s in CopyPart(p) && s.CopyVolume?
    ensures ExposeCopy(s.suffix) in GuardPart(p)
  {
    hide ConversionSteps;
    if s in ConversionSteps(p.conversions) { ConversionStepKinds(p.conversions, s); }
    var k :| 0 <= k < |p.migrations| && CopySteps(p.migrations)[k] == s;
    assert ExposeSteps(p.migrations)[k] == ExposeCopy(s.suffix);
  }

  lemma PlanRemovesLast(p: Plan)
    ensures RemovedAfterVerified(PlanSteps(p), |BeforeRebuild(p)| + |VerifyPart(p)|)
  {
    hide PlanSteps, BeforeRebuild, AfterRebuild;
    var (steps, r) := (PlanSteps(p), |BeforeRebuild(p)|);
    var v := r + |VerifyPart(p)|;
    VerifyEnds(p);
    LengthOf(p);
    WhereIs(p, v);
    forall i | 0 <= i < |steps| && IsRemoval(steps[i]) ensures v < i {
      WhereIs(p, i);
      if i < r { BeforeKinds(p, i); }
      else if i > r { AfterKinds(p, i - r - 1); }
    }
  }

  lemma VerifyEnds(p: Plan)
    ensures |AfterRebuild(p)| >= |VerifyPart(p)| > 0
    ensures AfterRebuild(p)[|VerifyPart(p)| - 1].VerifyManaged?
  {}

  lemma PlanSourcesAgree(p: Plan, converted: set<string>)
    requires p.leftovers == ConvertedNames(p.conversions) && (forall v :: v in converted <==> v in p.leftovers)
    requires forall v | v in MigratedNames(p.migrations) :: v !in ConvertedNames(p.conversions)
    ensures SourcesAgree(PlanSteps(p), converted)
  {
    hide PlanSteps, BeforeRebuild, AfterRebuild;
    var (steps, r) := (PlanSteps(p), |BeforeRebuild(p)|);
    forall s | s in steps ensures SourceAgrees(s, converted) {
      var i :| 0 <= i < |steps| && steps[i] == s;
      WhereIs(p, i);
      LengthOf(p);
      if i < r { BeforeKinds(p, i); }
      else if i > r { AfterKinds(p, i - r - 1); }
    }
  }

  /** Simulated, the steps list the container as it ran at the rebuild, and as planned at the end. */
  lemma PlanListing(p: Plan)
    ensures ListedAfter(BeforeRebuild(p), p.inAutostart) == p.wasRunning
    ensures ListedAfter(PlanSteps(p), p.inAutostart) == p.autostart
  {
    hide StopPart, CopyPart, GuardPart, CleanPart, IsLate;
    var head := StopPart(p) + CopyPart(p);
    forall s | s in head ensures !s.SetAutostart? {
      if s in StopPart(p) { StopPartKinds(p, s); } else { CopyPartKinds(p, s); }
    }
    forall s | s in GuardPart(p) ensures !s.SetAutostart? { GuardPartKinds(p, s); }
    forall s | s in CleanPart(p) ensures !s.SetAutostart? { CleanPartKinds(p, s); }
    ListedUnset(head, p.inAutostart);
    ListedUnset(GuardPart(p), p.wasRunning);
    ListedUnset(CleanPart(p), p.autostart);
    ListedAfterConcat(head, WritePart(p), p.inAutostart);
    WriteListed(p);
    ListedAfterConcat(head + WritePart(p), GuardPart(p), p.inAutostart);
    ListedAfterConcat(BeforeRebuild(p), [Rebuild], p.inAutostart);
    ListedUnset([Rebuild], p.wasRunning);
    ListedAfterConcat(BeforeRebuild(p) + [Rebuild], AfterRebuild(p), p.inAutostart);
    ListedAfterConcat(VerifyPart(p), CleanPart(p), p.wasRunning);
    VerifyListed(p);
  }

  lemma WriteListed(p: Plan)
    ensures ListedAfter(WritePart(p), p.inAutostart) == p.wasRunning
  {
    var (a, b) := ([SaveInspect(p.json), WriteTemplate(p.xml)],
                   When(p.inAutostart != p.wasRunning, SetAutostart(p.wasRunning)));
    ListedUnset(a, p.inAutostart);
    ListedAfterConcat(a, b, p.inAutostart);
    assert ListedAfter([], p.wasRunning) == p.wasRunning;
    assert b != [] ==> b[1..] == [];
  }

  lemma VerifyListed(p: Plan)
    ensures ListedAfter(VerifyPart(p), p.wasRunning) == p.autostart
  {
    var (a, b) := (When(p.autostart != p.wasRunning, SetAutostart(p.autostart)),
                   [EnsureState(p.wasRunning), VerifyManaged(p.wasRunning)]);
    assert a != [] ==> a[1..] == [];
    ListedUnset(b, p.autostart);
    ListedAfterConcat(a, b, p.wasRunning);
    assert ListedAfter([], p.autostart) == p.autostart;
  }

  lemma {:induction false} ConversionTargets(cs: seq<Conversion>, k: nat) returns (j: nat)
    requires k < |ConversionSteps(cs)| && ConversionSteps(cs)[k].CopyIntoVolume?
    ensures ConversionSteps(cs)[k].target in ReusedNames(cs)
         || (j < k && MakesVolume(ConversionSteps(cs)[j], ConversionSteps(cs)[k].target))
  {
    var head := When(!cs[0].reuse, CreateVolume(cs[0].named, cs[0].labels)) + [CopyIntoVolume(cs[0].anon, cs[0].named)];
    j := 0;
    if k >= |head| {
      assert ConversionSteps(cs)[k] == ConversionSteps(cs[1..])[k - |head|];
      var i := ConversionTargets(cs[1..], k - |head|);
      j := i + |head|;
      assert forall c | c in cs[1..] :: c in cs;
    }
  }

  lemma PlanTargetsMade(p: Plan)
    ensures TargetsMade(PlanSteps(p), ReusedNames(p.conversions))
  {
    hide PlanSteps, BeforeRebuild, AfterRebuild, StopPart, WritePart, GuardPart, CopyPart, ReusedNames;
    var (steps, r, a) := (PlanSteps(p), |BeforeRebuild(p)|, |StopPart(p)|);
    LengthOf(p);
    forall i: nat | i < |steps| ensures TargetMade(steps, ReusedNames(p.conversions), i) {
      WhereIs(p, i);
      if i < r { BeforeKinds(p, i); }
      else if i > r { AfterKinds(p, i - r - 1); }
      if steps[i].CopyIntoVolume? {
        CopyPlace(p, i - a);
        var j := CopyPartTargets(p, i - a);
        if j < i - a && MakesVolume(CopyPart(p)[j], steps[i].target) {
          CopyPlace(p, j);
          WhereIs(p, a + j);
          assert steps[..i][a + j] == CopyPart(p)[j];
        }
      }
    }
  }

  lemma CopyPartTargets(p: Plan, k: nat) returns (j: nat)
    requires k < |CopyPart(p)| && CopyPart(p)[k].CopyIntoVolume?
    ensures CopyPart(p)[k].target in ReusedNames(p.conversions)
         || (j < k && MakesVolume(CopyPart(p)[j], CopyPart(p)[k].target))
  {
    hide ConversionSteps, ReusedNames;
    var n := |p.migrations|;
    var i := ConversionTargets(p.conversions, k - n);
    j := n + i;
    assert CopyPart(p)[k] == ConversionSteps(p.conversions)[k - n];
    assert i < k - n ==> CopyPart(p)[j] == ConversionSteps(p.conversions)[i];
  }

  lemma PlanPrepared(p: Plan)
    ensures Prepared(PlanSteps(p), |BeforeRebuild(p)|)
  {
    hide PlanSteps, BeforeRebuild, AfterRebuild, CopyPart, GuardPart;
    var w := |StopPart(p)| + |CopyPart(p)| + 1;
    LengthOf(p);
    StopPlace(p, 0);
    WhereIs(p, 0);
    WritePlace(p);
    WhereIs(p, w - 1);
    WhereIs(p, w);
    assert IsSavedWrite(PlanSteps(p), w);
  }

  lemma WritePlace(p: Plan)
    ensures var i := |StopPart(p)| + |CopyPart(p)|;
            && i + 1 < |BeforeRebuild(p)|
            && BeforeRebuild(p)[i] == SaveInspect(p.json) && BeforeRebuild(p)[i + 1] == WriteTemplate(p.xml)
  {
    hide StopPart, CopyPart, GuardPart;
  }

  lemma PlanVerified(p: Plan)
    ensures VerifiedAs(PlanSteps(p), |BeforeRebuild(p)| + |VerifyPart(p)|, p.wasRunning)
  {
    hide PlanSteps, BeforeRebuild, AfterRebuild;
    var (r, v) := (|BeforeRebuild(p)|, |BeforeRebuild(p)| + |VerifyPart(p)|);
    VerifyPartEnds(p);
    LengthOf(p);
    WhereIs(p, v - 1);
    WhereIs(p, v);
  }

  lemma VerifyPartEnds(p: Plan)
    ensures var n := |VerifyPart(p)|;
            && 2 <= n <= |AfterRebuild(p)|
            && AfterRebuild(p)[n - 2] == EnsureState(p.wasRunning)
            && AfterRebuild(p)[n - 1] == VerifyManaged(p.wasRunning)
  {
    hide CleanPart;
  }

  /** Every migration is copied, exposed and removed, and every conversion copied, under its own names. */
  lemma PlanCopiesAll(p: Plan)
    ensures forall m | m in p.migrations ::
              {CopyVolume(m.volume, m.suffix), ExposeCopy(m.suffix), RemoveVolume(m.volume)}
              <= set s | s in PlanSteps(p)
    ensures forall c | c in p.conversions :: CopyIntoVolume(c.anon, c.named) in PlanSteps(p)
    ensures forall c | c in p.conversions && !c.reuse :: CreateVolume(c.named, c.labels) in PlanSteps(p)
  {
    hide PlanSteps, AfterRebuild, ConversionSteps;
    forall m | m in p.migrations
      ensures CopyVolume(m.volume, m.suffix) in PlanSteps(p) && ExposeCopy(m.suffix) in PlanSteps(p)
           && RemoveVolume(m.volume) in PlanSteps(p)
    {
      var i :| 0 <= i < |p.migrations| && p.migrations[i] == m;
      assert CopySteps(p.migrations)[i] in CopyPart(p) && ExposeSteps(p.migrations)[i] in GuardPart(p);
      RemovalInPlan(p, i);
      InPlan(p, CopyVolume(m.volume, m.suffix));
      InPlan(p, ExposeCopy(m.suffix));
      InPlan(p, RemoveVolume(m.volume));
    }
    forall c | c in p.conversions
      ensures CopyIntoVolume(c.anon, c.named) in PlanSteps(p)
           && (!c.reuse ==> CreateVolume(c.named, c.labels) in PlanSteps(p))
    {
      ConversionHasSteps(p.conversions, c);
      InPlan(p, CopyIntoVolume(c.anon, c.named));
      if !c.reuse { InPlan(p, CreateVolume(c.named, c.labels)); }
    }
  }

  lemma RemovalInPlan(p: Plan, i: nat)
    requires i < |p.migrations|
    ensures RemoveVolume(p.migrations[i].volume) in AfterRebuild(p)
  {
    hide VerifyPart;
    assert RemoveSteps(p.migrations)[i] in CleanPart(p);
  }

  lemma {:induction false} ConversionHasSteps(cs: seq<Conversion>, c: Conversion)
    requires c in cs
    ensures CopyIntoVolume(c.anon, c.named) in ConversionSteps(cs)
    ensures !c.reuse ==> CreateVolume(c.named, c.labels) in ConversionSteps(cs)
  {
    if c != cs[0] { ConversionHasSteps(cs[1..], c); }
  }

  // ---- The planners ------------------------------------------------------------------------------

  lemma {:induction false} SkippedNotConverted(name: string, mounts: seq<Mount>, h: Known, skip: seq<string>)
    ensures forall v | v in ConvertedNames(ConversionsOf(name, mounts, h, skip)) :: v !in skip
    ensures (forall m | m in mounts :: VolumeName(m) in skip) ==> ConversionsOf(name, mounts, h, skip) == []
  {
    if mounts == [] {
    } else {
      assert mounts[0] in mounts && forall m | m in mounts[1..] :: m in mounts;
      SkippedNotConverted(name, mounts[1..], h, skip);
      hide ConversionOf;
      var (cs, rest) := (ConversionsOf(name, mounts, h, skip), ConversionsOf(name, mounts[1..], h, skip));
      if Converts(mounts[0], h.volumes, skip) {
        ConvertedCons(ConversionOf(name, mounts[0], h), rest);
        assert ConversionOf(name, mounts[0], h).anon == mounts[0].name.value
          by { ConvertsItsVolume(name, mounts[0], h); }
      }
    }
  }

  lemma ConvertedCons(c: Conversion, cs: seq<Conversion>)
    ensures ConvertedNames([c] + cs) == [c.anon] + ConvertedNames(cs)
  {}

  lemma ConvertsItsVolume(name: string, m: Mount, h: Known)
    requires m.name.Some?
    ensures ConversionOf(name, m, h).anon == m.name.value
  {}

  lemma OwnAnonymousStep(mounts: seq<Mount>, volumes: map<string, VolumeInspect>, ms: seq<Migration>)
    requires mounts != []
    ensures var rest := NotMigrated(OwnAnonymous(mounts[1..], volumes), ms);
            NotMigrated(OwnAnonymous(mounts, volumes), ms)
              == if NamesAnonymous(mounts[0], volumes) && mounts[0].name.value !in MigratedNames(ms)
                 then [mounts[0].name.value] + rest else rest
  {
    var (own, ownRest) := (OwnAnonymous(mounts, volumes), OwnAnonymous(mounts[1..], volumes));
    if NamesAnonymous(mounts[0], volumes) {
      assert own[0] == mounts[0].name.value && own[1..] == ownRest;
    } else {
      assert own == ownRest;
    }
  }

  lemma {:induction false} ConvertedAreLeftovers(name: string, mounts: seq<Mount>, h: Known, ms: seq<Migration>)
    ensures ConvertedNames(ConversionsOf(name, mounts, h, MigratedNames(ms)))
         == NotMigrated(OwnAnonymous(mounts, h.volumes), ms)
  {
    if mounts == [] {
    } else {
      hide ConversionOf, NotMigrated, OwnAnonymous, ConvertedNames;
      ConvertedAreLeftovers(name, mounts[1..], h, ms);
      OwnAnonymousStep(mounts, h.volumes, ms);
      if Converts(mounts[0], h.volumes, MigratedNames(ms)) {
        ConvertedCons(ConversionOf(name, mounts[0], h), ConversionsOf(name, mounts[1..], h, MigratedNames(ms)));
        ConvertsItsVolume(name, mounts[0], h);
      }
    }
  }

  lemma {:induction false} TakenOrReported(planned: seq<Conversion>, takes: nat -> bool)
    ensures forall i | 0 <= i < |planned| ::
              if takes(i) then planned[i] in Taken(planned, takes).conversions
              else NotConverted(planned[i].anon) in Taken(planned, takes).notApplied
    ensures forall c | c in Taken(planned, takes).conversions :: c in planned
  {
    if planned == [] {
    } else {
      var n := |planned| - 1;
      TakenOrReported(planned[..n], takes);
      assert forall i | 0 <= i < n :: planned[..n][i] == planned[i];
    }
  }

  lemma {:induction false} NotMigratedNone(names: seq<string>)
    ensures NotMigrated(names, []) == names
  {
    if names == [] {
    } else {
      assert names == [names[0]] + names[1..];
      NotMigratedNone(names[1..]);
    }
  }

  /** Of the anonymous volumes set_icon finds, it converts or reports every one, and converts no other volume. */
  lemma ConvertedOrReported(s: Snapshot, labelled: bool, takes: nat -> bool, v: string)
    ensures var (own, patch) := (OwnAnonymous(s.container.volumes, s.host.volumes), Patched(s, labelled, takes));
            && (v in ConvertedNames(patch.conversions) ==> v in own)
            && (v in own ==> || v in ConvertedNames(patch.conversions) || NotConverted(v) in patch.notApplied
                             || LabelsAndConversions in patch.notApplied)
  {
    hide OwnAnonymous, ConversionsOf, NotMigrated, Taken;
    var planned := ConversionsOf(s.container.name, s.container.volumes, s.host, []);
    var own := OwnAnonymous(s.container.volumes, s.host.volumes);
    assert MigratedNames([]) == [];
    ConvertedAreLeftovers(s.container.name, s.container.volumes, s.host, []);
    NotMigratedNone(own);
    TakenOrReported(planned, takes);
    var taken := Taken(planned, takes).conversions;
    if labelled && v in ConvertedNames(taken) {
      var i :| 0 <= i < |taken| && ConvertedNames(taken)[i] == v;
      assert taken[i] in taken && taken[i] in planned;
      var k :| 0 <= k < |planned| && planned[k] == taken[i];
      assert ConvertedNames(planned)[k] == v;
    }
    if labelled && v in own {
      var k :| 0 <= k < |planned| && ConvertedNames(planned)[k] == v;
      if takes(k) {
        var i :| 0 <= i < |taken| && taken[i] == planned[k];
        assert ConvertedNames(taken)[i] == v;
      }
    }
  }

  /**
   Where adopt puts a container's data: nothing is both migrated and converted (migrating
   takes every volume), the folders are distinct, and the anonymous volumes to remove are
   exactly the converted ones.
   */
  lemma AdoptDestinations(s: Snapshot, migrate: bool, p: Plan)
    requires Adopts(s, migrate, p)
    ensures p.leftovers == ConvertedNames(p.conversions)
    ensures p.migrations == [] || p.conversions == []
    ensures DistinctSuffixes(p.migrations)
  {
    var mounts := s.container.volumes;
    ConvertedAreLeftovers(s.container.name, mounts, s.host, p.migrations);
    SkippedNotConverted(s.container.name, mounts, s.host, MigratedNames(p.migrations));
    if migrate {
      forall m | m in mounts ensures VolumeName(m) in MigratedNames(p.migrations) {
        var i :| 0 <= i < |mounts| && mounts[i] == m;
        assert MountNames(mounts)[i] == VolumeName(m);
      }
      forall i, j | 0 <= i < j < |p.migrations| ensures p.migrations[i].suffix != p.migrations[j].suffix {
        var names := SuffixesOf(p.migrations);
        Suffixes.SuffixesDistinct(s.container.name, s.container.project, MountNames(mounts), names, i, j);
      }
    }
  }

  predicate Takes(step: Step, volume: string) {
    || (step.CopyVolume? && step.volume == volume)
    || (step.CopyIntoVolume? && step.source == volume)
    || (step.RemoveVolume? && step.volume == volume)
    || (step.RemoveOwnAnonymousVolumes? && volume in step.candidates)
  }

  lemma TakenIsPlanned(p: Plan, i: nat, v: string)
    requires i < |PlanSteps(p)| && Takes(PlanSteps(p)[i], v) && p.leftovers == ConvertedNames(p.conversions)
    ensures v in MigratedNames(p.migrations) || v in ConvertedNames(p.conversions)
  {
    hide PlanSteps, BeforeRebuild, AfterRebuild;
    WhereIs(p, i);
    var r := |BeforeRebuild(p)|;
    if i < r { BeforeKinds(p, i); } else if i > r { AfterKinds(p, i - r - 1); }
  }

  /**
   Where nothing is in the way: every volume a step of adopt copies or removes is one the container
   mounts and no other does, a plain local one, its data where docker puts it.
   */
  lemma TakenIsOwn(s: Snapshot, migrate: bool, p: Plan, step: Step, v: string)
    requires Adopts(s, migrate, p) && NothingInTheWay(s, migrate, p)
    requires step in PlanSteps(p) && Takes(step, v)
    ensures exists m :: m in s.container.volumes && VolumeName(m) == v && PlainVolume(v, s.host.volumes, m.source)
    ensures forall c, m | c in s.host.all && m in c.volumes && m.name == Some(v) :: c.name == s.container.name
  {
    hide PlanSteps, ConversionsOf, PlainVolume, Suffixes.Assigned, NothingInTheWay, Takes;
    var i :| 0 <= i < |PlanSteps(p)| && PlanSteps(p)[i] == step;
    AdoptDestinations(s, migrate, p);
    TakenIsPlanned(p, i, v);
    if v in MigratedNames(p.migrations) {
      MigratedIsOwn(s, migrate, p, v);
    } else {
      ConvertedIsOwn(s, migrate, p, v);
    }
  }

  lemma MigratedIsOwn(s: Snapshot, migrate: bool, p: Plan, v: string)
    requires Adopts(s, migrate, p) && NothingInTheWay(s, migrate, p) && v in MigratedNames(p.migrations)
    ensures exists m :: m in s.container.volumes && VolumeName(m) == v && PlainVolume(v, s.host.volumes, m.source)
    ensures forall c, m | c in s.host.all && m in c.volumes && m.name == Some(v) :: c.name == s.container.name
  {
    hide ConversionsOf, PlainVolume, Suffixes.Assigned;
    var mounts := s.container.volumes;
    assert MigratedNames([]) == [];
    var k :| 0 <= k < |mounts| && MountNames(mounts)[k] == v;
    assert mounts[k] in mounts;
  }

  lemma ConvertedIsOwn(s: Snapshot, migrate: bool, p: Plan, v: string)
    requires Adopts(s, migrate, p) && NothingInTheWay(s, migrate, p) && v in ConvertedNames(p.conversions)
    ensures exists m :: m in s.container.volumes && VolumeName(m) == v && PlainVolume(v, s.host.volumes, m.source)
    ensures forall c, m | c in s.host.all && m in c.volumes && m.name == Some(v) :: c.name == s.container.name
  {
    hide ConversionsOf, PlainVolume, Suffixes.Assigned, IsToConvert, Slug;
    var k :| 0 <= k < |p.conversions| && ConvertedNames(p.conversions)[k] == v;
    ConvertedMount(s, p, p.conversions[k]);
    var m :| m in s.container.volumes && m.name == Some(v) && IsToConvert(m, s.host, p);
    assert MayConvert(s.container.name, m, s.host);
    hide ConvertedNames;
  }

  lemma ConvertedMount(s: Snapshot, p: Plan, c: Conversion)
    requires p.conversions == ConversionsOf(s.container.name, s.container.volumes, s.host, MigratedNames(p.migrations))
    requires c in p.conversions
    ensures exists m :: m in s.container.volumes && m.name == Some(c.anon) && IsToConvert(m, s.host, p)
  {
    var m := ConversionMount(s.container.name, s.container.volumes, s.host, MigratedNames(p.migrations), c);
    forall x | x in p.migrations ensures x.volume != c.anon {
      var i :| 0 <= i < |p.migrations| && p.migrations[i] == x;
      assert MigratedNames(p.migrations)[i] == x.volume;
    }
  }

  lemma {:induction false} ConversionMount(name: string, mounts: seq<Mount>, h: Known, skip: seq<string>, c: Conversion)
    returns (m: Mount)
    requires c in ConversionsOf(name, mounts, h, skip)
    ensures m in mounts && m.name == Some(c.anon) && Converts(m, h.volumes, skip)
  {
    hide ConvertedName, VolumeLabels, Reusable;
    if Converts(mounts[0], h.volumes, skip) && c == ConversionOf(name, mounts[0], h) {
      m := mounts[0];
    } else {
      m := ConversionMount(name, mounts[1..], h, skip, c);
      assert forall x | x in mounts[1..] :: x in mounts;
    }
  }

  /** A step list with what its order is about: the rebuild's and the verification's places among others. */
  datatype Outline = Outline(steps: seq<Step>, wasRunning: bool, reused: set<string>, converted: set<string>,
                             rebuild: nat, verify: nat)

  /** All the order laws. */
  ghost predicate InOrder(o: Outline) {
    && Framed(o.steps, o.rebuild) && Guarded(o.steps, o.rebuild)
    && Prepared(o.steps, o.rebuild) && TemplateOnce(o.steps)
    && StoppedFirst(o.steps, o.wasRunning)
    && ExposedAfterCopied(o.steps) && CopiesDistinct(o.steps)
    && o.rebuild < o.verify && RemovedAfterVerified(o.steps, o.verify)
    && VerifiedAs(o.steps, o.verify, o.wasRunning)
    && SourcesAgree(o.steps, o.converted) && TargetsMade(o.steps, o.reused)
  }

  /** `o` is about the plan's steps. */
  ghost predicate IsOutlineOf(o: Outline, p: Plan) {
    && o.steps == PlanSteps(p) && o.wasRunning == p.wasRunning && o.reused == ReusedNames(p.conversions)
    && o.converted == (set x | x in p.leftovers)
  }

  /** The plan's steps are in order, and simulating them lists the container as they need and as planned. */
  ghost predicate WellOrdered(p: Plan, o: Outline) {
    && IsOutlineOf(o, p) && InOrder(o)
    && ListedAfter(o.steps[..o.rebuild], p.inAutostart) == p.wasRunning
    && ListedAfter(o.steps, p.inAutostart) == p.autostart
  }

  lemma StepsWellOrdered(p: Plan) returns (o: Outline)
    requires p.leftovers == ConvertedNames(p.conversions)
    requires forall v | v in MigratedNames(p.migrations) :: v !in ConvertedNames(p.conversions)
    requires DistinctSuffixes(p.migrations)
    ensures WellOrdered(p, o)
  {
    hide CopiesDistinct, Prepared, VerifiedAs, TargetsMade, Framed, Guarded, TemplateOnce, StoppedFirst,
         ExposedAfterCopied, RemovedAfterVerified, SourcesAgree;
    hide ListedAfter, PlanSteps, BeforeRebuild, VerifyPart, AfterRebuild;
    var (r, v) := (|BeforeRebuild(p)|, |BeforeRebuild(p)| + |VerifyPart(p)|);
    o := Outline(PlanSteps(p), p.wasRunning, ReusedNames(p.conversions), (set x | x in p.leftovers), r, v);
    PlanFramed(p);
    PlanGuarded(p);
    PlanTemplateOnce(p);
    PlanPrepared(p);
    PlanVerified(p);
    PlanStoppedFirst(p);
    PlanExposes(p);
    PlanCopiesDistinct(p);
    PlanRemovesLast(p);
    PlanSourcesAgree(p, o.converted);
    PlanTargetsMade(p);
    PlanListing(p);
    BeforeIsPrefix(p);
    VerifyEnds(p);
  }

  lemma BeforeIsPrefix(p: Plan)
    ensures |PlanSteps(p)| >= |BeforeRebuild(p)| && PlanSteps(p)[..|BeforeRebuild(p)|] == BeforeRebuild(p)
  {
    hide BeforeRebuild, AfterRebuild;
  }

  /** Whatever the snapshot and options, adopt's steps are well ordered. */
  lemma AdoptWellOrdered(s: Snapshot, migrate: bool, p: Plan) returns (o: Outline)
    requires Adopts(s, migrate, p)
    ensures WellOrdered(p, o)
  {
    hide WellOrdered;
    AdoptDestinations(s, migrate, p);
    o := StepsWellOrdered(p);
  }

  /** Whatever the snapshot and conversions, set_icon's steps are well ordered. */
  lemma SetIconWellOrdered(p: Plan) returns (o: Outline)
    requires p.migrations == [] && p.leftovers == ConvertedNames(p.conversions)
    ensures WellOrdered(p, o)
  {
    hide WellOrdered;
    o := StepsWellOrdered(p);
  }
}
