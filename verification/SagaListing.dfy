/** What the plan's autostart steps come to: the rebuild keeps the container's state, and it ends listed as planned. */
module SagaListing {
  import opened Names
  import opened Plans
  import opened PlanLaws
  import opened Stages
  import opened Saga
  import opened SagaWrites
  import opened HostAutostart
  import Templates

  lemma SetListed(cx: Context, h: Host, st: State, on: bool, io: Io)
    requires AfterListing(cx, h, st, on, io).ok
    ensures Listed(cx, AfterListing(cx, h, st, on, io).host) == on
  {
    hide ParseAutostart, AutostartWith, ValidName;
    ValidNameIsWord(cx.name);
    AutostartReadsBack(h.listing, cx.name, on);
  }

  lemma StepKeepsListing(cx: Context, h: Host, st: State, step: Plans.Step, io: Io)
    requires !step.SetAutostart?
    ensures RunStep(cx, h, st, step, io).host.listing == h.listing
  {
    hide Created, Filled, Exposed, Templates.Written, HostAutostart.AfterWrite, AllUnchanged, CreateOk, Holds,
         CopyVerified, DigestOf, ParseAutostart, Walk;
  }

  lemma RebuildRuns(cx: Context, h: Host, st: State, io: Io)
    requires RunStep(cx, h, st, Rebuild, io).ok
    ensures RunStep(cx, h, st, Rebuild, io).host.running == Listed(cx, h)
  {
    hide Listed;
  }

  lemma StepListed(cx: Context, p: Progress, step: Plans.Step, io: Io)
    requires p.ok && Advance(cx, p, step, io).ok
    ensures Listed(cx, Advance(cx, p, step, io).host) == if step.SetAutostart? then step.on else Listed(cx, p.host)
    ensures step == Rebuild ==> Advance(cx, p, step, io).host.running == Listed(cx, p.host)
  {
    AdvanceHost(cx, p, step, io);
    AdvanceOk(cx, p, step, io);
    hide Advance, ParseAutostart, AfterListing;
    if step.SetAutostart? {
      SetListed(cx, p.host, p.state, step.on, io);
    } else {
      hide RunStep;
      StepKeepsListing(cx, p.host, p.state, step, io);
      if step == Rebuild { RebuildRuns(cx, p.host, p.state, io); }
    }
  }

  lemma {:induction false} EventsKeepListing(h: Host, es: seq<Event>)
    ensures AfterEvents(h, es).listing == h.listing
    decreases |es|
  {
    if es == [] {
    } else {
      EventsKeepListing(AfterEvent(h, es[0]), es[1..]);
    }
  }

  lemma ListedAfterSnoc(steps: seq<Plans.Step>, i: nat, listed: bool)
    requires i < |steps|
    ensures ListedAfter(steps[..i + 1], listed)
         == if steps[i].SetAutostart? then steps[i].on else ListedAfter(steps[..i], listed)
  {
    assert steps[..i + 1] == steps[..i] + [steps[i]];
    ListedAfterConcat(steps[..i], [steps[i]], listed);
    assert [steps[i]][1..] == [];
  }

  /** At every point of a run the container is listed as simulating its steps says. */
  lemma {:induction false} ListedAsSimulated(cx: Context, steps: seq<Plans.Step>, turns: seq<Turn>, ps: seq<Progress>,
                                             h0: Host, i: nat)
    requires IsRunOf(cx, steps, turns, ps, h0) && i < |ps| && ps[i].ok
    ensures Listed(cx, ps[i].host) == ListedAfter(steps[..i], Listed(cx, h0))
  {
    hide Advance, IsTrace, AfterEvents, ParseAutostart;
    if i == 0 {
    } else {
      hide ListedAfter, Listed;
      RunStepAt(cx, steps, turns, ps, h0, i - 1);
      ListedAsSimulated(cx, steps, turns, ps, h0, i - 1);
      ListedBefore(cx, ps[i - 1].host, turns[i - 1].events);
      StepListed(cx, Mid(ps[i - 1], turns[i - 1]), steps[i - 1], turns[i - 1].io);
      ListedAfterSnoc(steps, i - 1, Listed(cx, h0));
    }
  }

  /**
   Whoever interferes: a rebuild that succeeds leaves the container running exactly if it ran
   when planned, and a run that finishes leaves it listed for autostart exactly as planned.
   */
  lemma RunEndsAsPlanned(cx: Context, h0: Host, plan: Plan, o: Outline, turns: seq<Turn>, ps: seq<Progress>)
    requires WellOrdered(plan, o) && plan.inAutostart == Listed(cx, h0)
    requires IsRunOf(cx, o.steps, turns, ps, h0)
    ensures |ps| > o.rebuild + 1 && ps[o.rebuild + 1].ok ==> ps[o.rebuild + 1].host.running == plan.wasRunning
    ensures |ps| == |o.steps| + 1 && ps[|ps| - 1].ok ==> Listed(cx, ps[|ps| - 1].host) == plan.autostart
  {
    hide PlanSteps, IsTrace, Advance, AfterEvents, StoppedFirst, TargetsMade, SourcesAgree, TemplateOnce,
         ExposedAfterCopied, RemovedAfterVerified, ListedAfter, Guarded, Listed;
    var steps := o.steps;
    if |ps| > o.rebuild + 1 && ps[o.rebuild + 1].ok {
      RunStepAt(cx, steps, turns, ps, h0, o.rebuild);
      ListedAsSimulated(cx, steps, turns, ps, h0, o.rebuild);
      ListedBefore(cx, ps[o.rebuild].host, turns[o.rebuild].events);
      StepListed(cx, Mid(ps[o.rebuild], turns[o.rebuild]), steps[o.rebuild], turns[o.rebuild].io);
    }
    if |ps| == |steps| + 1 && ps[|ps| - 1].ok {
      ListedAsSimulated(cx, steps, turns, ps, h0, |steps|);
      assert steps[..|steps|] == steps;
    }
  }

  lemma ListedBefore(cx: Context, h: Host, es: seq<Event>)
    ensures Listed(cx, AfterEvents(h, es)) == Listed(cx, h)
  {
    EventsKeepListing(h, es);
  }
}
