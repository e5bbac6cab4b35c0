/** What a pass that launches a rolling step does to the running containers, in terms of the
    limits in the deployment's spec. */
module RollingPasses {
  import opened Domain
  import opened Runtime
  import opened RollSpec
  import opened RollSafety
  import opened RollFloor
  import opened RollConvergence
  import opened Deployments
  import opened Revisions
  import opened Reconciles
  import opened SerialRuns
  import opened Tracking

  /** The limits as the spec gives them. */
  function GivenLimits(spec: Spec): Limits
    requires HasLimits(spec)
  {
    var rolling := spec.strategy.rollingUpdate.value;
    Limits(spec.appCount, rolling.maxSurge.value, rolling.maxUnavailable.value, ModeOf(spec.mode))
  }

  /** The pass launches a step on a faithful snapshot. */
  ghost predicate LaunchesOn(env: Env, s: System, e: Event, s': System, d: Deployment, snap: Snapshot) {
    && e.kind.PassOf? && s.record == Some(d) && PassSteps(env, s, e, s', d) && FreshNames(s.world)
    && EffectOf(d, e.at, e.kind.pass).rolls && e.kind.pass.newRev.Some?
    && snap == SnapshotOf(e.kind.pass, e.kind.nodes, e.kind.active) && Faithful(s.world, snap)
  }

  lemma LaunchedStep(env: Env, s: System, e: Event, s': System, d: Deployment, snap: Snapshot)
    requires LaunchesOn(env, s, e, s', d, snap)
    ensures HasLimits(d.spec) && s'.world == Roll(env, s.world, GivenLimits(d.spec), snap).world
  {
    hide Passes, Sees, GivesNewNames, Roll, EffectOf, Faithful, SavesRollback, RecordAfter;
    EffectFacts(d, e.at, e.kind.pass);
  }

  /** A launched step keeps the deployment within appCount + maxSurge apps, or those it had, and
      keeps at least appCount - maxUnavailable of its available apps, or all of them. */
  lemma LaunchKeepsBounds(env: Env, s: System, e: Event, s': System, d: Deployment, snap: Snapshot)
    requires LaunchesOn(env, s, e, s', d, snap)
    ensures HasLimits(d.spec)
    ensures var rolling := d.spec.strategy.rollingUpdate.value;
            && |s'.world.running| <= Max(|s.world.running|, d.spec.appCount + rolling.maxSurge.value)
            && |RunningOf(s'.world, snap.newRev)| <= Max(|RunningOf(s.world, snap.newRev)|, d.spec.appCount)
            && (|RunningOf(s.world, snap.newRev)| <= d.spec.appCount ==>
                  |Survivors(s'.world, snap)| >= Min(|snap.available|, d.spec.appCount - rolling.maxUnavailable.value))
  {
    LaunchedStep(env, s, e, s', d, snap);
    hide Roll, PassSteps, Faithful, RunningOf, Survivors, EffectOf;
    SurgeCeiling(env, s.world, GivenLimits(d.spec), snap);
    if |RunningOf(s.world, snap.newRev)| <= d.spec.appCount {
      AvailabilityFloor(env, s.world, GivenLimits(d.spec), snap);
    }
  }

  /** When every app is available and no call fails, a launched step makes progress, except if
      both limits are zero and the deployment has exactly as many apps as it asks for. */
  lemma LaunchMakesProgress(env: Env, s: System, e: Event, s': System, d: Deployment, snap: Snapshot)
    requires LaunchesOn(env, s, e, s', d, snap) && NeverFails(env) && HasLimits(d.spec)
    requires Healthy(s.world, GivenLimits(d.spec), snap)
    requires |RunningOf(s.world, snap.newRev)| <= d.spec.appCount
    requires !AtTarget(s.world, GivenLimits(d.spec), snap.newRev)
    requires d.spec.strategy.rollingUpdate.value.maxSurge.value >= 0
    requires d.spec.strategy.rollingUpdate.value.maxUnavailable.value >= 0
    ensures var rolling := d.spec.strategy.rollingUpdate.value;
            var left := OldCount(s.world, snap.newRev) + d.spec.appCount - |RunningOf(s.world, snap.newRev)|;
            var left' := OldCount(s'.world, snap.newRev) + d.spec.appCount - |RunningOf(s'.world, snap.newRev)|;
            left' < left <==> !(rolling.maxSurge.value == 0 && rolling.maxUnavailable.value == 0
                                && |s.world.running| == d.spec.appCount)
  {
    LaunchedStep(env, s, e, s', d, snap);
    hide Roll, PassSteps, Faithful, RunningOf, EffectOf, Healthy, NeverFails;
    HealthyStep(env, s.world, GivenLimits(d.spec), snap);
  }

  /** What a pass observes on a faithful snapshot tells a complete rollout: its status update
      reports completion exactly when something is asked for, the unavailability limit is not
      negative, and exactly appCount apps of the new revision run, all available, and no other. */
  lemma PassSeesCompletion(w: World, d: Deployment, p: Pass, nodes: seq<string>, active: seq<Revision>)
    requires HasLimits(d.spec) && p.newRev.Some? && Faithful(w, SnapshotOf(p, nodes, active))
    ensures var o := ObservationOf(p);
            Completed(d.spec, WithCounts(d, o).status, o.newCount)
            <==> && d.spec.appCount > 0 && d.spec.strategy.rollingUpdate.value.maxUnavailable.value >= 0
                 && |w.running| == d.spec.appCount && |RunningOf(w, p.newRev.value)| == d.spec.appCount
                 && Names(p.available) == w.running.Keys
  {
    var snap := SnapshotOf(p, nodes, active);
    assert Names(p.total) == w.running.Keys by { assert ListsRunning(w, snap.total); }
    hide Faithful, RunningOf, Names, ActiveCounts, Matching;
    FaithfulCounts(w, snap);
    CompletionMeansDone(d.spec, d.status, w, snap, GivenLimits(d.spec));
    FaithfulListed(w, p, nodes, active);
  }

  lemma FaithfulListed(w: World, p: Pass, nodes: seq<string>, active: seq<Revision>)
    requires p.newRev.Some? && Faithful(w, SnapshotOf(p, nodes, active))
    ensures SnapshotOf(p, nodes, active).counts == ActiveCounts(p.oldRevs + [p.newRev.value], p.total)
  {}
}
