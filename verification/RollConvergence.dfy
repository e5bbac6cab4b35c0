/** Convergence of repeated rolling steps when nothing fails, the one configuration in
    which they get stuck, and the fact that a finished rollout is left alone. */
module RollConvergence {
  import opened Domain
  import opened Runtime
  import opened RollSpec
  import opened Snapshots
  import opened RollSafety
  import opened RollFloor

  /** A faithful snapshot in which every app is available, of a deployment whose containers
      are called directly. */
  ghost predicate Healthy(w: World, limits: Limits, snap: Snapshot) {
    && Faithful(w, snap) && FreshNames(w)
    && Names(snap.available) == Names(snap.total)
    && (limits.mode.DirectDocker? || (limits.mode.DirectStar? && snap.nodes != []))
  }

  function OldCount(w: World, rev: Revision): int {
    |w.running| - |RunningOf(w, rev)|
  }

  /** The old apps still to be stopped and the new ones still to be started. */
  function Measure(w: World, limits: Limits, rev: Revision): int {
    OldCount(w, rev) + limits.appCount - |RunningOf(w, rev)|
  }

  ghost predicate AtTarget(w: World, limits: Limits, rev: Revision) {
    |RunningOf(w, rev)| == limits.appCount && OldCount(w, rev) == 0
  }

  /** Both limits are zero and the old apps fill all the capacity that is left. */
  ghost predicate Stuck(w: World, limits: Limits) {
    limits.maxSurge == 0 && limits.maxUnavailable == 0 && |w.running| == limits.appCount
  }

  // ---------- the old apps ----------

  lemma {:induction false} OldAppsAreOld(revs: seq<Revision>, n: nat, apps: seq<App>)
    requires DistinctRevisions(revs) && AllCarried(revs, apps) && n < |revs|
    ensures forall a | a in AppsOf(revs[..n], apps) :: a in apps && !MatchLabels(revs[|revs| - 1].selector, a.labels)
  {
    hide MatchLabels, DistinctRevisions, StartedBy;
    if n > 0 {
      OldAppsAreOld(revs, n - 1, apps);
      assert revs[..n][..n - 1] == revs[..n - 1];
      MatchingSelects(revs[n - 1].selector, apps);
      forall a | a in Matching(revs[n - 1].selector, apps) ensures !MatchLabels(revs[|revs| - 1].selector, a.labels) {
        assert Carried(revs, a.labels);
        var i :| StartedBy(revs, i, a.labels);
        EachAppMatchesOneRevision(revs, i, a.labels, n - 1);
        EachAppMatchesOneRevision(revs, i, a.labels, |revs| - 1);
      }
    }
  }

  /** No app of the old revisions' list is a running container of the new revision. */
  lemma OldAppsAreNotNew(w: World, snap: Snapshot)
    requires Faithful(w, snap)
    ensures Names(AppsOf(snap.oldRevs, snap.total)) <= w.running.Keys - RunningOf(w, snap.newRev)
    ensures |AppsOf(snap.oldRevs, snap.total)| == OldCount(w, snap.newRev)
  {
    hide DistinctRevisions, AllCarried, MatchLabels, ActiveCounts, ActiveRevisions;
    var revs := AllRevisions(snap);
    OldAppsAreOld(revs, |snap.oldRevs|, snap.total);
    assert revs[..|snap.oldRevs|] == snap.oldRevs;
    OldAppsCount(w, snap);
  }

  lemma OldAppsCount(w: World, snap: Snapshot)
    requires Faithful(w, snap)
    ensures |AppsOf(snap.oldRevs, snap.total)| == OldCount(w, snap.newRev)
  {
    hide DistinctRevisions, AllCarried, ListsRunning, RunningOf, ActiveRevisions;
    FaithfulCounts(w, snap);
    EveryCountIsMatches(snap);
    SumOfMatches(snap.counts, snap.oldRevs, snap.total);
  }

  lemma {:induction false} SomeCountIsPositive(counts: map<string, int>, revs: seq<Revision>) returns (j: nat)
    requires SumCounts(counts, revs) > 0
    ensures j < |revs| && CountOf(counts, revs[j].name) > 0
  {
    var last := |revs| - 1;
    if CountOf(counts, revs[last].name) > 0 {
      j := last;
    } else {
      j := SomeCountIsPositive(counts, revs[..last]);
    }
  }

  lemma {:induction false} NoneUnavailable(newRev: Revision, total: seq<App>, available: seq<App>)
    requires forall a | a in total :: a.name in Names(available) || MatchLabels(newRev.selector, a.labels)
    ensures OldUnavailable(newRev, total, available) == []
  {
    hide MatchLabels, Names;
    if total != [] {
      NoneUnavailable(newRev, total[..|total| - 1], available);
    }
  }

  // ---------- scaling down when nothing fails ----------

  lemma StopAppsSucceeds(env: Env, w: World, mode: Mode, nodes: seq<string>, n: nat, apps: seq<App>)
    requires NeverFails(env) && (mode.DirectDocker? || (mode.DirectStar? && nodes != []))
    ensures StopApps(env, w, mode, nodes, n, apps).ok
  {
    FailuresBound(env, w.tick, |Tail(apps, n)|);
  }

  /** If some old revision has apps and the budget is positive, the last old app is stopped. */
  lemma {:induction false} ScaleOldRemovesLast(env: Env, w: World, limits: Limits, snap: Snapshot, oldApps: seq<App>,
                                               i: nat, j: nat)
    requires NeverFails(env) && (limits.mode.DirectDocker? || (limits.mode.DirectStar? && snap.nodes != []))
    requires i <= j < |snap.oldRevs| && CountOf(snap.counts, snap.oldRevs[j].name) > 0
    requires forall k | 0 <= k < |snap.oldRevs| :: CountOf(snap.counts, snap.oldRevs[k].name) >= 0
    requires |snap.available| > MinAvailable(limits) && oldApps != []
    ensures oldApps[|oldApps| - 1].name !in ScaleOldFrom(env, w, limits, snap, oldApps, i, 0).world.running
    decreases j - i
  {
    hide StopApps, MinAvailable, Loses, NeverFails, Tail, CountOf;
    var size := CountOf(snap.counts, snap.oldRevs[i].name);
    if size == 0 {
      ScaleOldRemovesLast(env, w, limits, snap, oldApps, i + 1, j);
    } else {
      var down := Min(size, |snap.available| - MinAvailable(limits));
      var r := StopApps(env, w, limits.mode, snap.nodes, down, oldApps);
      var last := oldApps[|oldApps| - 1];
      StopAppsSucceeds(env, w, limits.mode, snap.nodes, down, oldApps);
      DirectStopRemovesLast(env, w, limits.mode, snap.nodes, down, oldApps);
      var r' := ScaleOldFrom(env, r.world, limits, snap, oldApps, i + 1, down);
      ScaleOldLoses(env, r.world, limits, snap, oldApps, i + 1, down);
      StaysGone(r.world, r'.world, Names(Tail(oldApps, Max(|snap.available| - MinAvailable(limits), 0))), last.name);
      assert ScaleOldFrom(env, w, limits, snap, oldApps, i, 0) == r';
    }
  }

  lemma DirectStopRemovesLast(env: Env, w: World, mode: Mode, nodes: seq<string>, n: nat, apps: seq<App>)
    requires NeverFails(env) && (mode.DirectDocker? || (mode.DirectStar? && nodes != []))
    requires n > 0 && apps != []
    ensures apps[|apps| - 1].name !in StopApps(env, w, mode, nodes, n, apps).world.running
  {
    hide Failures, NeverFails, Loses;
    var tail := Tail(apps, n);
    StopSeqLoses(env, w, tail);
    assert tail[|tail| - 1] == apps[|apps| - 1];
  }

  // ---------- one step ----------

  /** The budget for stopping available apps. */
  function Budget(w: World, limits: Limits): int {
    |w.running| - MinAvailable(limits)
  }

  lemma HealthyFacts(w: World, limits: Limits, snap: Snapshot)
    requires Healthy(w, limits, snap)
    ensures |snap.available| == |w.running| && MaxScaledDown(limits, snap) == Budget(w, limits)
    ensures OldUnavailable(snap.newRev, snap.total, snap.available) == []
    ensures forall k | 0 <= k < |snap.oldRevs| :: CountOf(snap.counts, snap.oldRevs[k].name) >= 0
  {
    hide DistinctRevisions, AllCarried, ActiveRevisions, ActiveCounts, RunningOf, CountOf, FreshNames;
    FaithfulCounts(w, snap);
    assert ListsRunning(w, snap.available);
    RunningSize(w, snap.available);
    MatchingIsRunning(w, snap.available, snap.newRev);
    NoneUnavailable(snap.newRev, snap.total, snap.available);
    EveryCountIsMatches(snap);
    forall k | 0 <= k < |snap.oldRevs| ensures CountOf(snap.counts, snap.oldRevs[k].name) >= 0 {
      assert AllRevisions(snap)[k] == snap.oldRevs[k];
    }
  }

  lemma HealthyScaleUp(w: World, limits: Limits, snap: Snapshot)
    requires Healthy(w, limits, snap) && |RunningOf(w, snap.newRev)| <= limits.appCount
    ensures ScaleUp(limits, snap) == Max(0, Min(limits.appCount + limits.maxSurge - |w.running|,
                                                limits.appCount - |RunningOf(w, snap.newRev)|))
  {
    hide Faithful, RunningOf, FreshNames, Names, ScaleUp;
    ScaleUpBounds(w, limits, snap);
  }

  /** The first half starts exactly the computed number of new apps and touches nothing else. */
  lemma StartPhase(env: Env, w: World, limits: Limits, snap: Snapshot)
    requires Healthy(w, limits, snap) && NeverFails(env)
    requires |RunningOf(w, snap.newRev)| <= limits.appCount
    ensures ReconcileNew(env, w, limits, snap).ok
    ensures var w1 := ReconcileNew(env, w, limits, snap).world;
            && Extends(w, w1, snap.newRev.app.labels, ScaleUp(limits, snap))
            && |RunningOf(w1, snap.newRev)| == |RunningOf(w, snap.newRev)| + ScaleUp(limits, snap)
            && |w1.running| == |w.running| + ScaleUp(limits, snap)
  {
    hide Faithful, Extends, RunningOf, FreshNames, NeverFails, StartAll, ScaleUp, StartLabels, Names;
    var up := ScaleUp(limits, snap);
    var w1 := ReconcileNew(env, w, limits, snap).world;
    var labels := snap.newRev.app.labels;
    HealthyScaleUp(w, limits, snap);
    NewRevisionIsWellFormed(w, snap);
    ReconcileNewUp(env, w, limits, snap);
    StartsItsLabels(limits.mode, snap.newRev);
    ScaleUpCalls(env, w, limits, snap);
    BatchesCount(env, snap.newRev.name, labels, up, 1, Started(w, 0, true, 0, 0));
    StartedAreNew(w, w1, labels, up, snap.newRev);
  }

  lemma StartsItsLabels(mode: Mode, rev: Revision)
    requires WellFormed(rev)
    ensures StartLabels(mode, rev) == rev.app.labels && MatchLabels(rev.selector, rev.app.labels)
  {
    assert rev.app.labels["revision"] == rev.name;
  }

  lemma ScaleUpCalls(env: Env, w: World, limits: Limits, snap: Snapshot)
    requires 0 <= ScaleUp(limits, snap) && (limits.mode.DirectDocker? || (limits.mode.DirectStar? && snap.nodes != []))
    ensures var up := ScaleUp(limits, snap);
            var s := StartBatches(env, snap.newRev.name, StartLabels(limits.mode, snap.newRev), up, 1,
                                  Started(w, 0, true, 0, 0));
            ReconcileNew(env, w, limits, snap) == Result(s.world, s.ok)
  {
    hide CountOf, SumCounts, StartLabels;
  }

  lemma StartedAreNew(w: World, w1: World, labels: Labels, most: int, rev: Revision)
    requires Extends(w, w1, labels, most) && MatchLabels(rev.selector, labels)
    requires |w1.running| == |w.running| + most
    ensures |RunningOf(w1, rev)| == |RunningOf(w, rev)| + most
  {
    hide MatchLabels, RunningOf;
    assert w.running.Keys <= w1.running.Keys;
    RunningOfSubset(w, rev);
    AddedSize(w.running.Keys, w1.running.Keys);
    AddedAreNew(w, w1, labels, most, rev);
  }

  lemma AddedAreNew(w: World, w1: World, labels: Labels, most: int, rev: Revision)
    requires Extends(w, w1, labels, most) && MatchLabels(rev.selector, labels)
    ensures RunningOf(w1, rev) == RunningOf(w, rev) + (w1.running.Keys - w.running.Keys)
  {
    hide MatchLabels;
  }

  lemma AddedSize<T>(a: set<T>, b: set<T>)
    requires a <= b
    ensures |b - a| == |b| - |a|
  {
    assert b == a + (b - a);
  }

  lemma TargetsAreOld(w: World, limits: Limits, snap: Snapshot)
    requires Healthy(w, limits, snap)
    ensures OldTargets(limits, snap) <= w.running.Keys - RunningOf(w, snap.newRev)
    ensures OldCount(w, snap.newRev) == 0 ==> OldTargets(limits, snap) == {}
  {
    hide Faithful, RunningOf, AppsOf, MinAvailable, OldUnavailable, FreshNames, Tail;
    HealthyFacts(w, limits, snap);
    OldAppsAreNotNew(w, snap);
    var budget := Max(|snap.available| - MinAvailable(limits), 0);
    TailNames(AppsOf(snap.oldRevs, snap.total), budget, budget);
  }

  lemma TargetsMissNew(w: World, w1: World, labels: Labels, most: int, rev: Revision, targets: set<ContainerName>)
    requires Extends(w, w1, labels, most) && targets <= w.running.Keys - RunningOf(w, rev)
    ensures targets !! RunningOf(w1, rev)
  {
    hide MatchLabels;
  }

  lemma OthersSurvive(w: World, w': World, rev: Revision, targets: set<ContainerName>)
    requires Loses(w, w', targets) && targets !! RunningOf(w, rev)
    ensures RunningOf(w', rev) == RunningOf(w, rev)
  {
    hide MatchLabels;
    forall k | k in RunningOf(w, rev) ensures k in w'.running {
      assert k !in w.running.Keys - w'.running.Keys;
    }
  }

  lemma NoTargetsNoLoss(w: World, w': World)
    requires Loses(w, w', {})
    ensures w'.running == w.running
  {
    assert w.running.Keys == w'.running.Keys + (w.running.Keys - w'.running.Keys);
  }

  /** The second half stops only old apps, at least one when the budget allows. */
  lemma StopPhase(env: Env, w: World, w1: World, limits: Limits, snap: Snapshot, most: int)
    requires Healthy(w, limits, snap) && NeverFails(env) && Extends(w, w1, snap.newRev.app.labels, most)
    ensures var w' := ReconcileOld(env, w1, limits, snap).world;
            && RunningOf(w', snap.newRev) == RunningOf(w1, snap.newRev)
            && |w'.running| <= |w1.running|
            && (Budget(w, limits) <= 0 || OldCount(w, snap.newRev) == 0 ==> w'.running == w1.running)
            && (Budget(w, limits) > 0 && OldCount(w, snap.newRev) > 0 ==> |w'.running| < |w1.running|)
  {
    hide Healthy, Extends, Loses, RunningOf, NeverFails, ReconcileOld, OldTargets, Budget;
    var w' := ReconcileOld(env, w1, limits, snap).world;
    ReconcileOldLoses(env, w1, limits, snap);
    TargetsAreOld(w, limits, snap);
    TargetsMissNew(w, w1, snap.newRev.app.labels, most, snap.newRev, OldTargets(limits, snap));
    OthersSurvive(w1, w', snap.newRev, OldTargets(limits, snap));
    LosesCounts(w1, w', OldTargets(limits, snap), snap.newRev);
    if Budget(w, limits) <= 0 {
      NoBudget(env, w, w1, limits, snap);
    } else if OldCount(w, snap.newRev) == 0 {
      NoTargetsNoLoss(w1, w');
    } else if OldCount(w, snap.newRev) > 0 {
      OldAppIsStopped(env, w, w1, limits, snap, most);
    }
  }

  /** The second half stops no more apps than the budget. */
  lemma StopsWithinBudget(env: Env, w: World, w1: World, limits: Limits, snap: Snapshot)
    requires Healthy(w, limits, snap)
    ensures |ReconcileOld(env, w1, limits, snap).world.running| >= |w1.running| - Max(Budget(w, limits), 0)
  {
    hide Faithful, FreshNames, Loses, ReconcileOld, MinAvailable, AppsOf, OldUnavailable, MaxScaledDown, CountOf, Tail;
    var w' := ReconcileOld(env, w1, limits, snap).world;
    var budget := Max(Budget(w, limits), 0);
    HealthyFacts(w, limits, snap);
    ReconcileOldLoses(env, w1, limits, snap);
    TailNames(AppsOf(snap.oldRevs, snap.total), budget, budget);
    assert OldTargets(limits, snap) == Names(Tail(AppsOf(snap.oldRevs, snap.total), budget));
    LosesAtMost(w1, w', OldTargets(limits, snap));
  }

  lemma LosesAtMost(w: World, w': World, names: set<ContainerName>)
    requires Loses(w, w', names)
    ensures |w'.running| >= |w.running| - |names|
  {
    AddedSize(w'.running.Keys, w.running.Keys);
    SubsetSize(w.running.Keys - w'.running.Keys, names);
  }

  lemma NoBudget(env: Env, w: World, w1: World, limits: Limits, snap: Snapshot)
    requires Healthy(w, limits, snap) && Budget(w, limits) <= 0
    ensures ReconcileOld(env, w1, limits, snap) == Result(w1, true)
  {
    hide Healthy, MaxScaledDown, Budget;
    HealthyFacts(w, limits, snap);
  }

  lemma OldAppIsStopped(env: Env, w: World, w1: World, limits: Limits, snap: Snapshot, most: int)
    requires Healthy(w, limits, snap) && NeverFails(env) && Extends(w, w1, snap.newRev.app.labels, most)
    requires Budget(w, limits) > 0 && OldCount(w, snap.newRev) > 0
    ensures |ReconcileOld(env, w1, limits, snap).world.running| < |w1.running|
  {
    hide Faithful, Extends, Loses, RunningOf, NeverFails, MaxScaledDown, AppsOf, OldUnavailable, StopApps, ScaleOldFrom,
         FreshNames, SumCounts, CountOf, MinAvailable;
    var oldApps := AppsOf(snap.oldRevs, snap.total);
    var r := ReconcileOld(env, w1, limits, snap);
    HealthyFacts(w, limits, snap);
    FaithfulCounts(w, snap);
    OldAppsAreNotNew(w, snap);
    var j := SomeCountIsPositive(snap.counts, snap.oldRevs);
    StopNothing(env, w1, limits.mode, snap.nodes, MaxScaledDown(limits, snap));
    assert r == ScaleOldFrom(env, w1, limits, snap, oldApps, 0, 0);
    ScaleOldRemovesLast(env, w1, limits, snap, oldApps, 0, j);
    ReconcileOldLoses(env, w1, limits, snap);
    ExtendsKeeps(w, w1, snap.newRev.app.labels, most);
    var last := oldApps[|oldApps| - 1];
    assert last.name in Names(oldApps);
    ShrinksBy(w1, r.world, OldTargets(limits, snap), last.name);
  }

  lemma StopNothing(env: Env, w: World, mode: Mode, nodes: seq<string>, n: nat)
    ensures StopApps(env, w, mode, nodes, n, []).world == w
    ensures mode.DirectDocker? || (mode.DirectStar? && nodes != []) ==> StopApps(env, w, mode, nodes, n, []).ok
  {}

  lemma ShrinksBy(w: World, w': World, names: set<ContainerName>, k: ContainerName)
    requires Loses(w, w', names) && k in w.running && k !in w'.running
    ensures |w'.running| < |w.running|
  {
    SubsetSize(w'.running.Keys, w.running.Keys - {k});
  }

  // ---------- convergence ----------

  /** In any cluster in which no call fails, however few apps are available, the unavailable
      old apps are the first to go: a step stops the whole tail of them that it may. */
  lemma UnavailableStoppedFirst(env: Env, w: World, limits: Limits, snap: Snapshot)
    requires Faithful(w, snap) && FreshNames(w) && NeverFails(env)
    requires limits.mode.DirectDocker? || (limits.mode.DirectStar? && snap.nodes != [])
    requires |RunningOf(w, snap.newRev)| <= limits.appCount
    ensures var old' := OldUnavailable(snap.newRev, snap.total, snap.available);
            Names(Tail(old', Max(MaxScaledDown(limits, snap), 0))) !! Roll(env, w, limits, snap).world.running.Keys
  {
    hide Faithful, FreshNames, NeverFails, RunningOf, OldUnavailable, MaxScaledDown, ReconcileNew, ReconcileOld,
         ScaleUp, StartLabels, Tail;
    ScaleUpBounds(w, limits, snap);
    ScaleUpCalls(env, w, limits, snap);
    BatchesCount(env, snap.newRev.name, StartLabels(limits.mode, snap.newRev), ScaleUp(limits, snap), 1,
                 Started(w, 0, true, 0, 0));
    UnavailableStopped(env, ReconcileNew(env, w, limits, snap).world, limits, snap);
  }

  lemma UnavailableStopped(env: Env, w: World, limits: Limits, snap: Snapshot)
    requires NeverFails(env) && (limits.mode.DirectDocker? || (limits.mode.DirectStar? && snap.nodes != []))
    ensures var old' := OldUnavailable(snap.newRev, snap.total, snap.available);
            Names(Tail(old', Max(MaxScaledDown(limits, snap), 0)))
            !! ReconcileOld(env, w, limits, snap).world.running.Keys
  {
    hide NeverFails, OldUnavailable, MaxScaledDown, AppsOf, StopApps, ScaleOldFrom;
    var most := MaxScaledDown(limits, snap);
    var targets := OldUnavailable(snap.newRev, snap.total, snap.available);
    if most > 0 {
      hide Tail, Names;
      var r := StopApps(env, w, limits.mode, snap.nodes, most, targets);
      StopAppsSucceeds(env, w, limits.mode, snap.nodes, most, targets);
      StopAppsRemoves(env, w, limits.mode, snap.nodes, most, targets);
      ScaleOldLoses(env, r.world, limits, snap, AppsOf(snap.oldRevs, snap.total), 0, 0);
    }
  }

  /** One step in a healthy cluster: the new revision grows to at most its target, no old
      app is added, and the measure strictly falls exactly when the step is not stuck. */
  lemma HealthyStep(env: Env, w: World, limits: Limits, snap: Snapshot)
    requires Healthy(w, limits, snap) && NeverFails(env)
    requires limits.maxSurge >= 0 && limits.maxUnavailable >= 0
    requires |RunningOf(w, snap.newRev)| <= limits.appCount && !AtTarget(w, limits, snap.newRev)
    ensures var w' := Roll(env, w, limits, snap).world;
            && |RunningOf(w, snap.newRev)| <= |RunningOf(w', snap.newRev)| <= limits.appCount
            && OldCount(w', snap.newRev) <= OldCount(w, snap.newRev)
            && (Measure(w', limits, snap.newRev) < Measure(w, limits, snap.newRev) <==> !Stuck(w, limits))
  {
    hide Healthy, Extends, RunningOf, NeverFails, ReconcileNew, ReconcileOld, ScaleUp;
    var w1 := ReconcileNew(env, w, limits, snap).world;
    var up := ScaleUp(limits, snap);
    HealthyScaleUp(w, limits, snap);
    StartPhase(env, w, limits, snap);
    StopPhase(env, w, w1, limits, snap, up);
    RunningOfBound(w, snap.newRev);
  }

  /** With both limits zero, a rollout that still has old apps and lacks new ones stays so. */
  lemma HopelessStep(env: Env, w: World, limits: Limits, snap: Snapshot)
    requires Healthy(w, limits, snap) && NeverFails(env)
    requires limits.maxSurge == 0 && limits.maxUnavailable == 0
    requires |RunningOf(w, snap.newRev)| < limits.appCount && OldCount(w, snap.newRev) > 0
    ensures var w' := Roll(env, w, limits, snap).world;
            |RunningOf(w', snap.newRev)| < limits.appCount && OldCount(w', snap.newRev) > 0
  {
    hide Healthy, Extends, RunningOf, NeverFails, ReconcileNew, ReconcileOld, ScaleUp;
    var w1 := ReconcileNew(env, w, limits, snap).world;
    HealthyScaleUp(w, limits, snap);
    StartPhase(env, w, limits, snap);
    StopPhase(env, w, w1, limits, snap, ScaleUp(limits, snap));
    StopsWithinBudget(env, w, w1, limits, snap);
  }

  lemma RunningOfSubset(w: World, rev: Revision)
    ensures RunningOf(w, rev) <= w.running.Keys
  {}

  lemma RunningOfBound(w: World, rev: Revision)
    ensures |RunningOf(w, rev)| <= |w.running|
  {
    SubsetSize(RunningOf(w, rev), w.running.Keys);
  }

  /** A stuck step does nothing at all, whatever the environment. */
  lemma StuckForEver(env: Env, w: World, limits: Limits, snap: Snapshot)
    requires Healthy(w, limits, snap) && Stuck(w, limits)
    requires |RunningOf(w, snap.newRev)| <= limits.appCount
    ensures Roll(env, w, limits, snap) == Result(w, true)
  {
    hide Healthy, RunningOf, ReconcileOld, ReconcileNew, ScaleUp;
    HealthyScaleUp(w, limits, snap);
    NothingToStart(env, w, limits, snap);
    NoBudget(env, w, w, limits, snap);
  }

  lemma NothingToStart(env: Env, w: World, limits: Limits, snap: Snapshot)
    requires ScaleUp(limits, snap) == 0
    ensures ReconcileNew(env, w, limits, snap) == Result(w, true)
  {
    hide CountOf, NewRevisionSize;
  }

  /** A finished rollout is left alone: nothing is started or stopped, whatever the
      environment and whichever apps are available. */
  lemma FinishedIsLeftAlone(env: Env, w: World, limits: Limits, snap: Snapshot)
    requires Faithful(w, snap) && AtTarget(w, limits, snap.newRev)
    ensures Roll(env, w, limits, snap).world == w
  {
    hide Faithful, RunningOf, SumCounts, CountOf, AppsOf, OldUnavailable, StopApps, ScaleOldFrom, MaxScaledDown;
    FaithfulCounts(w, snap);
    AllMatchNew(w, snap);
    NoneUnavailable(snap.newRev, snap.total, snap.available);
    OldAppsAreNotNew(w, snap);
    var most := MaxScaledDown(limits, snap);
    if most > 0 {
      StopNothing(env, w, limits.mode, snap.nodes, most);
      ScaleNothing(env, w, limits, snap, 0, 0);
    }
  }

  lemma AllMatchNew(w: World, snap: Snapshot)
    requires Faithful(w, snap) && OldCount(w, snap.newRev) == 0
    ensures forall a | a in snap.total :: MatchLabels(snap.newRev.selector, a.labels)
  {
    hide MatchLabels, DistinctRevisions, AllCarried, ActiveCounts, ActiveRevisions;
    SubsetOfSameSize(RunningOf(w, snap.newRev), w.running.Keys);
    forall a | a in snap.total ensures MatchLabels(snap.newRev.selector, a.labels) {
      assert a.name in Names(snap.total);
      assert a.name in RunningOf(w, snap.newRev);
    }
  }

  lemma {:induction false} ScaleNothing(env: Env, w: World, limits: Limits, snap: Snapshot, i: nat, scaled: int)
    requires i <= |snap.oldRevs|
    ensures ScaleOldFrom(env, w, limits, snap, [], i, scaled).world == w
    decreases |snap.oldRevs| - i
  {
    hide StopApps, MinAvailable, CountOf;
    var budget := |snap.available| - MinAvailable(limits);
    if i < |snap.oldRevs| && scaled < budget {
      var size := CountOf(snap.counts, snap.oldRevs[i].name);
      var down := Min(size, budget - scaled);
      if size == 0 {
        ScaleNothing(env, w, limits, snap, i + 1, scaled);
      } else if down >= 0 {
        StopNothing(env, w, limits.mode, snap.nodes, down);
        ScaleNothing(env, w, limits, snap, i + 1, scaled + down);
      }
    }
  }
}
