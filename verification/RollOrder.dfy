/** In which order a rolling step makes its calls, and which errors end it. */
module RollOrder {
  import opened Domain
  import opened Runtime
  import opened RollSpec
  import opened Snapshots
  import opened RollSafety
  import opened RollFloor
  import opened RollConvergence

  // ---------- the verdict of a stop ----------

  /** What a stop of the last apps of a list reports: in the docker mode an error if any of its
      calls fails, in the direct node mode none; without nodes, or in an unknown mode, always an
      error, and nothing is touched. */
  lemma StopVerdict(env: Env, w: World, mode: Mode, nodes: seq<string>, n: nat, apps: seq<App>)
    ensures mode.DirectDocker? ==>
              (StopApps(env, w, mode, nodes, n, apps).ok <==> AllOk(env, w.tick, if n <= |apps| then n else |apps|))
    ensures mode.DirectStar? && nodes != [] ==> StopApps(env, w, mode, nodes, n, apps).ok
    ensures mode.OtherMode? || (!mode.DirectDocker? && nodes == []) ==>
              StopApps(env, w, mode, nodes, n, apps) == Result(w, false)
  {
    NoFailures(env, w.tick, |Tail(apps, n)|);
  }

  // ---------- a failed first half ends the step ----------

  /** The new apps a step is going to start. */
  function MissingNew(w: World, limits: Limits, rev: Revision): nat {
    Max(0, Min(limits.appCount + limits.maxSurge - |w.running|, limits.appCount - |RunningOf(w, rev)|))
  }

  /** No start is possible, or one of the starts of the missing new apps would fail. */
  ghost predicate StartsFail(env: Env, w: World, limits: Limits, snap: Snapshot) {
    var missing := MissingNew(w, limits, snap.newRev);
    && missing > 0
    && (limits.mode.OtherMode? || (!limits.mode.DirectDocker? && snap.nodes == []) || !AllOk(env, w.tick, missing))
  }

  lemma FirstHalfStarts(env: Env, w: World, limits: Limits, snap: Snapshot)
    requires Faithful(w, snap) && |RunningOf(w, snap.newRev)| <= limits.appCount
    ensures var missing := MissingNew(w, limits, snap.newRev);
            ReconcileNew(env, w, limits, snap)
            == if missing == 0 then Result(w, true)
               else StartApps(env, w, limits.mode, snap.nodes, snap.newRev, missing)
  {
    hide Faithful, RunningOf, StartApps, SumCounts, CountOf;
    ScaleUpBounds(w, limits, snap);
    FaithfulCounts(w, snap);
  }

  /** If any start of the missing new apps fails, the step reports an error, and every container
      that ran before still runs: no old app has been stopped. */
  lemma FailedStartEndsStep(env: Env, w: World, limits: Limits, snap: Snapshot)
    requires Faithful(w, snap) && FreshNames(w) && |RunningOf(w, snap.newRev)| <= limits.appCount
    requires StartsFail(env, w, limits, snap)
    ensures var r := Roll(env, w, limits, snap);
            && !r.ok && forall k | k in w.running :: k in r.world.running && r.world.running[k] == w.running[k]
  {
    hide Faithful, FreshNames, RunningOf, ReconcileOld, StartLabels, MissingNew, ReconcileNew;
    var missing := MissingNew(w, limits, snap.newRev);
    FirstHalfStarts(env, w, limits, snap);
    StartsOkExactly(env, w, snap.newRev.name, StartLabels(limits.mode, snap.newRev), missing);
    StartAppsExtends(env, w, limits.mode, snap.nodes, snap.newRev, missing);
    ExtendsRuns(w, StartApps(env, w, limits.mode, snap.nodes, snap.newRev, missing).world,
                StartLabels(limits.mode, snap.newRev), Max(missing, 0));
  }

  lemma ExtendsRuns(w: World, w': World, labels: Labels, most: int)
    requires Extends(w, w', labels, most)
    ensures forall k | k in w.running :: k in w'.running && w'.running[k] == w.running[k]
  {}

  /** If the starts succeed, the step goes on with the old revisions. */
  lemma StartsThenStops(env: Env, w: World, limits: Limits, snap: Snapshot)
    requires Faithful(w, snap) && |RunningOf(w, snap.newRev)| <= limits.appCount
    requires !StartsFail(env, w, limits, snap)
    ensures var missing := MissingNew(w, limits, snap.newRev);
            var w1 := StartN(env, w, snap.newRev.name, StartLabels(limits.mode, snap.newRev), missing);
            Roll(env, w, limits, snap) == ReconcileOld(env, w1, limits, snap)
  {
    hide Faithful, RunningOf, ReconcileOld, StartLabels, MissingNew, ReconcileNew;
    var missing := MissingNew(w, limits, snap.newRev);
    var labels := StartLabels(limits.mode, snap.newRev);
    FirstHalfStarts(env, w, limits, snap);
    StartsOkExactly(env, w, snap.newRev.name, labels, missing);
    DoublingStartsAreExact(env, w, snap.newRev.name, labels, missing);
    BatchesAreStarts(env, snap.newRev.name, labels, missing, 1, Started(w, 0, true, 0, 0));
    StartNone(env, w, snap.newRev.name, labels);
  }

  /** A new revision with too many apps: if a stop of one of the surplus apps fails in the docker
      mode, the step reports an error and no old app has been stopped. */
  lemma FailedTrimEndsStep(env: Env, w: World, limits: Limits, snap: Snapshot)
    requires Faithful(w, snap) && 0 <= limits.appCount < |RunningOf(w, snap.newRev)|
    requires limits.mode.DirectDocker? && !AllOk(env, w.tick, |RunningOf(w, snap.newRev)| - limits.appCount)
    ensures var r := Roll(env, w, limits, snap);
            !r.ok && w.running.Keys - RunningOf(w, snap.newRev) <= r.world.running.Keys
  {
    hide Faithful, RunningOf, ReconcileOld, StopApps, ReconcileNew;
    var size := |RunningOf(w, snap.newRev)|;
    var newApps := Matching(snap.newRev.selector, snap.total);
    FaithfulCounts(w, snap);
    ScalesDownTo(env, w, limits, snap, size);
    NewAppsAreRunning(w, snap);
    StopVerdict(env, w, limits.mode, snap.nodes, size - limits.appCount, newApps);
    StopAppsLoses(env, w, limits.mode, snap.nodes, size - limits.appCount, newApps);
    TailNames(newApps, size - limits.appCount, size - limits.appCount);
  }

  lemma NewAppsAreRunning(w: World, snap: Snapshot)
    requires Faithful(w, snap)
    ensures |Matching(snap.newRev.selector, snap.total)| == |RunningOf(w, snap.newRev)|
    ensures Names(Matching(snap.newRev.selector, snap.total)) == RunningOf(w, snap.newRev)
  {
    hide DistinctRevisions, AllCarried, ActiveCounts, ActiveRevisions, MatchLabels, Matching;
    MatchingIsRunning(w, snap.total, snap.newRev);
    MatchingSelects(snap.newRev.selector, snap.total);
    forall k | k in RunningOf(w, snap.newRev) ensures k in Names(Matching(snap.newRev.selector, snap.total)) {
      assert k in Names(snap.total);
    }
  }

  /** When no call fails, a new revision with too many apps is trimmed to exactly its size. */
  lemma TrimsToTarget(env: Env, w: World, limits: Limits, snap: Snapshot)
    requires Faithful(w, snap) && FreshNames(w) && NeverFails(env)
    requires limits.mode.DirectDocker? || (limits.mode.DirectStar? && snap.nodes != [])
    requires 0 <= limits.appCount < |RunningOf(w, snap.newRev)|
    ensures |RunningOf(ReconcileNew(env, w, limits, snap).world, snap.newRev)| == limits.appCount
    ensures ReconcileNew(env, w, limits, snap).ok
    ensures w.running.Keys - RunningOf(w, snap.newRev) <= ReconcileNew(env, w, limits, snap).world.running.Keys
  {
    hide Faithful, StopApps, NeverFails, Tail, FreshNames, MatchLabels, RunningOf;
    var size := |RunningOf(w, snap.newRev)|;
    var newApps := Matching(snap.newRev.selector, snap.total);
    FaithfulCounts(w, snap);
    ScalesDownTo(env, w, limits, snap, size);
    NewAppsAreRunning(w, snap);
    StopAppsRemoves(env, w, limits.mode, snap.nodes, size - limits.appCount, newApps);
    StopAppsSucceeds(env, w, limits.mode, snap.nodes, size - limits.appCount, newApps);
    StopAppsLoses(env, w, limits.mode, snap.nodes, size - limits.appCount, newApps);
    TailNames(newApps, size - limits.appCount, size - limits.appCount);
    TailCount(w, snap, size - limits.appCount);
    LostNew(w, ReconcileNew(env, w, limits, snap).world, Names(Tail(newApps, size - limits.appCount)), snap.newRev);
  }

  lemma TailCount(w: World, snap: Snapshot, n: nat)
    requires Faithful(w, snap) && n <= |Matching(snap.newRev.selector, snap.total)|
    ensures |Names(Tail(Matching(snap.newRev.selector, snap.total), n))| == n
  {
    hide DistinctRevisions, AllCarried, ActiveCounts, ActiveRevisions, MatchLabels, Matching;
    var apps := Matching(snap.newRev.selector, snap.total);
    MatchingKeepsDistinct(snap.newRev.selector, snap.total);
    NamesBound(Tail(apps, n));
  }

  lemma LostNew(w: World, w': World, lost: set<ContainerName>, rev: Revision)
    requires lost <= RunningOf(w, rev) && w'.running.Keys == w.running.Keys - lost && Loses(w, w', lost)
    ensures |RunningOf(w', rev)| == |RunningOf(w, rev)| - |lost|
  {
    assert RunningOf(w', rev) == RunningOf(w, rev) - lost;
    assert RunningOf(w, rev) == RunningOf(w', rev) + lost;
  }

  // ---------- the second half as a plan ----------

  /** One stop of the last `count` apps of a list. */
  datatype Stop = Stop(count: nat, apps: seq<App>)

  /** The stops one after the other, until one reports an error. */
  function RunStops(env: Env, w: World, mode: Mode, nodes: seq<string>, stops: seq<Stop>): Result
    decreases |stops|
  {
    if stops == [] then Result(w, true)
    else
      var r := StopApps(env, w, mode, nodes, stops[0].count, stops[0].apps);
      if r.ok then RunStops(env, r.world, mode, nodes, stops[1..]) else r
  }

  /** How many available apps the step may stop. */
  function OldBudget(limits: Limits, snap: Snapshot): int {
    |snap.available| - (limits.appCount - limits.maxUnavailable)
  }

  /** The share of the old revision at index `k`: all its apps, as far as the earlier old
      revisions' apps leave something of the budget. */
  function Share(limits: Limits, snap: Snapshot, k: nat): nat
    requires k < |snap.oldRevs|
  {
    var left := OldBudget(limits, snap) - SumCounts(snap.counts, snap.oldRevs[..k]);
    Max(0, Min(CountOf(snap.counts, snap.oldRevs[k].name), left))
  }

  function SharesFrom(limits: Limits, snap: Snapshot, k: nat): seq<Stop>
    requires k <= |snap.oldRevs|
    decreases |snap.oldRevs| - k
  {
    if k == |snap.oldRevs| then []
    else
      (if Share(limits, snap, k) > 0 then [Stop(Share(limits, snap, k), AppsOf(snap.oldRevs, snap.total))] else [])
      + SharesFrom(limits, snap, k + 1)
  }

  /** The unavailable old apps first, then every old revision's share, all of them stopped on
      the one list of all old apps. */
  function Plan(limits: Limits, snap: Snapshot): seq<Stop>
    requires MaxScaledDown(limits, snap) > 0
  {
    [Stop(MaxScaledDown(limits, snap), OldUnavailable(snap.newRev, snap.total, snap.available))]
    + SharesFrom(limits, snap, 0)
  }

  ghost predicate CountsAreNatural(snap: Snapshot) {
    forall k | 0 <= k < |snap.oldRevs| :: CountOf(snap.counts, snap.oldRevs[k].name) >= 0
  }

  lemma SumOfNext(snap: Snapshot, k: nat)
    requires k < |snap.oldRevs|
    ensures SumCounts(snap.counts, snap.oldRevs[..k + 1])
         == SumCounts(snap.counts, snap.oldRevs[..k]) + CountOf(snap.counts, snap.oldRevs[k].name)
  {
    assert snap.oldRevs[..k + 1][..k] == snap.oldRevs[..k];
  }

  /** Once the budget is spent there are no more shares. */
  lemma {:induction false} NothingLeft(limits: Limits, snap: Snapshot, k: nat)
    requires CountsAreNatural(snap) && k <= |snap.oldRevs|
    requires SumCounts(snap.counts, snap.oldRevs[..k]) >= OldBudget(limits, snap)
    ensures SharesFrom(limits, snap, k) == []
    decreases |snap.oldRevs| - k
  {
    hide CountOf, SumCounts, OldBudget;
    if k < |snap.oldRevs| {
      SumOfNext(snap, k);
      NothingLeft(limits, snap, k + 1);
    }
  }

  /** The loop over the old revisions follows the plan: its running total is what the earlier
      revisions' apps have used up of the budget. */
  lemma {:induction false} LoopFollowsPlan(env: Env, w: World, limits: Limits, snap: Snapshot, i: nat, scaled: int)
    requires CountsAreNatural(snap) && i <= |snap.oldRevs|
    requires OldBudget(limits, snap) > 0
    requires scaled == Min(SumCounts(snap.counts, snap.oldRevs[..i]), OldBudget(limits, snap))
    ensures ScaleOldFrom(env, w, limits, snap, AppsOf(snap.oldRevs, snap.total), i, scaled)
         == RunStops(env, w, limits.mode, snap.nodes, SharesFrom(limits, snap, i))
    decreases |snap.oldRevs| - i
  {
    hide StopApps, CountOf, SumCounts, AppsOf, ScaleRevision;
    if i < |snap.oldRevs| && scaled >= OldBudget(limits, snap) {
      NothingLeft(limits, snap, i);
    } else if i < |snap.oldRevs| {
      SumOfNext(snap, i);
      var size := CountOf(snap.counts, snap.oldRevs[i].name);
      var down := Share(limits, snap, i);
      if size == 0 {
        LoopFollowsPlan(env, w, limits, snap, i + 1, scaled);
        assert SharesFrom(limits, snap, i) == SharesFrom(limits, snap, i + 1);
      } else {
        var apps := AppsOf(snap.oldRevs, snap.total);
        var r := StopApps(env, w, limits.mode, snap.nodes, down, apps);
        LoopFollowsPlan(env, r.world, limits, snap, i + 1, scaled + down);
        var stops := SharesFrom(limits, snap, i);
        assert stops == [Stop(down, apps)] + SharesFrom(limits, snap, i + 1);
        assert stops[0] == Stop(down, apps) && stops[1..] == SharesFrom(limits, snap, i + 1);
        OneScaleDown(env, w, limits, snap, i, down);
        assert RunStops(env, w, limits.mode, snap.nodes, stops)
            == if r.ok then RunStops(env, r.world, limits.mode, snap.nodes, stops[1..]) else r;
        LoopStep(env, w, limits, snap, i, scaled);
      }
    }
  }

  lemma OneScaleDown(env: Env, w: World, limits: Limits, snap: Snapshot, i: nat, down: nat)
    requires i < |snap.oldRevs| && 0 < down
    ensures ScaleRevision(env, w, limits.mode, snap.nodes, snap.oldRevs[i], snap.counts,
                          CountOf(snap.counts, snap.oldRevs[i].name) - down, AppsOf(snap.oldRevs, snap.total))
         == StopApps(env, w, limits.mode, snap.nodes, down, AppsOf(snap.oldRevs, snap.total))
  {
    hide StopApps, CountOf, AppsOf;
  }

  /** One round of the loop, when there is something left and the revision has apps. */
  lemma LoopStep(env: Env, w: World, limits: Limits, snap: Snapshot, i: nat, scaled: int)
    requires i < |snap.oldRevs| && CountOf(snap.counts, snap.oldRevs[i].name) > 0 && scaled < OldBudget(limits, snap)
    ensures var apps := AppsOf(snap.oldRevs, snap.total);
            var down := Min(CountOf(snap.counts, snap.oldRevs[i].name), OldBudget(limits, snap) - scaled);
            var r := StopApps(env, w, limits.mode, snap.nodes, down, apps);
            ScaleOldFrom(env, w, limits, snap, apps, i, scaled)
            == if r.ok then ScaleOldFrom(env, r.world, limits, snap, apps, i + 1, scaled + down) else r
  {
    hide StopApps, CountOf, AppsOf, ScaleRevision;
    OneScaleDown(env, w, limits, snap, i,
                 Min(CountOf(snap.counts, snap.oldRevs[i].name), OldBudget(limits, snap) - scaled));
  }

  /** The old revisions' half of a step, for every environment: with nothing to spend it does
      nothing, and otherwise it carries out the plan until a stop reports an error. */
  lemma PlanIsFollowed(env: Env, w: World, limits: Limits, snap: Snapshot)
    requires CountsAreNatural(snap)
    ensures ReconcileOld(env, w, limits, snap)
         == if MaxScaledDown(limits, snap) <= 0 then Result(w, true)
            else RunStops(env, w, limits.mode, snap.nodes, Plan(limits, snap))
  {
    hide StopApps, CountOf, AppsOf, OldUnavailable, MaxScaledDown, Share;
    if MaxScaledDown(limits, snap) > 0 {
      var first := Plan(limits, snap)[0];
      var r := StopApps(env, w, limits.mode, snap.nodes, first.count, first.apps);
      assert Plan(limits, snap)[1..] == SharesFrom(limits, snap, 0);
      if r.ok {
        assert snap.oldRevs[..0] == [];
        if OldBudget(limits, snap) > 0 {
          LoopFollowsPlan(env, r.world, limits, snap, 0, 0);
        } else {
          NothingLeft(limits, snap, 0);
        }
      }
    }
  }

  // ---------- a failed clean-up ends the step ----------

  /** In the docker mode, if stopping one of the unavailable old apps fails, the step reports an
      error and every available app still runs. */
  lemma FailedCleanupEndsStep(env: Env, w: World, limits: Limits, snap: Snapshot)
    requires Faithful(w, snap) && FreshNames(w) && |RunningOf(w, snap.newRev)| <= limits.appCount
    requires limits.mode.DirectDocker? && !StartsFail(env, w, limits, snap) && MaxScaledDown(limits, snap) > 0
    requires var calls := Min(MaxScaledDown(limits, snap), |OldUnavailable(snap.newRev, snap.total, snap.available)|);
             !AllOk(env, w.tick + MissingNew(w, limits, snap.newRev), calls)
    ensures var r := Roll(env, w, limits, snap);
            !r.ok && Names(snap.available) <= r.world.running.Keys
  {
    hide Faithful, FreshNames, RunningOf, StartLabels, MissingNew, MaxScaledDown, OldUnavailable, StopApps,
         ScaleOldFrom, StartsFail, ReconcileNew, StartN;
    var missing := MissingNew(w, limits, snap.newRev);
    var labels := StartLabels(limits.mode, snap.newRev);
    var w1 := StartN(env, w, snap.newRev.name, labels, missing);
    var spares := OldUnavailable(snap.newRev, snap.total, snap.available);
    StartsThenStops(env, w, limits, snap);
    StartNExtends(env, w, snap.newRev.name, labels, missing);
    ExtendsKeeps(w, w1, labels, missing);
    StopVerdict(env, w1, limits.mode, snap.nodes, MaxScaledDown(limits, snap), spares);
    StopAppsLoses(env, w1, limits.mode, snap.nodes, MaxScaledDown(limits, snap), spares);
    TailNames(spares, MaxScaledDown(limits, snap), MaxScaledDown(limits, snap));
    OldUnavailableSelects(snap.newRev, snap.total, snap.available);
    AvailableAreRunning(w, snap);
  }
}
