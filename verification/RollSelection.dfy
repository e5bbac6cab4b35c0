/** Which old apps a rolling step stops, told from the running and the available containers. */
module RollSelection {
  import opened Domain
  import opened Runtime
  import opened RollSpec
  import opened Snapshots
  import opened RollSafety
  import opened RollFloor
  import opened RollConvergence
  import opened RollOrder

  // ---------- the lists keep the order of what they are selected from ----------

  lemma {:induction false} MatchingSplits(selector: Labels, a: seq<App>, b: seq<App>)
    ensures Matching(selector, a + b) == Matching(selector, a) + Matching(selector, b)
  {
    hide MatchLabels;
    if b == [] {
      assert a + b == a;
    } else {
      MatchingSplits(selector, a, b[..|b| - 1]);
      assert (a + b)[..|a + b| - 1] == a + b[..|b| - 1];
    }
  }

  /** The old revisions' apps come revision after revision. */
  lemma {:induction false} AppsOfSplits(a: seq<Revision>, b: seq<Revision>, apps: seq<App>)
    ensures AppsOf(a + b, apps) == AppsOf(a, apps) + AppsOf(b, apps)
    ensures |a| == 1 ==> AppsOf(a, apps) == Matching(a[0].selector, apps)
  {
    if |a| == 1 {
      assert a[..0] == [];
    }
    if b == [] {
      assert a + b == a;
    } else {
      AppsOfSplits(a, b[..|b| - 1], apps);
      assert (a + b)[..|a + b| - 1] == a + b[..|b| - 1];
    }
  }

  // ---------- unavailable old apps ----------

  /** The app at this index is neither available nor one of the new revision's. */
  predicate IsSpare(newRev: Revision, total: seq<App>, available: seq<App>, i: int) {
    && 0 <= i < |total| && total[i].name !in Names(available)
    && !MatchLabels(newRev.selector, total[i].labels)
  }

  function Behind(newRev: Revision, total: seq<App>, available: seq<App>, i: int): set<int> {
    set j | i < j < |total| && IsSpare(newRev, total, available, j)
  }

  /** The last `m` such apps of the list. */
  function LastSpares(newRev: Revision, total: seq<App>, available: seq<App>, m: int): set<ContainerName> {
    set i | 0 <= i < |total| && IsSpare(newRev, total, available, i) && |Behind(newRev, total, available, i)| < m ::
      total[i].name
  }

  lemma SpareBefore(newRev: Revision, total: seq<App>, available: seq<App>, i: int)
    requires 0 <= i < |total| - 1
    ensures IsSpare(newRev, total[..|total| - 1], available, i) <==> IsSpare(newRev, total, available, i)
    ensures |Behind(newRev, total, available, i)|
         == |Behind(newRev, total[..|total| - 1], available, i)|
            + if IsSpare(newRev, total, available, |total| - 1) then 1 else 0
  {
    hide MatchLabels, Names;
    var front, n := total[..|total| - 1], |total| - 1;
    var before, behind := Behind(newRev, front, available, i), Behind(newRev, total, available, i);
    forall j | i < j < n ensures IsSpare(newRev, front, available, j) <==> IsSpare(newRev, total, available, j) {}
    assert behind == before + if IsSpare(newRev, total, available, n) then {n} else {};
  }

  lemma NoneBehindLast(newRev: Revision, total: seq<App>, available: seq<App>)
    requires total != []
    ensures Behind(newRev, total, available, |total| - 1) == {}
  {}

  lemma LastSparesNext(newRev: Revision, total: seq<App>, available: seq<App>, m: int)
    requires total != []
    ensures var front, last := total[..|total| - 1], total[|total| - 1];
            LastSpares(newRev, total, available, m)
            == if !IsSpare(newRev, total, available, |total| - 1) then LastSpares(newRev, front, available, m)
               else if m <= 0 then {}
               else LastSpares(newRev, front, available, m - 1) + {last.name}
  {
    hide IsSpare, Behind;
    var front, n := total[..|total| - 1], |total| - 1;
    NoneBehindLast(newRev, total, available);
    forall i | 0 <= i < n
      ensures IsSpare(newRev, front, available, i) <==> IsSpare(newRev, total, available, i)
      ensures |Behind(newRev, total, available, i)|
           == |Behind(newRev, front, available, i)| + if IsSpare(newRev, total, available, n) then 1 else 0
    {
      SpareBefore(newRev, total, available, i);
    }
  }

  /** The tail of the unavailable old apps' list holds exactly the last of them. */
  lemma {:induction false} SparesAreTail(newRev: Revision, total: seq<App>, available: seq<App>, m: nat)
    ensures Names(Tail(OldUnavailable(newRev, total, available), m)) == LastSpares(newRev, total, available, m)
  {
    hide LastSpares, IsSpare, OldUnavailable, Tail, Names;
    OldUnavailableNext(newRev, total, available);
    if total == [] {
      NoSpares(newRev, available, m);
    } else {
      var front, last := total[..|total| - 1], total[|total| - 1];
      LastSparesNext(newRev, total, available, m);
      if !IsSpare(newRev, total, available, |total| - 1) {
        SparesAreTail(newRev, front, available, m);
      } else if m > 0 {
        SparesAreTail(newRev, front, available, m - 1);
        TailOfMore(OldUnavailable(newRev, front, available), last, m);
      } else {
        NoTail(OldUnavailable(newRev, total, available));
      }
    }
  }

  lemma NoSpares(newRev: Revision, available: seq<App>, m: nat)
    ensures LastSpares(newRev, [], available, m) == Names(Tail([], m)) == {}
  {}

  lemma NoTail(apps: seq<App>)
    ensures Names(Tail(apps, 0)) == {}
  {}

  lemma OldUnavailableNext(newRev: Revision, total: seq<App>, available: seq<App>)
    ensures OldUnavailable(newRev, total, available)
         == if total == [] then []
            else if IsSpare(newRev, total, available, |total| - 1)
            then OldUnavailable(newRev, total[..|total| - 1], available) + [total[|total| - 1]]
            else OldUnavailable(newRev, total[..|total| - 1], available)
  {}

  lemma TailOfMore(apps: seq<App>, last: App, m: nat)
    requires m > 0
    ensures Names(Tail(apps + [last], m)) == Names(Tail(apps, m - 1)) + {last.name}
  {
    assert Tail(apps + [last], m) == Tail(apps, m - 1) + [last];
  }

  // ---------- how many may be stopped ----------

  /** The available containers of the new revision. */
  function NewAvailable(snap: Snapshot): set<ContainerName> {
    set a | a in snap.available && MatchLabels(snap.newRev.selector, a.labels) :: a.name
  }

  /** The running apps over the least number to be kept, less the new ones not yet available. */
  function Spendable(w: World, limits: Limits, snap: Snapshot): int {
    |w.running| - (limits.appCount - limits.maxUnavailable) - (|RunningOf(w, snap.newRev)| - |NewAvailable(snap)|)
  }

  lemma NewAvailableCount(w: World, snap: Snapshot)
    requires Faithful(w, snap)
    ensures |Matching(snap.newRev.selector, snap.available)| == |NewAvailable(snap)|
  {
    hide DistinctRevisions, AllCarried, ListsRunning, ActiveCounts, ActiveRevisions, MatchLabels;
    var matching := Matching(snap.newRev.selector, snap.available);
    MatchingSelects(snap.newRev.selector, snap.available);
    MatchingKeepsDistinct(snap.newRev.selector, snap.available);
    NamesBound(matching);
    assert Names(matching) == NewAvailable(snap);
  }

  lemma BudgetIsSpendable(w: World, limits: Limits, snap: Snapshot)
    requires Faithful(w, snap)
    ensures MaxScaledDown(limits, snap) == Spendable(w, limits, snap)
  {
    hide Faithful, RunningOf, NewAvailable, Matching;
    FaithfulCounts(w, snap);
    NewAvailableCount(w, snap);
  }

  /** When there is nothing to spend, a step stops nothing at all, whatever the environment. */
  lemma NothingToSpend(env: Env, w: World, limits: Limits, snap: Snapshot)
    requires Faithful(w, snap) && FreshNames(w) && |RunningOf(w, snap.newRev)| <= limits.appCount
    requires Spendable(w, limits, snap) <= 0
    ensures w.running.Keys <= Roll(env, w, limits, snap).world.running.Keys
  {
    hide Faithful, Extends, FreshNames, ReconcileNew, RunningOf, ScaleUp, StartLabels, Spendable, MaxScaledDown;
    ScaleUpBounds(w, limits, snap);
    NewRevisionIsWellFormed(w, snap);
    BudgetIsSpendable(w, limits, snap);
    ReconcileNewUp(env, w, limits, snap);
    ExtendsKeeps(w, ReconcileNew(env, w, limits, snap).world, StartLabels(limits.mode, snap.newRev),
                 ScaleUp(limits, snap));
  }

  // ---------- exactly which containers go ----------

  function StoppedBy(stops: seq<Stop>): set<ContainerName>
    decreases |stops|
  {
    if stops == [] then {} else Names(Tail(stops[0].apps, stops[0].count)) + StoppedBy(stops[1..])
  }

  lemma {:induction false} RunStopsRemoves(env: Env, w: World, mode: Mode, nodes: seq<string>, stops: seq<Stop>)
    requires NeverFails(env) && (mode.DirectDocker? || (mode.DirectStar? && nodes != []))
    ensures RunStops(env, w, mode, nodes, stops).ok
    ensures RunStops(env, w, mode, nodes, stops).world.running.Keys == w.running.Keys - StoppedBy(stops)
    decreases |stops|
  {
    hide StopApps, NeverFails, Tail, Names;
    if stops != [] {
      var first := stops[0];
      StopAppsSucceeds(env, w, mode, nodes, first.count, first.apps);
      StopAppsRemoves(env, w, mode, nodes, first.count, first.apps);
      RunStopsRemoves(env, StopApps(env, w, mode, nodes, first.count, first.apps).world, mode, nodes, stops[1..]);
    }
  }

  /** The largest share of the old revisions from index `k` on. */
  function MostShare(limits: Limits, snap: Snapshot, k: nat): nat
    requires k <= |snap.oldRevs|
    decreases |snap.oldRevs| - k
  {
    if k == |snap.oldRevs| then 0 else Max(Share(limits, snap, k), MostShare(limits, snap, k + 1))
  }

  lemma LargerTail(apps: seq<App>, m: nat, n: nat)
    ensures Names(Tail(apps, m)) + Names(Tail(apps, n)) == Names(Tail(apps, Max(m, n)))
    ensures Names(Tail(apps, 0)) == {}
  {
    TailNames(apps, Min(m, n), Max(m, n));
  }

  /** All shares are stopped on one list, so together they stop no more than the largest. */
  lemma {:induction false} SharesOverlap(limits: Limits, snap: Snapshot, k: nat)
    requires k <= |snap.oldRevs|
    ensures StoppedBy(SharesFrom(limits, snap, k))
         == Names(Tail(AppsOf(snap.oldRevs, snap.total), MostShare(limits, snap, k)))
    decreases |snap.oldRevs| - k
  {
    hide Tail, Names, Share, AppsOf;
    var apps := AppsOf(snap.oldRevs, snap.total);
    if k == |snap.oldRevs| {
      LargerTail(apps, 0, 0);
    } else {
      SharesOverlap(limits, snap, k + 1);
      LargerTail(apps, Share(limits, snap, k), MostShare(limits, snap, k + 1));
      var stops := SharesFrom(limits, snap, k);
      if Share(limits, snap, k) > 0 {
        assert stops[0] == Stop(Share(limits, snap, k), apps) && stops[1..] == SharesFrom(limits, snap, k + 1);
      } else {
        assert stops == SharesFrom(limits, snap, k + 1);
      }
    }
  }

  /** On a faithful snapshot the recorded counts are those of the running containers. */
  lemma CountsOfRunning(w: World, snap: Snapshot)
    requires Faithful(w, snap)
    ensures CountsAreNatural(snap)
    ensures forall r | r in snap.oldRevs :: CountOf(snap.counts, r.name) == |RunningOf(w, r)|
  {
    hide DistinctRevisions, AllCarried, ListsRunning, ActiveRevisions, MatchLabels, RunningOf, ActiveCounts, CountOf;
    EveryCountIsMatches(snap);
    forall r | r in snap.oldRevs ensures CountOf(snap.counts, r.name) == |RunningOf(w, r)| {
      assert r in AllRevisions(snap);
      MatchingIsRunning(w, snap.total, r);
    }
    forall k | 0 <= k < |snap.oldRevs| ensures CountOf(snap.counts, snap.oldRevs[k].name) >= 0 {
      assert snap.oldRevs[k] in snap.oldRevs;
    }
  }

  /** Exactly which containers a step stops when no call fails and there is something to spend:
      the last unavailable old apps, as many as there is to spend, and of all old apps, revision
      after revision, the last ones, as many as the largest share of an old revision. */
  lemma StoppedExactly(env: Env, w: World, limits: Limits, snap: Snapshot)
    requires Faithful(w, snap) && FreshNames(w) && |RunningOf(w, snap.newRev)| <= limits.appCount
    requires NeverFails(env) && (limits.mode.DirectDocker? || (limits.mode.DirectStar? && snap.nodes != []))
    requires Spendable(w, limits, snap) > 0
    ensures Roll(env, w, limits, snap).ok
    ensures w.running.Keys - Roll(env, w, limits, snap).world.running.Keys
         == LastSpares(snap.newRev, snap.total, snap.available, Spendable(w, limits, snap))
            + Names(Tail(AppsOf(snap.oldRevs, snap.total), MostShare(limits, snap, 0)))
  {
    hide Faithful, FreshNames, RunningOf, StartLabels, MissingNew, MaxScaledDown, ReconcileOld, Roll, Extends,
         ReconcileNew, StartN, Spendable, LastSpares, AppsOf, Tail, MostShare, NeverFails, CountsAreNatural, Names;
    var missing := MissingNew(w, limits, snap.newRev);
    var labels := StartLabels(limits.mode, snap.newRev);
    var w1 := StartN(env, w, snap.newRev.name, labels, missing);
    NothingFails(env, w, limits, snap);
    StartsThenStops(env, w, limits, snap);
    StartNExtends(env, w, snap.newRev.name, labels, missing);
    ExtendsKeeps(w, w1, labels, missing);
    CountsOfRunning(w, snap);
    BudgetIsSpendable(w, limits, snap);
    PlanStops(env, w1, limits, snap);
    SparesAreRunning(w, snap, Spendable(w, limits, snap));
    OldAppsAreNotNew(w, snap);
    TailNames(AppsOf(snap.oldRevs, snap.total), MostShare(limits, snap, 0), MostShare(limits, snap, 0));
    GoneFrom(w.running.Keys, w1.running.Keys,
             LastSpares(snap.newRev, snap.total, snap.available, Spendable(w, limits, snap)),
             Names(Tail(AppsOf(snap.oldRevs, snap.total), MostShare(limits, snap, 0))));
  }

  lemma GoneFrom<T>(before: set<T>, between: set<T>, a: set<T>, b: set<T>)
    requires before <= between && a <= before && b <= before
    ensures before - (between - (a + b)) == a + b
  {}

  /** What the plan removes when no call fails. */
  lemma PlanStops(env: Env, w: World, limits: Limits, snap: Snapshot)
    requires NeverFails(env) && (limits.mode.DirectDocker? || (limits.mode.DirectStar? && snap.nodes != []))
    requires CountsAreNatural(snap) && MaxScaledDown(limits, snap) > 0
    ensures ReconcileOld(env, w, limits, snap).ok
    ensures ReconcileOld(env, w, limits, snap).world.running.Keys
         == w.running.Keys - (LastSpares(snap.newRev, snap.total, snap.available, MaxScaledDown(limits, snap))
                              + Names(Tail(AppsOf(snap.oldRevs, snap.total), MostShare(limits, snap, 0))))
  {
    hide MaxScaledDown, OldUnavailable, ReconcileOld, LastSpares, AppsOf, Tail, SharesFrom, MostShare, NeverFails,
         RunStops, CountsAreNatural, Names;
    var stops := Plan(limits, snap);
    PlanIsFollowed(env, w, limits, snap);
    RunStopsRemoves(env, w, limits.mode, snap.nodes, stops);
    assert stops[1..] == SharesFrom(limits, snap, 0);
    SharesOverlap(limits, snap, 0);
    SparesAreTail(snap.newRev, snap.total, snap.available, MaxScaledDown(limits, snap));
  }

  lemma NothingFails(env: Env, w: World, limits: Limits, snap: Snapshot)
    requires NeverFails(env) && (limits.mode.DirectDocker? || (limits.mode.DirectStar? && snap.nodes != []))
    ensures !StartsFail(env, w, limits, snap)
  {}

  lemma SparesAreRunning(w: World, snap: Snapshot, m: int)
    requires Faithful(w, snap)
    ensures LastSpares(snap.newRev, snap.total, snap.available, m) <= w.running.Keys
  {
    hide DistinctRevisions, AllCarried, ActiveCounts, ActiveRevisions, IsSpare, Behind;
    assert forall i | 0 <= i < |snap.total| :: snap.total[i].name in Names(snap.total) by {
      assert forall i | 0 <= i < |snap.total| :: snap.total[i] in snap.total;
    }
  }

  /** When no available app may go, a step stops exactly the last unavailable old apps, as many
      as there is to spend. */
  lemma OnlySparesGo(env: Env, w: World, limits: Limits, snap: Snapshot)
    requires Faithful(w, snap) && FreshNames(w) && |RunningOf(w, snap.newRev)| <= limits.appCount
    requires NeverFails(env) && (limits.mode.DirectDocker? || (limits.mode.DirectStar? && snap.nodes != []))
    requires Spendable(w, limits, snap) > 0 && |snap.available| <= limits.appCount - limits.maxUnavailable
    ensures w.running.Keys - Roll(env, w, limits, snap).world.running.Keys
         == LastSpares(snap.newRev, snap.total, snap.available, Spendable(w, limits, snap))
  {
    hide Faithful, FreshNames, RunningOf, Roll, Spendable, LastSpares, NeverFails, AppsOf;
    StoppedExactly(env, w, limits, snap);
    CountsOfRunning(w, snap);
    NoShares(limits, snap, 0);
    LargerTail(AppsOf(snap.oldRevs, snap.total), 0, 0);
  }

  lemma {:induction false} NoShares(limits: Limits, snap: Snapshot, k: nat)
    requires CountsAreNatural(snap) && k <= |snap.oldRevs| && OldBudget(limits, snap) <= 0
    ensures MostShare(limits, snap, k) == 0
    decreases |snap.oldRevs| - k
  {
    hide CountOf, SumCounts;
    if k < |snap.oldRevs| {
      NoShares(limits, snap, k + 1);
      SumIsNatural(snap, k);
    }
  }

  lemma {:induction false} SumIsNatural(snap: Snapshot, k: nat)
    requires CountsAreNatural(snap) && k <= |snap.oldRevs|
    ensures SumCounts(snap.counts, snap.oldRevs[..k]) >= 0
  {
    hide CountOf;
    if k > 0 {
      SumIsNatural(snap, k - 1);
      SumOfNext(snap, k - 1);
    }
  }

  // ---------- a failed clean-up ends the step ----------

  function Spares(newRev: Revision, total: seq<App>, available: seq<App>): set<int> {
    set i | 0 <= i < |total| && IsSpare(newRev, total, available, i)
  }

  lemma {:induction false} SpareCount(newRev: Revision, total: seq<App>, available: seq<App>)
    ensures |OldUnavailable(newRev, total, available)| == |Spares(newRev, total, available)|
  {
    hide MatchLabels, Names;
    if total != [] {
      var front, n := total[..|total| - 1], |total| - 1;
      SpareCount(newRev, front, available);
      assert forall i | 0 <= i < n :: IsSpare(newRev, front, available, i) <==> IsSpare(newRev, total, available, i);
      assert Spares(newRev, total, available)
          == Spares(newRev, front, available) + if IsSpare(newRev, total, available, n) then {n} else {};
    }
  }

  /** In the docker mode, if stopping one of the unavailable old apps that are to go fails, the
      step reports an error and every available app still runs. */
  lemma FailedSpareEndsStep(env: Env, w: World, limits: Limits, snap: Snapshot)
    requires Faithful(w, snap) && FreshNames(w) && |RunningOf(w, snap.newRev)| <= limits.appCount
    requires limits.mode.DirectDocker? && !StartsFail(env, w, limits, snap) && Spendable(w, limits, snap) > 0
    requires var calls := Min(Spendable(w, limits, snap), |Spares(snap.newRev, snap.total, snap.available)|);
             !AllOk(env, w.tick + MissingNew(w, limits, snap.newRev), calls)
    ensures var r := Roll(env, w, limits, snap);
            !r.ok && Names(snap.available) <= r.world.running.Keys
  {
    hide Faithful, FreshNames, RunningOf, MissingNew, MaxScaledDown, OldUnavailable, StartsFail, Roll, Spendable,
         Spares, AllOk;
    BudgetIsSpendable(w, limits, snap);
    SpareCount(snap.newRev, snap.total, snap.available);
    FailedCleanupEndsStep(env, w, limits, snap);
  }
}
