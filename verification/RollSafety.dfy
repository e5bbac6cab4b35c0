/** Safety of a rolling step, for every failure pattern, every mode and every list order:
    the surge ceiling and the availability floor, for one step and along whole runs. */
module RollSafety {
  import opened Domain
  import opened Runtime
  import opened RollSpec
  import opened Snapshots

  // ---------- what a snapshot says about the containers ----------

  function AllRevisions(snap: Snapshot): seq<Revision> {
    snap.oldRevs + [snap.newRev]
  }

  ghost predicate ListsRunning(w: World, total: seq<App>) {
    && DistinctNames(total)
    && Names(total) == w.running.Keys
    && (forall a | a in total :: w.running[a.name] == a.labels)
  }

  /** The snapshot lists exactly the running containers, each started by one of the
      revisions, and the counts were derived from it. */
  ghost predicate Faithful(w: World, snap: Snapshot) {
    && DistinctRevisions(AllRevisions(snap))
    && ListsRunning(w, snap.total)
    && AllCarried(AllRevisions(snap), snap.total)
    && snap.counts == ActiveCounts(AllRevisions(snap), snap.total)
    && multiset(snap.active) == multiset(ActiveRevisions(AllRevisions(snap), snap.total))
    && DistinctNames(snap.available)
    && (forall a | a in snap.available :: a in snap.total)
  }

  /** The running containers of a revision. */
  function RunningOf(w: World, rev: Revision): set<ContainerName> {
    set k | k in w.running && MatchLabels(rev.selector, w.running[k])
  }

  lemma {:induction false} MatchingSelects(selector: Labels, apps: seq<App>)
    ensures forall a :: a in Matching(selector, apps) <==> a in apps && MatchLabels(selector, a.labels)
    ensures |Matching(selector, apps)| <= |apps|
  {
    hide MatchLabels;
    if apps != [] {
      MatchingSelects(selector, apps[..|apps| - 1]);
      assert apps == apps[..|apps| - 1] + [apps[|apps| - 1]];
    }
  }

  lemma {:induction false} MatchingKeepsDistinct(selector: Labels, apps: seq<App>)
    requires DistinctNames(apps)
    ensures DistinctNames(Matching(selector, apps))
  {
    hide MatchLabels;
    if apps != [] {
      var front, last := apps[..|apps| - 1], apps[|apps| - 1];
      MatchingKeepsDistinct(selector, front);
      MatchingSelects(selector, front);
      forall a | a in front ensures a.name != last.name {
        var i :| 0 <= i < |front| && front[i] == a;
        assert apps[i] == a;
      }
    }
  }

  lemma MatchingIsRunning(w: World, total: seq<App>, rev: Revision)
    requires ListsRunning(w, total)
    ensures |RunningOf(w, rev)| == |Matching(rev.selector, total)|
  {
    hide MatchLabels;
    var m := Matching(rev.selector, total);
    MatchingSelects(rev.selector, total);
    MatchingKeepsDistinct(rev.selector, total);
    NamesBound(m);
    assert RunningOf(w, rev) == Names(m);
  }

  /** In a faithful snapshot the counts are those of the running containers, and the old
      and new ones add up to all of them. */
  lemma FaithfulCounts(w: World, snap: Snapshot)
    requires Faithful(w, snap)
    ensures CountOf(snap.counts, snap.newRev.name) == |RunningOf(w, snap.newRev)| <= |w.running|
    ensures SumCounts(snap.counts, snap.active) == |w.running| == |snap.total|
    ensures SumCounts(snap.counts, snap.oldRevs) == |w.running| - |RunningOf(w, snap.newRev)|
  {
    hide ListsRunning, DistinctRevisions, AllCarried;
    var revs := AllRevisions(snap);
    EveryCountIsMatches(snap);
    SumOfMatches(snap.counts, revs, snap.total);
    MatchesAddUp(revs, snap.total);
    ActiveSumIsSum(snap.counts, revs, snap.total);
    SumIgnoresOrder(snap.counts, snap.active, ActiveRevisions(revs, snap.total));
    RunningSize(w, snap.total);
    MatchingIsRunning(w, snap.total, snap.newRev);
    assert revs[..|revs| - 1] == snap.oldRevs && revs[|revs| - 1] == snap.newRev;
    SubsetSize(RunningOf(w, snap.newRev), w.running.Keys);
  }

  lemma RunningSize(w: World, total: seq<App>)
    requires ListsRunning(w, total)
    ensures |w.running| == |total|
  {
    NamesBound(total);
    assert |w.running| == |w.running.Keys|;
  }

  lemma EveryCountIsMatches(snap: Snapshot)
    requires DistinctRevisions(AllRevisions(snap))
    requires snap.counts == ActiveCounts(AllRevisions(snap), snap.total)
    ensures forall r | r in AllRevisions(snap) :: CountOf(snap.counts, r.name) == |Matching(r.selector, snap.total)|
  {
    hide DistinctRevisions, ActiveCounts, CountOf;
    var revs := AllRevisions(snap);
    forall r | r in revs ensures CountOf(snap.counts, r.name) == |Matching(r.selector, snap.total)| {
      var i :| 0 <= i < |revs| && revs[i] == r;
      CountsAreMatches(revs, snap.total, i);
    }
  }

  // ---------- what each part of a step can change ----------

  lemma {:induction false} PerNodeNames(apps: seq<App>, nodes: nat)
    ensures forall a | a in PerNode(apps, nodes) :: a in apps
  {
    if apps != [] {
      var front, last := apps[..|apps| - 1], apps[|apps| - 1];
      PerNodeNames(front, nodes);
    }
  }

  lemma StopAppsLoses(env: Env, w: World, mode: Mode, nodes: seq<string>, n: nat, apps: seq<App>)
    ensures Loses(w, StopApps(env, w, mode, nodes, n, apps).world, Names(Tail(apps, n)))
  {
    hide Failures;
    var tail := Tail(apps, n);
    StopSeqLoses(env, w, tail);
    StopSeqLoses(env, w, PerNode(tail, |nodes|));
    PerNodeNames(tail, |nodes|);
  }

  lemma StartAppsExtends(env: Env, w: World, mode: Mode, nodes: seq<string>, rev: Revision, n: int)
    requires FreshNames(w)
    ensures var w' := StartApps(env, w, mode, nodes, rev, n).world;
            Extends(w, w', StartLabels(mode, rev), Max(n, 0)) && FreshNames(w')
  {
    BatchesExtend(env, rev.name, StartLabels(mode, rev), n, 1, Started(w, 0, true, 0, 0));
  }

  /** Every container a start adds carries the revision's labels, and in the docker mode its
      name as well, whatever the labels say. */
  lemma StartedCarry(env: Env, w: World, mode: Mode, nodes: seq<string>, rev: Revision, n: int, k: ContainerName)
    requires FreshNames(w)
    requires k in StartApps(env, w, mode, nodes, rev, n).world.running && k !in w.running
    ensures var labels := StartApps(env, w, mode, nodes, rev, n).world.running[k];
            && labels.Keys == rev.app.labels.Keys + (if mode.DirectDocker? then {"revision"} else {})
            && (forall l | l in labels ::
                  labels[l] == if mode.DirectDocker? && l == "revision" then rev.name else rev.app.labels[l])
  {
    hide StartApps, Extends, FreshNames;
    StartAppsExtends(env, w, mode, nodes, rev, n);
    AddedCarries(w, StartApps(env, w, mode, nodes, rev, n).world, StartLabels(mode, rev), Max(n, 0), k);
  }

  lemma AddedCarries(w: World, w': World, labels: Labels, most: int, k: ContainerName)
    requires Extends(w, w', labels, most) && k in w'.running && k !in w.running
    ensures w'.running[k] == labels
  {}

  lemma LosesFewer(w: World, w': World, names: set<ContainerName>, more: set<ContainerName>)
    requires Loses(w, w', names) && names <= more
    ensures Loses(w, w', more)
  {}

  lemma TailNames(apps: seq<App>, m: nat, n: nat)
    requires m <= n
    ensures Names(Tail(apps, m)) <= Names(Tail(apps, n)) <= Names(apps)
    ensures |Names(Tail(apps, n))| <= n
  {
    NamesBound(Tail(apps, n));
    if m < |apps| && n < |apps| {
      assert Tail(apps, m) == Tail(apps, n)[n - m..];
    }
  }

  /** However many old revisions are scaled down, together they stop nothing outside the
      tail whose length is the available apps in excess of the minimum. */
  lemma {:induction false} ScaleOldLoses(env: Env, w: World, limits: Limits, snap: Snapshot, oldApps: seq<App>,
                                         i: nat, scaled: nat)
    requires i <= |snap.oldRevs|
    ensures Loses(w, ScaleOldFrom(env, w, limits, snap, oldApps, i, scaled).world,
                  Names(Tail(oldApps, Max(|snap.available| - MinAvailable(limits), 0))))
    decreases |snap.oldRevs| - i
  {
    hide Loses, Tail, StopApps, MinAvailable;
    var budget := |snap.available| - MinAvailable(limits);
    var names := Names(Tail(oldApps, Max(budget, 0)));
    LosesNothing(w, names);
    if i < |snap.oldRevs| && scaled < budget {
      var size := CountOf(snap.counts, snap.oldRevs[i].name);
      var down := Min(size, budget - scaled);
      if size == 0 {
        ScaleOldLoses(env, w, limits, snap, oldApps, i + 1, scaled);
      } else if down >= 0 {
        var r := StopApps(env, w, limits.mode, snap.nodes, down, oldApps);
        StopAppsLoses(env, w, limits.mode, snap.nodes, down, oldApps);
        TailNames(oldApps, down, budget);
        LosesFewer(w, r.world, Names(Tail(oldApps, down)), names);
        if r.ok {
          ScaleOldLoses(env, r.world, limits, snap, oldApps, i + 1, scaled + down);
          var w2 := ScaleOldFrom(env, r.world, limits, snap, oldApps, i + 1, scaled + down).world;
          LosesComposes(w, r.world, w2, names);
        }
      }
    }
  }

  lemma LosesNothing(w: World, names: set<ContainerName>)
    ensures Loses(w, w, names)
  {}

  /** The apps the old-revision half of a step may stop. */
  function OldTargets(limits: Limits, snap: Snapshot): set<ContainerName> {
    Names(OldUnavailable(snap.newRev, snap.total, snap.available))
    + Names(Tail(AppsOf(snap.oldRevs, snap.total), Max(|snap.available| - MinAvailable(limits), 0)))
  }

  lemma ReconcileOldLoses(env: Env, w: World, limits: Limits, snap: Snapshot)
    ensures Loses(w, ReconcileOld(env, w, limits, snap).world, OldTargets(limits, snap))
  {
    hide Loses, Tail, StopApps, MinAvailable, ScaleOldFrom, OldUnavailable, AppsOf, MaxScaledDown;
    var targets := OldTargets(limits, snap);
    var most := MaxScaledDown(limits, snap);
    LosesNothing(w, targets);
    if most > 0 {
      var unavailable := OldUnavailable(snap.newRev, snap.total, snap.available);
      var oldApps := AppsOf(snap.oldRevs, snap.total);
      var r := StopApps(env, w, limits.mode, snap.nodes, most, unavailable);
      StopAppsLoses(env, w, limits.mode, snap.nodes, most, unavailable);
      TailNames(unavailable, most, most);
      LosesFewer(w, r.world, Names(Tail(unavailable, most)), targets);
      if r.ok {
        var r' := ScaleOldFrom(env, r.world, limits, snap, oldApps, 0, 0);
        ScaleOldLoses(env, r.world, limits, snap, oldApps, 0, 0);
        LosesFewer(r.world, r'.world,
                   Names(Tail(oldApps, Max(|snap.available| - MinAvailable(limits), 0))), targets);
        LosesComposes(w, r.world, r'.world, targets);
      }
    }
  }

  // ---------- the surge ceiling ----------

  /** The containers added by scaling the new revision up. */
  function ScaleUp(limits: Limits, snap: Snapshot): int {
    NewRevisionSize(limits, snap) - CountOf(snap.counts, snap.newRev.name)
  }

  lemma ReconcileNewUp(env: Env, w: World, limits: Limits, snap: Snapshot)
    requires FreshNames(w) && WellFormed(snap.newRev) && 0 <= ScaleUp(limits, snap)
    ensures var w' := ReconcileNew(env, w, limits, snap).world;
            && Extends(w, w', StartLabels(limits.mode, snap.newRev), ScaleUp(limits, snap)) && FreshNames(w')
  {
    hide Extends, StartApps, StartLabels, FreshNames;
    var up := ScaleUp(limits, snap);
    ExtendsReflexive(w, StartLabels(limits.mode, snap.newRev));
    StartAppsExtends(env, w, limits.mode, snap.nodes, snap.newRev, up);
  }

  lemma ReconcileNewDown(env: Env, w: World, limits: Limits, snap: Snapshot)
    requires ScaleUp(limits, snap) < 0
    ensures Loses(w, ReconcileNew(env, w, limits, snap).world,
                  Names(Tail(Matching(snap.newRev.selector, snap.total), -ScaleUp(limits, snap))))
  {
    hide Loses, StopApps, Tail;
    StopAppsLoses(env, w, limits.mode, snap.nodes, -ScaleUp(limits, snap), Matching(snap.newRev.selector, snap.total));
  }

  lemma ScaleUpBounds(w: World, limits: Limits, snap: Snapshot)
    requires Faithful(w, snap)
    ensures var up := ScaleUp(limits, snap);
            && up <= Max(0, limits.appCount + limits.maxSurge - |w.running|)
            && up <= Max(0, limits.appCount - |RunningOf(w, snap.newRev)|)
            && (0 <= up <==> |RunningOf(w, snap.newRev)| <= limits.appCount)
            && (up < 0 ==> up == limits.appCount - |RunningOf(w, snap.newRev)|)
            && (limits.appCount >= |RunningOf(w, snap.newRev)| ==>
                  up == Max(0, Min(limits.appCount + limits.maxSurge - |w.running|,
                                   limits.appCount - |RunningOf(w, snap.newRev)|)))
  {
    hide Faithful, RunningOf;
    FaithfulCounts(w, snap);
  }

  lemma ExtendsCounts(w: World, w': World, labels: Labels, most: nat, rev: Revision)
    requires Extends(w, w', labels, most)
    ensures |RunningOf(w, rev)| <= |RunningOf(w', rev)| <= |RunningOf(w, rev)| + most
  {
    hide MatchLabels;
    var a, b := RunningOf(w, rev), RunningOf(w', rev);
    assert a <= b && b - a <= w'.running.Keys - w.running.Keys;
    assert |w'.running.Keys| <= |w.running.Keys| + most;
    GrowthBound(a, b, w.running.Keys, w'.running.Keys, most);
  }

  lemma GrowthBound<T>(a: set<T>, b: set<T>, c: set<T>, d: set<T>, most: int)
    requires a <= b && c <= d && b - a <= d - c && |d| <= |c| + most
    ensures |a| <= |b| <= |a| + most
  {
    SubsetSize(b - a, d - c);
    assert b == a + (b - a) && d == c + (d - c);
  }

  lemma LosesCounts(w: World, w': World, names: set<ContainerName>, rev: Revision)
    requires Loses(w, w', names)
    ensures |w'.running| <= |w.running| && |RunningOf(w', rev)| <= |RunningOf(w, rev)|
  {
    hide MatchLabels;
    SubsetSize(w'.running.Keys, w.running.Keys);
    SubsetSize(RunningOf(w', rev), RunningOf(w, rev));
  }

  /** Neither the total nor the new revision is over its ceiling, or no more than before. */
  ghost predicate WithinCeilings(w: World, w': World, limits: Limits, rev: Revision) {
    && |w'.running| <= Max(|w.running|, limits.appCount + limits.maxSurge)
    && |RunningOf(w', rev)| <= Max(|RunningOf(w, rev)|, limits.appCount)
  }

  /** Surge ceiling: for every failure pattern a rolling step leaves at most
      max(total before, appCount + maxSurge) containers, and at most
      max(new before, appCount) of them of the new revision. */
  lemma SurgeCeiling(env: Env, w: World, limits: Limits, snap: Snapshot)
    requires Faithful(w, snap) && FreshNames(w)
    ensures WithinCeilings(w, Roll(env, w, limits, snap).world, limits, snap.newRev)
    ensures FreshNames(Roll(env, w, limits, snap).world)
  {
    hide Loses, Extends, RunningOf, ReconcileNew, ReconcileOld, OldTargets, FreshNames, ScaleUp, StartLabels, Faithful;
    var w1 := ReconcileNew(env, w, limits, snap).world;
    ScaleUpBounds(w, limits, snap);
    NewRevisionIsWellFormed(w, snap);
    var up := ScaleUp(limits, snap);
    if 0 <= up {
      ReconcileNewUp(env, w, limits, snap);
      ExtendsCounts(w, w1, StartLabels(limits.mode, snap.newRev), up, snap.newRev);
      ExtendsSize(w, w1, StartLabels(limits.mode, snap.newRev), up);
    } else {
      var names := Names(Tail(Matching(snap.newRev.selector, snap.total), -up));
      ReconcileNewDown(env, w, limits, snap);
      LosesCounts(w, w1, names, snap.newRev);
      LosesKeepsNamesFresh(w, w1, names);
    }
    ReconcileOldLoses(env, w1, limits, snap);
    LosesCounts(w1, ReconcileOld(env, w1, limits, snap).world, OldTargets(limits, snap), snap.newRev);
    LosesKeepsNamesFresh(w1, ReconcileOld(env, w1, limits, snap).world, OldTargets(limits, snap));
  }

  /** Every container kept its labels or carries `labels`. */
  ghost predicate OnlyAdds(w: World, w': World, labels: Labels) {
    forall k | k in w'.running :: (k in w.running && w'.running[k] == w.running[k]) || w'.running[k] == labels
  }

  /** Whatever the snapshot says, a step starts only containers of its new revision. */
  lemma RollOnlyAdds(env: Env, w: World, limits: Limits, snap: Snapshot)
    requires FreshNames(w)
    ensures OnlyAdds(w, Roll(env, w, limits, snap).world, StartLabels(limits.mode, snap.newRev))
    ensures FreshNames(Roll(env, w, limits, snap).world)
  {
    hide FreshNames, ReconcileNew, ReconcileOld, ScaleUp, StartLabels, OldTargets;
    var w1 := ReconcileNew(env, w, limits, snap).world;
    if 0 <= ScaleUp(limits, snap) {
      ScaleUpOnlyAdds(env, w, limits, snap);
    } else {
      ReconcileNewDown(env, w, limits, snap);
      LosesKeepsNamesFresh(w, w1, Names(Tail(Matching(snap.newRev.selector, snap.total), -ScaleUp(limits, snap))));
    }
    ReconcileOldLoses(env, w1, limits, snap);
    LosesKeepsNamesFresh(w1, ReconcileOld(env, w1, limits, snap).world, OldTargets(limits, snap));
  }

  lemma ScaleUpOnlyAdds(env: Env, w: World, limits: Limits, snap: Snapshot)
    requires FreshNames(w) && 0 <= ScaleUp(limits, snap)
    ensures var w1 := ReconcileNew(env, w, limits, snap).world;
            OnlyAdds(w, w1, StartLabels(limits.mode, snap.newRev)) && FreshNames(w1)
  {
    hide FreshNames, StartLabels;
    ExtendsReflexive(w, StartLabels(limits.mode, snap.newRev));
    StartAppsExtends(env, w, limits.mode, snap.nodes, snap.newRev, ScaleUp(limits, snap));
  }

  lemma ExtendsSize(w: World, w': World, labels: Labels, most: int)
    requires Extends(w, w', labels, most)
    ensures |w.running| <= |w'.running| <= |w.running| + most
  {
    SubsetSize(w.running.Keys, w'.running.Keys);
  }

  lemma NewRevisionIsWellFormed(w: World, snap: Snapshot)
    requires Faithful(w, snap)
    ensures WellFormed(snap.newRev)
  {
    assert AllRevisions(snap)[|snap.oldRevs|] == snap.newRev;
  }
}
