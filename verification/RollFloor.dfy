/** The availability floor of a rolling step, and exactly when it is guaranteed. */
module RollFloor {
  import opened Domain
  import opened Runtime
  import opened RollSpec
  import opened Snapshots
  import opened RollSafety

  /** The apps that were available in the snapshot and are still running. */
  function Survivors(w: World, snap: Snapshot): set<ContainerName> {
    Names(snap.available) * w.running.Keys
  }

  ghost predicate KeepsFloor(w': World, limits: Limits, snap: Snapshot) {
    |Survivors(w', snap)| >= Min(|snap.available|, limits.appCount - limits.maxUnavailable)
  }

  lemma {:induction false} OldUnavailableSelects(newRev: Revision, total: seq<App>, available: seq<App>)
    ensures Names(OldUnavailable(newRev, total, available)) !! Names(available)
  {
    hide MatchLabels;
    if total != [] {
      OldUnavailableSelects(newRev, total[..|total| - 1], available);
    }
  }

  lemma AvailableAreRunning(w: World, snap: Snapshot)
    requires Faithful(w, snap)
    ensures Names(snap.available) <= w.running.Keys && |Names(snap.available)| == |snap.available|
  {
    hide DistinctRevisions, AllCarried, ActiveCounts, ActiveRevisions;
    NamesBound(snap.available);
  }

  lemma SurvivorsBound(w: World, w': World, snap: Snapshot, lost: set<ContainerName>, most: nat)
    requires Names(snap.available) <= w.running.Keys && |Names(snap.available)| == |snap.available|
    requires w.running.Keys - w'.running.Keys <= lost
    requires |lost * Names(snap.available)| <= most
    ensures |Survivors(w', snap)| >= |snap.available| - most
  {
    hide Names;
    KeptAtLeast(Names(snap.available), w'.running.Keys, lost, most);
  }

  lemma KeptAtLeast<T>(a: set<T>, kept: set<T>, lost: set<T>, most: nat)
    requires a - kept <= lost && |lost * a| <= most
    ensures |a * kept| >= |a| - most
  {
    var gone := a - kept;
    SubsetSize(gone, lost * a);
    assert a == gone + a * kept;
  }

  /** Availability floor: while the new revision has no more apps than the deployment asks
      for, whatever fails and in whatever order the lists come, at least
      min(available before, appCount - maxUnavailable) of the available apps survive a step,
      although all old revisions are scaled down on one shared tail. */
  lemma AvailabilityFloor(env: Env, w: World, limits: Limits, snap: Snapshot)
    requires Faithful(w, snap) && FreshNames(w)
    requires |RunningOf(w, snap.newRev)| <= limits.appCount
    ensures KeepsFloor(Roll(env, w, limits, snap).world, limits, snap)
  {
    hide Faithful, Extends, FreshNames, ReconcileNew, ReconcileOld, RunningOf, ScaleUp, StartLabels, OldUnavailable,
         AppsOf, Tail;
    var w1 := ReconcileNew(env, w, limits, snap).world;
    var w' := Roll(env, w, limits, snap).world;
    ScaleUpBounds(w, limits, snap);
    NewRevisionIsWellFormed(w, snap);
    AvailableAreRunning(w, snap);
    ReconcileNewUp(env, w, limits, snap);
    ExtendsKeeps(w, w1, StartLabels(limits.mode, snap.newRev), ScaleUp(limits, snap));
    ReconcileOldLoses(env, w1, limits, snap);
    TargetsBound(limits, snap);
    LostNames(w, w1, w', OldTargets(limits, snap));
    SurvivorsBound(w, w', snap, OldTargets(limits, snap), Max(|snap.available| - MinAvailable(limits), 0));
  }

  lemma ExtendsKeeps(w: World, w': World, labels: Labels, most: int)
    requires Extends(w, w', labels, most)
    ensures w.running.Keys <= w'.running.Keys
  {}

  lemma LostNames(w: World, w1: World, w': World, names: set<ContainerName>)
    requires w.running.Keys <= w1.running.Keys
    requires w' == w1 || Loses(w1, w', names)
    ensures w.running.Keys - w'.running.Keys <= names
  {}

  lemma TargetsBound(limits: Limits, snap: Snapshot)
    ensures |OldTargets(limits, snap) * Names(snap.available)| <= Max(|snap.available| - MinAvailable(limits), 0)
  {
    hide OldUnavailable, AppsOf, Tail;
    var budget := Max(|snap.available| - MinAvailable(limits), 0);
    var tail := Names(Tail(AppsOf(snap.oldRevs, snap.total), budget));
    OldUnavailableSelects(snap.newRev, snap.total, snap.available);
    TailNames(AppsOf(snap.oldRevs, snap.total), budget, budget);
    SubsetSize(OldTargets(limits, snap) * Names(snap.available), tail);
  }

  // ---------- exactly when the floor is guaranteed ----------

  /** Whatever fails and whatever is running, a step keeps the floor when the new revision
      starts with `newCount` apps. */
  ghost predicate FloorGuaranteed(limits: Limits, newCount: nat) {
    forall env: Env, w: World, snap: Snapshot
      | Faithful(w, snap) && FreshNames(w) && |RunningOf(w, snap.newRev)| == newCount ::
      KeepsFloor(Roll(env, w, limits, snap).world, limits, snap)
  }

  /** The floor is guaranteed exactly when the new revision has at most appCount apps (the
      scale-down of a larger one picks the tail of the list, available or not), or when no
      app needs to be available at all. */
  lemma FloorExactlyWhen(limits: Limits, newCount: nat)
    requires limits.appCount >= 0 && !limits.mode.OtherMode?
    ensures FloorGuaranteed(limits, newCount)
       <==> newCount <= limits.appCount || limits.appCount <= limits.maxUnavailable
  {
    hide Faithful, FreshNames, RunningOf, Roll;
    if newCount <= limits.appCount {
      forall env: Env, w: World, snap: Snapshot
        | Faithful(w, snap) && FreshNames(w) && |RunningOf(w, snap.newRev)| == newCount
        ensures KeepsFloor(Roll(env, w, limits, snap).world, limits, snap)
      {
        AvailabilityFloor(env, w, limits, snap);
      }
    } else if MinAvailable(limits) > 0 {
      FloorBreaks(limits, newCount);
    }
  }

  const LABELS: Labels := map["revision" := "r"]
  const REVISION := Revision("r", "", "", 0, map[], LABELS,
                             AppSpec("", "", "", LABELS, map[], SeccompProfile("", "", []), ""))

  function SameApps(n: nat): (r: seq<App>)
    ensures |r| == n && forall i | 0 <= i < n :: r[i] == App(ContainerName("r", i), LABELS)
  {
    seq(n, i requires 0 <= i => App(ContainerName("r", i), LABELS))
  }

  function SameWorld(n: nat): World {
    World(map k | k in Names(SameApps(n)) :: LABELS, n)
  }

  /** Only the last of `n` apps of the one revision is available. */
  function LastAvailable(n: nat): Snapshot
    requires n > 0
  {
    Snapshot(REVISION, [], ActiveRevisions([REVISION], SameApps(n)), ActiveCounts([REVISION], SameApps(n)),
             SameApps(n), [SameApps(n)[n - 1]], ["node"])
  }

  lemma ExampleIsFaithful(n: nat)
    requires n > 0
    ensures Faithful(SameWorld(n), LastAvailable(n)) && FreshNames(SameWorld(n))
  {
    hide ActiveRevisions, ActiveCounts;
    var snap := LastAvailable(n);
    assert AllRevisions(snap) == [REVISION];
    assert StartedBy([REVISION], 0, LABELS);
    forall a | a in snap.total ensures Carried([REVISION], a.labels) {}
  }

  lemma {:induction false} AllMatch(selector: Labels, apps: seq<App>)
    requires forall a | a in apps :: MatchLabels(selector, a.labels)
    ensures Matching(selector, apps) == apps
  {
    hide MatchLabels;
    if apps != [] {
      AllMatch(selector, apps[..|apps| - 1]);
    }
  }

  lemma {:induction false} PerNodeReachesAll(apps: seq<App>, nodes: nat)
    requires nodes > 0
    ensures forall a | a in apps :: a in PerNode(apps, nodes)
  {
    if apps != [] {
      var front, last := apps[..|apps| - 1], apps[|apps| - 1];
      PerNodeReachesAll(front, nodes);
      assert Copies(last, nodes)[0] in PerNode(apps, nodes);
      assert apps == front + [last];
    }
  }

  /** When no call fails, a stop removes exactly the tail. */
  lemma StopAppsRemoves(env: Env, w: World, mode: Mode, nodes: seq<string>, n: nat, apps: seq<App>)
    requires NeverFails(env) && (mode.DirectDocker? || (nodes != [] && !mode.OtherMode?))
    ensures StopApps(env, w, mode, nodes, n, apps).world.running.Keys == w.running.Keys - Names(Tail(apps, n))
  {
    hide Failures, Loses, NeverFails, Tail;
    var tail := Tail(apps, n);
    StopSeqLoses(env, w, tail);
    StopSeqLoses(env, w, PerNode(tail, |nodes|));
    PerNodeNames(tail, |nodes|);
    if nodes != [] {
      PerNodeReachesAll(tail, |nodes|);
      assert Names(PerNode(tail, |nodes|)) == Names(tail);
    }
  }

  /** A new revision over its size is scaled down on its own list. */
  lemma ScalesDownTo(env: Env, w: World, limits: Limits, snap: Snapshot, size: nat)
    requires limits.appCount < size == CountOf(snap.counts, snap.newRev.name)
    ensures ReconcileNew(env, w, limits, snap)
         == StopApps(env, w, limits.mode, snap.nodes, size - limits.appCount,
                     Matching(snap.newRev.selector, snap.total))
  {
    hide StopApps, Matching, CountOf;
  }

  lemma ExampleStopsTheAvailableApp(limits: Limits, n: nat, env: Env)
    requires 0 <= limits.appCount < n && !limits.mode.OtherMode? && NeverFails(env)
    requires |RunningOf(SameWorld(n), REVISION)| == n
    ensures Survivors(Roll(env, SameWorld(n), limits, LastAvailable(n)).world, LastAvailable(n)) == {}
  {
    hide StopApps, RunningOf, ReconcileOld, ReconcileNew, Loses, NeverFails, SameWorld, Faithful, FreshNames,
         MatchLabels, ActiveCounts, ActiveRevisions, CountOf, OldTargets;
    var w, snap := SameWorld(n), LastAvailable(n);
    var last := SameApps(n)[n - 1];
    ExampleIsFaithful(n);
    FaithfulCounts(w, snap);
    ScalesDownTo(env, w, limits, snap, n);
    MatchesItself(LABELS);
    AllMatch(LABELS, SameApps(n));
    StopAppsRemoves(env, w, limits.mode, snap.nodes, n - limits.appCount, SameApps(n));
    var w1 := ReconcileNew(env, w, limits, snap).world;
    assert last in Tail(SameApps(n), n - limits.appCount);
    ReconcileOldLoses(env, w1, limits, snap);
    StaysGone(w1, ReconcileOld(env, w1, limits, snap).world, OldTargets(limits, snap), last.name);
    assert Names(snap.available) == {last.name};
  }

  lemma MatchesItself(labels: Labels)
    ensures MatchLabels(labels, labels)
  {}

  lemma StaysGone(w: World, w': World, names: set<ContainerName>, k: ContainerName)
    requires Loses(w, w', names) && k !in w.running
    ensures k !in w'.running
  {}

  lemma FloorBreaks(limits: Limits, newCount: nat)
    requires 0 <= limits.appCount < newCount && !limits.mode.OtherMode? && MinAvailable(limits) > 0
    ensures !FloorGuaranteed(limits, newCount)
  {
    hide Faithful, FreshNames, RunningOf, Roll, Survivors, SameWorld, NeverFails;
    var w, snap := SameWorld(newCount), LastAvailable(newCount);
    var env := FlawlessEnv();
    ExampleIsFaithful(newCount);
    ExampleCount(newCount);
    ExampleStopsTheAvailableApp(limits, newCount, env);
    assert !KeepsFloor(Roll(env, w, limits, snap).world, limits, snap);
  }

  function FlawlessEnv(): (env: Env)
    ensures NeverFails(env)
  {
    Env(i => Done)
  }

  lemma ExampleCount(n: nat)
    requires n > 0
    ensures |RunningOf(SameWorld(n), REVISION)| == n
  {
    hide MatchLabels, Faithful;
    ExampleIsFaithful(n);
    MatchesItself(LABELS);
    assert RunningOf(SameWorld(n), REVISION) == Names(SameApps(n));
    NamesBound(SameApps(n));
  }
}
