/** Whole runs of rolling steps that do not overlap, with a fixed spec. */
module RollRuns {
  import opened Domain
  import opened Runtime
  import opened RollSpec
  import opened Snapshots
  import opened RollSafety
  import opened RollFloor
  import opened RollConvergence

  /** One rolling step: its environment, the containers when the snapshot was taken (some
      may have crashed since the step before), and the snapshot. */
  datatype Round = Round(env: Env, seen: World, snap: Snapshot)

  ghost predicate Rolls(w: World, r: Round, w': World, limits: Limits, rev: Revision) {
    && r.snap.newRev == rev
    && Loses(w, r.seen, w.running.Keys)
    && Faithful(r.seen, r.snap)
    && w' == Roll(r.env, r.seen, limits, r.snap).world
  }

  ghost predicate Run(worlds: seq<World>, rounds: seq<Round>, limits: Limits, rev: Revision) {
    && |worlds| == |rounds| + 1
    && FreshNames(worlds[0])
    && forall i | 0 <= i < |rounds| :: Rolls(worlds[i], rounds[i], worlds[i + 1], limits, rev)
  }

  /** Both ceilings hold after every step of every run, whatever fails or crashes. */
  lemma {:induction false} SurgeAlongRuns(worlds: seq<World>, rounds: seq<Round>, limits: Limits, rev: Revision, n: nat)
    requires Run(worlds, rounds, limits, rev) && n <= |rounds|
    ensures WithinCeilings(worlds[0], worlds[n], limits, rev) && FreshNames(worlds[n])
  {
    hide Faithful, FreshNames, Loses, Roll, RunningOf;
    if n > 0 {
      var r := rounds[n - 1];
      SurgeAlongRuns(worlds, rounds, limits, rev, n - 1);
      assert Rolls(worlds[n - 1], r, worlds[n], limits, rev);
      LosesCounts(worlds[n - 1], r.seen, worlds[n - 1].running.Keys, rev);
      LosesKeepsNamesFresh(worlds[n - 1], r.seen, worlds[n - 1].running.Keys);
      SurgeCeiling(r.env, r.seen, limits, r.snap);
    }
  }

  /** A run that starts with at most appCount new apps keeps the availability floor at
      every step. */
  lemma FloorAlongRuns(worlds: seq<World>, rounds: seq<Round>, limits: Limits, rev: Revision, n: nat)
    requires Run(worlds, rounds, limits, rev) && n < |rounds|
    requires |RunningOf(worlds[0], rev)| <= limits.appCount
    ensures KeepsFloor(worlds[n + 1], limits, rounds[n].snap)
  {
    hide Faithful, FreshNames, Loses, Roll, RunningOf, KeepsFloor;
    var r := rounds[n];
    SurgeAlongRuns(worlds, rounds, limits, rev, n);
    assert Rolls(worlds[n], r, worlds[n + 1], limits, rev);
    LosesCounts(worlds[n], r.seen, worlds[n].running.Keys, rev);
    LosesKeepsNamesFresh(worlds[n], r.seen, worlds[n].running.Keys);
    AvailabilityFloor(r.env, r.seen, limits, r.snap);
  }

  /** The containers a step leaves are still all started by the snapshot's revisions, so
      the next snapshot can be faithful again. */
  lemma StillCarried(env: Env, w: World, limits: Limits, snap: Snapshot, k: ContainerName)
    requires Faithful(w, snap) && FreshNames(w) && k in Roll(env, w, limits, snap).world.running
    ensures Carried(AllRevisions(snap), Roll(env, w, limits, snap).world.running[k])
  {
    hide ReconcileNew, ReconcileOld, ScaleUp, FreshNames, StartLabels, OldTargets, DistinctRevisions;
    var w1 := ReconcileNew(env, w, limits, snap).world;
    var w' := Roll(env, w, limits, snap).world;
    NewRevisionIsWellFormed(w, snap);
    StartsItsLabels(limits.mode, snap.newRev);
    assert StartedBy(AllRevisions(snap), |snap.oldRevs|, snap.newRev.app.labels);
    ReconcileOldLoses(env, w1, limits, snap);
    assert k in w1.running && w'.running[k] == w1.running[k];
    if 0 <= ScaleUp(limits, snap) {
      ReconcileNewUp(env, w, limits, snap);
    } else {
      ReconcileNewDown(env, w, limits, snap);
    }
    if k in w.running {
      assert k in Names(snap.total);
      var a :| a in snap.total && a.name == k;
      assert Carried(AllRevisions(snap), a.labels);
    }
  }

  // ---------- draining ----------

  /** Stopping a snapshot's apps leaves only containers that ran before, whatever fails, and
      none at all when nothing fails; so the emptiness that a worker waits for before it
      quits can be reached in every mode. */
  lemma StopEmpties(env: Env, w: World, mode: Mode, nodes: seq<string>, total: seq<App>)
    requires ListsRunning(w, total) && (mode.DirectDocker? || (nodes != [] && !mode.OtherMode?))
    ensures var w' := StopApps(env, w, mode, nodes, |total|, total).world;
            w'.running.Keys <= w.running.Keys && (NeverFails(env) ==> w'.running == map[])
  {
    hide StopApps, NeverFails;
    StopAppsLoses(env, w, mode, nodes, |total|, total);
    if NeverFails(env) {
      StopAppsRemoves(env, w, mode, nodes, |total|, total);
    }
  }

  // ---------- convergence ----------

  ghost predicate RollsHealthy(w: World, r: Round, w': World, limits: Limits, rev: Revision) {
    && r.snap.newRev == rev
    && Healthy(w, limits, r.snap) && NeverFails(r.env)
    && w' == Roll(r.env, w, limits, r.snap).world
  }

  /** Every app is available at each snapshot, no call fails, nothing crashes. */
  ghost predicate HealthyRun(worlds: seq<World>, rounds: seq<Round>, limits: Limits, rev: Revision) {
    && |worlds| == |rounds| + 1
    && limits.maxSurge >= 0 && limits.maxUnavailable >= 0
    && |RunningOf(worlds[0], rev)| <= limits.appCount
    && forall i | 0 <= i < |rounds| :: RollsHealthy(worlds[i], rounds[i], worlds[i + 1], limits, rev)
  }

  /** There is room to move, or nothing is missing, or nothing is in the way. */
  ghost predicate CanFinish(w: World, limits: Limits, rev: Revision) {
    || limits.maxSurge + limits.maxUnavailable >= 1
    || |RunningOf(w, rev)| == limits.appCount
    || OldCount(w, rev) == 0
  }

  lemma {:induction false} MeasureFalls(worlds: seq<World>, rounds: seq<Round>, limits: Limits, rev: Revision, n: nat)
    requires HealthyRun(worlds, rounds, limits, rev) && n <= |rounds|
    requires CanFinish(worlds[0], limits, rev)
    ensures |RunningOf(worlds[n], rev)| <= limits.appCount && CanFinish(worlds[n], limits, rev)
    ensures Measure(worlds[n], limits, rev) <= Max(Measure(worlds[0], limits, rev) - n, 0)
  {
    hide Healthy, NeverFails, Roll, RunningOf;
    RunningOfBound(worlds[n], rev);
    if n > 0 {
      var r := rounds[n - 1];
      MeasureFalls(worlds, rounds, limits, rev, n - 1);
      assert RollsHealthy(worlds[n - 1], r, worlds[n], limits, rev);
      RunningOfBound(worlds[n - 1], rev);
      if AtTarget(worlds[n - 1], limits, rev) {
        HealthyIsFaithful(worlds[n - 1], limits, r.snap);
        FinishedIsLeftAlone(r.env, worlds[n - 1], limits, r.snap);
      } else {
        HealthyStep(r.env, worlds[n - 1], limits, r.snap);
      }
    }
  }

  lemma HealthyIsFaithful(w: World, limits: Limits, snap: Snapshot)
    requires Healthy(w, limits, snap)
    ensures Faithful(w, snap)
  {}

  lemma {:induction false} NeverFinishes(worlds: seq<World>, rounds: seq<Round>, limits: Limits, rev: Revision, n: nat)
    requires HealthyRun(worlds, rounds, limits, rev) && n <= |rounds|
    requires !CanFinish(worlds[0], limits, rev)
    ensures |RunningOf(worlds[n], rev)| < limits.appCount && OldCount(worlds[n], rev) > 0
  {
    hide Healthy, NeverFails, Roll, RunningOf;
    RunningOfBound(worlds[n], rev);
    if n > 0 {
      NeverFinishes(worlds, rounds, limits, rev, n - 1);
      assert RollsHealthy(worlds[n - 1], rounds[n - 1], worlds[n], limits, rev);
      HopelessStep(rounds[n - 1].env, worlds[n - 1], limits, rounds[n - 1].snap);
    }
  }

  /** Convergence, with any number of old revisions: a healthy run of at least as many steps
      as the measure ends with exactly appCount new apps and no old ones, and stays there, if
      and only if one of the limits is positive, or the rollout has all its new apps, or no
      old ones; otherwise it never ends. */
  lemma HealthyRunsConverge(worlds: seq<World>, rounds: seq<Round>, limits: Limits, rev: Revision, n: nat)
    requires HealthyRun(worlds, rounds, limits, rev)
    requires Measure(worlds[0], limits, rev) <= n <= |rounds|
    ensures AtTarget(worlds[n], limits, rev) <==> CanFinish(worlds[0], limits, rev)
  {
    hide RunningOf, RollsHealthy;
    RunningOfBound(worlds[n], rev);
    if CanFinish(worlds[0], limits, rev) {
      MeasureFalls(worlds, rounds, limits, rev, n);
    } else {
      NeverFinishes(worlds, rounds, limits, rev, n);
    }
  }
}
