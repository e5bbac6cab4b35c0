/** The controller's rolling methods, step by step as the handlers perform them, proved
    against the functions of RollSpec. */
module Controller {
  import opened Domain
  import opened Runtime
  import opened RollSpec

  // ---------- loops that only read the snapshot ----------

  method SelectMatching(selector: Labels, apps: seq<App>) returns (selected: seq<App>)
    ensures selected == Matching(selector, apps)
  {
    selected := [];
    for i := 0 to |apps|
      invariant selected == Matching(selector, apps[..i])
    {
      assert apps[..i + 1][..i] == apps[..i];
      if MatchLabels(selector, apps[i].labels) {
        selected := selected + [apps[i]];
      }
    }
    assert apps[..|apps|] == apps;
  }

  method CountMatchingApps(selector: Labels, apps: seq<App>) returns (count: int)
    ensures count == |Matching(selector, apps)|
  {
    count := 0;
    for i := 0 to |apps|
      invariant count == |Matching(selector, apps[..i])|
    {
      assert apps[..i + 1][..i] == apps[..i];
      if MatchLabels(selector, apps[i].labels) {
        count := count + 1;
      }
    }
    assert apps[..|apps|] == apps;
  }

  method GetOldUnavailableApps(total: seq<App>, available: seq<App>, newRev: Revision) returns (unavailable: seq<App>)
    ensures unavailable == OldUnavailable(newRev, total, available)
  {
    var availableNames: set<ContainerName> := {};
    for i := 0 to |available|
      invariant availableNames == Names(available[..i])
    {
      assert available[..i + 1] == available[..i] + [available[i]];
      availableNames := availableNames + {available[i].name};
    }
    assert available[..|available|] == available;
    unavailable := [];
    for i := 0 to |total|
      invariant unavailable == OldUnavailable(newRev, total[..i], available)
    {
      assert total[..i + 1][..i] == total[..i];
      if total[i].name !in availableNames {
        if !MatchLabels(newRev.selector, total[i].labels) {
          unavailable := unavailable + [total[i]];
        }
      }
    }
    assert total[..|total|] == total;
  }

  method GetActiveRevisions(revs: seq<Revision>, apps: seq<App>)
    returns (active: seq<Revision>, counts: map<string, int>)
    ensures active == ActiveRevisions(revs, apps) && counts == ActiveCounts(revs, apps)
  {
    active, counts := [], map[];
    for i := 0 to |revs|
      invariant active == ActiveRevisions(revs[..i], apps) && counts == ActiveCounts(revs[..i], apps)
    {
      assert revs[..i + 1][..i] == revs[..i];
      var count := CountMatchingApps(revs[i].selector, apps);
      if count > 0 {
        active := active + [revs[i]];
        counts := counts[revs[i].name := count];
      }
    }
    assert revs[..|revs|] == revs;
  }

  method SumOf(counts: map<string, int>, revs: seq<Revision>) returns (sum: int)
    ensures sum == SumCounts(counts, revs)
  {
    sum := 0;
    for i := 0 to |revs|
      invariant sum == SumCounts(counts, revs[..i])
    {
      assert revs[..i + 1][..i] == revs[..i];
      sum := sum + CountOf(counts, revs[i].name);
    }
    assert revs[..|revs|] == revs;
  }

  /** The old revisions' apps, collected revision after revision, and their counts added up. */
  method CollectOldApps(counts: map<string, int>, oldRevs: seq<Revision>, total: seq<App>)
    returns (oldAppsCount: int, oldApps: seq<App>)
    ensures oldAppsCount == SumCounts(counts, oldRevs) && oldApps == AppsOf(oldRevs, total)
  {
    oldAppsCount, oldApps := 0, [];
    for i := 0 to |oldRevs|
      invariant oldAppsCount == SumCounts(counts, oldRevs[..i]) && oldApps == AppsOf(oldRevs[..i], total)
    {
      assert oldRevs[..i + 1][..i] == oldRevs[..i];
      oldAppsCount := oldAppsCount + CountOf(counts, oldRevs[i].name);
      var matching := SelectMatching(oldRevs[i].selector, total);
      oldApps := oldApps + matching;
    }
    assert oldRevs[..|oldRevs|] == oldRevs;
  }

  /** The successful ones among the `n` calls from tick `from` on, counted up to `most`. */
  function Counted(env: Env, from: nat, n: nat, most: nat): int {
    Min(most, n - Failures(env, from, n))
  }

  lemma CountedStep(env: Env, from: nat, n: nat, most: nat)
    ensures Counted(env, from, n + 1, most)
         == if env.Ok(from + n) && Counted(env, from, n, most) < most then Counted(env, from, n, most) + 1
            else Counted(env, from, n, most)
  {}

  lemma StopOneMore(env: Env, w: World, apps: seq<App>, app: App)
    ensures StopSeq(env, w, apps + [app]) == StopOne(env, StopSeq(env, w, apps), app.name)
  {
    assert (apps + [app])[..|apps|] == apps;
  }

  lemma StopNone(env: Env, w: World)
    ensures StopSeq(env, w, []) == w
  {}

  class Cluster {
    const env: Env
    var running: map<ContainerName, Labels>
    var tick: nat

    constructor (env: Env, running: map<ContainerName, Labels>)
      ensures this.env == env && Now() == World(running, 0)
    {
      this.env, this.running, this.tick := env, running, 0;
    }

    function Now(): World
      reads this
    {
      World(running, tick)
    }

    method StartContainer(name: string, labels: Labels) returns (ok: bool)
      modifies this
      ensures Now() == StartOne(env, old(Now()), name, labels) && ok == env.Ok(old(tick))
    {
      if env.Acts(tick) {
        running := running[ContainerName(name, tick) := labels];
      }
      ok := env.Ok(tick);
      tick := tick + 1;
    }

    method StopContainer(name: ContainerName) returns (ok: bool)
      modifies this
      ensures Now() == StopOne(env, old(Now()), name) && ok == env.Ok(old(tick))
    {
      if env.Acts(tick) {
        running := running - {name};
      }
      ok := env.Ok(tick);
      tick := tick + 1;
    }

    /** One batch of goroutines reporting into a channel of capacity `capacity`, which is
        read only after all of them are done: no send may find it full. */
    method RunBatch(name: string, labels: Labels, size: nat, capacity: nat) returns (errors: nat)
      requires size <= capacity
      modifies this
      ensures Now() == StartN(env, old(Now()), name, labels, size)
      ensures errors == Failures(env, old(tick), size) <= capacity
    {
      errors := 0;
      for i := 0 to size
        invariant Now() == StartN(env, old(Now()), name, labels, i)
        invariant errors == Failures(env, old(tick), i) <= i
      {
        var ok := StartContainer(name, labels);
        if !ok {
          assert errors < capacity;
          errors := errors + 1;
        }
      }
    }

    method StartAppsDirect(name: string, labels: Labels, appCount: int) returns (successes: int, ok: bool)
      modifies this
      ensures var s := StartAll(env, old(Now()), name, labels, appCount);
              Now() == s.world && successes == s.successes && ok == s.ok
    {
      hide StartN, Failures;
      var remaining, batchSize := appCount, 1;
      successes := 0;
      ghost var s := Started(Now(), 0, true, 0, 0);
      while remaining > 0
        invariant batchSize > 0
        invariant s.world == Now() && s.successes == successes && s.ok
        invariant StartAll(env, old(Now()), name, labels, appCount)
               == StartBatches(env, name, labels, remaining, batchSize, s)
      {
        var effectiveBatchSize := Min(batchSize, remaining);
        ghost var s' := StartBatch(env, name, labels, effectiveBatchSize, s);
        var errors := RunBatch(name, labels, effectiveBatchSize, batchSize);
        successes := successes + effectiveBatchSize - errors;
        if errors > 0 {
          return successes, false;
        }
        remaining := remaining - effectiveBatchSize;
        batchSize := batchSize * 2;
        s := s';
      }
      ok := true;
    }

    method StopAppsDirect(appCount: nat, apps: seq<App>) returns (ok: bool)
      modifies this
      ensures var tail := Tail(apps, appCount);
              Now() == StopSeq(env, old(Now()), tail) && (ok <==> Failures(env, old(tick), |tail|) == 0)
    {
      var toDelete := if appCount >= |apps| then apps else apps[|apps| - appCount..];
      var errors := 0;
      for i := 0 to |toDelete|
        invariant Now() == StopSeq(env, old(Now()), toDelete[..i])
        invariant errors == Failures(env, old(tick), i)
      {
        assert toDelete[..i + 1][..i] == toDelete[..i];
        var stopped := StopContainer(toDelete[i].name);
        if !stopped {
          errors := errors + 1;
        }
      }
      assert toDelete[..|toDelete|] == toDelete;
      ok := errors == 0;
    }

    /** Stops one app on every node; `deleted` is how many calls succeeded, up to `appCount`. */
    method StopOnNodes(app: App, nodes: seq<string>, appCount: nat, deleted: int, ghost done: seq<App>, ghost w0: World)
      returns (deleted': int)
      requires Now() == StopSeq(env, w0, done) && deleted == Counted(env, w0.tick, |done|, appCount)
      modifies this
      ensures Now() == StopSeq(env, w0, done + Copies(app, |nodes|))
      ensures deleted' == Counted(env, w0.tick, |done| + |nodes|, appCount)
    {
      hide Failures, Counted, StopSeq, StopOne;
      deleted' := deleted;
      assert done + Copies(app, 0) == done;
      for j := 0 to |nodes|
        invariant Now() == StopSeq(env, w0, done + Copies(app, j))
        invariant deleted' == Counted(env, w0.tick, |done| + j, appCount)
      {
        StopOneMore(env, w0, done + Copies(app, j), app);
        assert done + Copies(app, j) + [app] == done + Copies(app, j + 1);
        CountedStep(env, w0.tick, |done| + j, appCount);
        var stopped := StopContainer(app.name);
        if stopped && deleted' < appCount {
          deleted' := deleted' + 1;
        }
      }
    }

    method StopAllOnNodes(toDelete: seq<App>, nodes: seq<string>, appCount: nat) returns (deleted: int)
      modifies this
      ensures var calls := PerNode(toDelete, |nodes|);
              Now() == StopSeq(env, old(Now()), calls) && deleted == Counted(env, old(tick), |calls|, appCount)
    {
      hide StopSeq;
      deleted := 0;
      assert StopSeq(env, old(Now()), []) == Now() by { StopNone(env, Now()); }
      for i := 0 to |toDelete|
        invariant var calls := PerNode(toDelete[..i], |nodes|);
                  Now() == StopSeq(env, old(Now()), calls) && deleted == Counted(env, old(tick), |calls|, appCount)
      {
        assert toDelete[..i + 1][..i] == toDelete[..i];
        deleted := StopOnNodes(toDelete[i], nodes, appCount, deleted, PerNode(toDelete[..i], |nodes|), old(Now()));
      }
      assert toDelete[..|toDelete|] == toDelete;
    }

    method StopAppsIndirect(appCount: nat, apps: seq<App>, nodes: seq<string>) returns (ok: bool)
      modifies this
      ensures var r := StopApps(env, old(Now()), IndirectStar, nodes, appCount, apps);
              Now() == r.world && ok == r.ok
    {
      if |nodes| == 0 {
        return false;
      }
      var toDelete := if appCount >= |apps| then apps else apps[|apps| - appCount..];
      if |toDelete| == 0 {
        return true;
      }
      var deleted := StopAllOnNodes(toDelete, nodes, appCount);
      ok := deleted >= appCount;
    }

    method StartAppsInMode(mode: Mode, nodes: seq<string>, rev: Revision, appCount: int) returns (ok: bool)
      modifies this
      ensures var r := StartApps(env, old(Now()), mode, nodes, rev, appCount);
              Now() == r.world && ok == r.ok
    {
      match mode
      case DirectDocker =>
        var successes, started := StartAppsDirect(rev.name, rev.app.labels["revision" := rev.name], appCount);
        ok := started;
      case DirectStar =>
        if |nodes| == 0 {
          return false;
        }
        var successes, started := StartAppsDirect(rev.name, rev.app.labels, appCount);
        ok := started;
      case IndirectStar =>
        if |nodes| < 1 {
          return false;
        }
        var successes, started := StartAppsDirect(rev.name, rev.app.labels, appCount);
        ok := started;
      case OtherMode =>
        ok := false;
    }

    method StopAppsInMode(mode: Mode, nodes: seq<string>, appCount: nat, apps: seq<App>) returns (ok: bool)
      modifies this
      ensures var r := StopApps(env, old(Now()), mode, nodes, appCount, apps);
              Now() == r.world && ok == r.ok
    {
      match mode
      case DirectDocker =>
        ok := StopAppsDirect(appCount, apps);
      case DirectStar =>
        if |nodes| == 0 {
          return false;
        }
        var stopped := StopAppsDirect(appCount, apps);
        ok := true;
      case IndirectStar =>
        ok := StopAppsIndirect(appCount, apps, nodes);
      case OtherMode =>
        ok := false;
    }

    /** Stops every app of the snapshot. */
    method Stop(mode: Mode, nodes: seq<string>, total: seq<App>) returns (ok: bool)
      modifies this
      ensures var r := StopApps(env, old(Now()), mode, nodes, |total|, total);
              Now() == r.world && ok == r.ok
    {
      ok := StopAppsInMode(mode, nodes, |total|, total);
    }

    method Scale(mode: Mode, nodes: seq<string>, rev: Revision, counts: map<string, int>, newSize: int, apps: seq<App>)
      returns (ok: bool)
      modifies this
      ensures var r := ScaleRevision(env, old(Now()), mode, nodes, rev, counts, newSize, apps);
              Now() == r.world && ok == r.ok
    {
      var oldSize := CountOf(counts, rev.name);
      if oldSize == newSize {
        return true;
      }
      if oldSize < newSize {
        ok := StartAppsInMode(mode, nodes, rev, newSize - oldSize);
      } else {
        ok := StopAppsInMode(mode, nodes, oldSize - newSize, apps);
      }
    }

    method ReconcileNewRevision(limits: Limits, snap: Snapshot, newApps: seq<App>) returns (ok: bool)
      requires newApps == Matching(snap.newRev.selector, snap.total)
      modifies this
      ensures var r := ReconcileNew(env, old(Now()), limits, snap);
              Now() == r.world && ok == r.ok
    {
      var size := CountOf(snap.counts, snap.newRev.name);
      if limits.appCount == size {
        return true;
      }
      if limits.appCount < size {
        ok := Scale(limits.mode, snap.nodes, snap.newRev, snap.counts, limits.appCount, newApps);
        return;
      }
      var current := SumOf(snap.counts, snap.active);
      var most := limits.appCount + limits.maxSurge;
      var newSize := size;
      if current < most {
        var scaleUpCount := Min(most - current, limits.appCount - size);
        newSize := size + scaleUpCount;
      }
      ok := Scale(limits.mode, snap.nodes, snap.newRev, snap.counts, newSize, newApps);
    }

    method ScaleOldRevisions(limits: Limits, snap: Snapshot, oldApps: seq<App>) returns (ok: bool)
      modifies this
      ensures var r := ScaleOldFrom(env, old(Now()), limits, snap, oldApps, 0, 0);
              Now() == r.world && ok == r.ok
    {
      hide ScaleRevision;
      var totalScaledDown := 0;
      var totalScaledDownCount := |snap.available| - (limits.appCount - limits.maxUnavailable);
      var i := 0;
      while i < |snap.oldRevs|
        invariant i <= |snap.oldRevs|
        invariant ScaleOldFrom(env, old(Now()), limits, snap, oldApps, 0, 0)
               == ScaleOldFrom(env, Now(), limits, snap, oldApps, i, totalScaledDown)
      {
        if totalScaledDown >= totalScaledDownCount {
          break;
        }
        var size := CountOf(snap.counts, snap.oldRevs[i].name);
        if size != 0 {
          var scaleDownCount := Min(size, totalScaledDownCount - totalScaledDown);
          if size - scaleDownCount > size {
            return false;
          }
          var scaled := Scale(limits.mode, snap.nodes, snap.oldRevs[i], snap.counts, size - scaleDownCount, oldApps);
          if !scaled {
            return false;
          }
          totalScaledDown := totalScaledDown + scaleDownCount;
        }
        i := i + 1;
      }
      ok := true;
    }

    method ReconcileOldRevisions(limits: Limits, snap: Snapshot, newAvailable: int) returns (ok: bool)
      requires newAvailable == |Matching(snap.newRev.selector, snap.available)|
      modifies this
      ensures var r := ReconcileOld(env, old(Now()), limits, snap);
              Now() == r.world && ok == r.ok
    {
      hide StopApps, ScaleOldFrom, Matching, AppsOf, OldUnavailable, SumCounts;
      var oldAppsCount, oldApps := CollectOldApps(snap.counts, snap.oldRevs, snap.total);
      var newCount := CountOf(snap.counts, snap.newRev.name);
      var minAvailable := limits.appCount - limits.maxUnavailable;
      var newUnavailable := newCount - newAvailable;
      var maxScaledDown := oldAppsCount + newCount - minAvailable - newUnavailable;
      if maxScaledDown <= 0 {
        return true;
      }
      var unavailable := GetOldUnavailableApps(snap.total, snap.available, snap.newRev);
      ok := StopAppsInMode(limits.mode, snap.nodes, maxScaledDown, unavailable);
      if !ok {
        return;
      }
      ok := ScaleOldRevisions(limits, snap, oldApps);
    }

    /** One rolling step on the snapshot; the surge ceiling, the availability floor and the
        convergence of its runs are proved about the function it computes. */
    method RollStep(limits: Limits, snap: Snapshot) returns (ok: bool)
      modifies this
      ensures var r := Roll(env, old(Now()), limits, snap);
              Now() == r.world && ok == r.ok
    {
      hide ReconcileNew, ReconcileOld, Matching;
      var newApps := SelectMatching(snap.newRev.selector, snap.total);
      var newAvailable := CountMatchingApps(snap.newRev.selector, snap.available);
      ok := ReconcileNewRevision(limits, snap, newApps);
      if !ok {
        return;
      }
      ok := ReconcileOldRevisions(limits, snap, newAvailable);
    }
  }
}
