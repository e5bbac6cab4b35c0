/** What one rolling step does to the containers, as functions of the deployment's limits
    and the snapshot the reconcile loop took. The controller's methods are proved against
    these functions, and the properties of a rollout are proved about them. */
module RollSpec {
  import opened Domain
  import opened Runtime

  datatype Mode = DirectDocker | DirectStar | IndirectStar | OtherMode

  datatype Limits = Limits(appCount: int, maxSurge: int, maxUnavailable: int, mode: Mode)

  datatype Snapshot = Snapshot(
    newRev: Revision,
    oldRevs: seq<Revision>,
    active: seq<Revision>,
    counts: map<string, int>,
    total: seq<App>,
    available: seq<App>,
    nodes: seq<string>)

  // ---------- counting and selecting apps ----------

  /** The apps whose labels are all among the selector's, in list order. */
  function Matching(selector: Labels, apps: seq<App>): seq<App> {
    if apps == [] then []
    else
      var front := Matching(selector, apps[..|apps| - 1]);
      var last := apps[|apps| - 1];
      if MatchLabels(selector, last.labels) then front + [last] else front
  }

  function CountOf(counts: map<string, int>, name: string): int {
    if name in counts then counts[name] else 0
  }

  function SumCounts(counts: map<string, int>, revs: seq<Revision>): int {
    if revs == [] then 0
    else SumCounts(counts, revs[..|revs| - 1]) + CountOf(counts, revs[|revs| - 1].name)
  }

  /** The apps matching each revision, revision after revision. */
  function AppsOf(revs: seq<Revision>, apps: seq<App>): seq<App> {
    if revs == [] then []
    else AppsOf(revs[..|revs| - 1], apps) + Matching(revs[|revs| - 1].selector, apps)
  }

  function OldUnavailable(newRev: Revision, total: seq<App>, available: seq<App>): seq<App> {
    if total == [] then []
    else
      var front := OldUnavailable(newRev, total[..|total| - 1], available);
      var last := total[|total| - 1];
      if last.name !in Names(available) && !MatchLabels(newRev.selector, last.labels) then front + [last] else front
  }

  /** The revisions with running apps. */
  function ActiveRevisions(revs: seq<Revision>, apps: seq<App>): seq<Revision> {
    if revs == [] then []
    else
      var front := ActiveRevisions(revs[..|revs| - 1], apps);
      var last := revs[|revs| - 1];
      if |Matching(last.selector, apps)| > 0 then front + [last] else front
  }

  function ActiveCounts(revs: seq<Revision>, apps: seq<App>): map<string, int> {
    if revs == [] then map[]
    else
      var front := ActiveCounts(revs[..|revs| - 1], apps);
      var last := revs[|revs| - 1];
      if |Matching(last.selector, apps)| > 0 then front[last.name := |Matching(last.selector, apps)|] else front
  }

  // ---------- starting and stopping in each mode ----------

  /** The labels a started container carries; the docker call adds the revision's name. */
  function StartLabels(mode: Mode, rev: Revision): Labels {
    if mode.DirectDocker? then rev.app.labels["revision" := rev.name] else rev.app.labels
  }

  function StartApps(env: Env, w: World, mode: Mode, nodes: seq<string>, rev: Revision, appCount: int): Result {
    if mode.OtherMode? || (!mode.DirectDocker? && nodes == []) then Result(w, false)
    else
      var s := StartAll(env, w, rev.name, StartLabels(mode, rev), appCount);
      Result(s.world, s.ok)
  }

  /** Each app once for every node, the order in which the stop calls are issued. */
  function PerNode(apps: seq<App>, nodes: nat): seq<App> {
    if apps == [] then []
    else PerNode(apps[..|apps| - 1], nodes) + Copies(apps[|apps| - 1], nodes)
  }

  function Copies(app: App, n: nat): (r: seq<App>)
    ensures |r| == n && forall a | a in r :: a == app
  {
    if n == 0 then [] else Copies(app, n - 1) + [app]
  }

  /** Stopping the last `appCount` apps of the list. A failed stop aborts in the docker mode,
      goes unnoticed in the direct node mode (the error is assigned to a shadowing variable),
      and in the indirect mode too few successful calls, over all nodes, are an error. */
  function StopApps(env: Env, w: World, mode: Mode, nodes: seq<string>, appCount: nat, apps: seq<App>): Result {
    var tail := Tail(apps, appCount);
    match mode
    case DirectDocker => Result(StopSeq(env, w, tail), Failures(env, w.tick, |tail|) == 0)
    case DirectStar => if nodes == [] then Result(w, false) else Result(StopSeq(env, w, tail), true)
    case IndirectStar =>
      if nodes == [] then Result(w, false)
      else
        var calls := PerNode(tail, |nodes|);
        Result(StopSeq(env, w, calls), tail == [] || |calls| - Failures(env, w.tick, |calls|) >= appCount)
    case OtherMode => Result(w, false)
  }

  // ---------- one rolling step ----------

  function ScaleRevision(env: Env, w: World, mode: Mode, nodes: seq<string>, rev: Revision,
                         counts: map<string, int>, newSize: int, apps: seq<App>): Result {
    var oldSize := CountOf(counts, rev.name);
    if oldSize == newSize then Result(w, true)
    else if oldSize < newSize then StartApps(env, w, mode, nodes, rev, newSize - oldSize)
    else StopApps(env, w, mode, nodes, oldSize - newSize, apps)
  }

  /** The size the new revision is scaled to. */
  function NewRevisionSize(limits: Limits, snap: Snapshot): int {
    var size := CountOf(snap.counts, snap.newRev.name);
    var current := SumCounts(snap.counts, snap.active);
    var most := limits.appCount + limits.maxSurge;
    if limits.appCount <= size then limits.appCount
    else if current >= most then size
    else size + Min(most - current, limits.appCount - size)
  }

  function ReconcileNew(env: Env, w: World, limits: Limits, snap: Snapshot): Result {
    ScaleRevision(env, w, limits.mode, snap.nodes, snap.newRev, snap.counts, NewRevisionSize(limits, snap),
                  Matching(snap.newRev.selector, snap.total))
  }

  function MinAvailable(limits: Limits): int {
    limits.appCount - limits.maxUnavailable
  }

  function MaxScaledDown(limits: Limits, snap: Snapshot): int {
    var newCount := CountOf(snap.counts, snap.newRev.name);
    var newAvailable := |Matching(snap.newRev.selector, snap.available)|;
    SumCounts(snap.counts, snap.oldRevs) + newCount - MinAvailable(limits) - (newCount - newAvailable)
  }

  /** The loop over the old revisions from index `i` on, `scaled` apps having been scaled
      down before; each step stops the tail of one list shared by all old revisions. */
  function ScaleOldFrom(env: Env, w: World, limits: Limits, snap: Snapshot, oldApps: seq<App>,
                        i: nat, scaled: int): Result
    requires i <= |snap.oldRevs|
    decreases |snap.oldRevs| - i
  {
    var budget := |snap.available| - MinAvailable(limits);
    if i == |snap.oldRevs| || scaled >= budget then Result(w, true)
    else
      var rev := snap.oldRevs[i];
      var size := CountOf(snap.counts, rev.name);
      if size == 0 then ScaleOldFrom(env, w, limits, snap, oldApps, i + 1, scaled)
      else
        var down := Min(size, budget - scaled);
        if size - down > size then Result(w, false)
        else
          var r := ScaleRevision(env, w, limits.mode, snap.nodes, rev, snap.counts, size - down, oldApps);
          if !r.ok then r
          else ScaleOldFrom(env, r.world, limits, snap, oldApps, i + 1, scaled + down)
  }

  function ReconcileOld(env: Env, w: World, limits: Limits, snap: Snapshot): Result {
    var most := MaxScaledDown(limits, snap);
    if most <= 0 then Result(w, true)
    else
      var r := StopApps(env, w, limits.mode, snap.nodes, most, OldUnavailable(snap.newRev, snap.total, snap.available));
      if !r.ok then r
      else ScaleOldFrom(env, r.world, limits, snap, AppsOf(snap.oldRevs, snap.total), 0, 0)
  }

  function Roll(env: Env, w: World, limits: Limits, snap: Snapshot): Result {
    var r := ReconcileNew(env, w, limits, snap);
    if !r.ok then r else ReconcileOld(env, r.world, limits, snap)
  }
}
