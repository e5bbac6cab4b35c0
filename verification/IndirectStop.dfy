/** Stopping apps through several nodes: every app is tried on every node, the calls run
    concurrently, and only the number of successful calls is looked at. */
module IndirectStop {
  import Domain
  import Runtime
  import RollSpec

  /** The stop of one app, by its index in the tail, on one node. */
  datatype Call = Call(app: nat, node: nat)

  function AllCalls(apps: nat, nodes: nat): set<Call> {
    set a, n | 0 <= a < apps && 0 <= n < nodes :: Call(a, n)
  }

  ghost predicate Distinct(schedule: seq<Call>) {
    forall i, j | 0 <= i < j < |schedule| :: schedule[i] != schedule[j]
  }

  function Elements(schedule: seq<Call>): set<Call> {
    set c | c in schedule
  }

  /** The calls complete one after the other in some order. */
  ghost predicate IsSchedule(schedule: seq<Call>, apps: nat, nodes: nat) {
    Distinct(schedule) && Elements(schedule) == AllCalls(apps, nodes)
  }

  /** The counter after the schedule: a success counts while it is below `most`. */
  function Deleted(schedule: seq<Call>, succeeds: set<Call>, most: nat): nat {
    if schedule == [] then 0
    else
      var before := Deleted(schedule[..|schedule| - 1], succeeds, most);
      if schedule[|schedule| - 1] in succeeds && before < most then before + 1 else before
  }

  method CountDeleted(schedule: seq<Call>, succeeds: set<Call>, most: nat) returns (deleted: nat)
    ensures deleted == Deleted(schedule, succeeds, most)
  {
    deleted := 0;
    for i := 0 to |schedule|
      invariant deleted == Deleted(schedule[..i], succeeds, most)
    {
      assert schedule[..i + 1][..i] == schedule[..i];
      if schedule[i] in succeeds {
        if deleted < most {
          deleted := deleted + 1;
        }
      }
    }
    assert schedule[..|schedule|] == schedule;
  }

  /** The counter does not depend on the order. */
  lemma {:induction false} DeletedCounts(schedule: seq<Call>, succeeds: set<Call>, most: nat)
    requires Distinct(schedule)
    ensures Deleted(schedule, succeeds, most)
         == if |Elements(schedule) * succeeds| <= most then |Elements(schedule) * succeeds| else most
  {
    if schedule == [] {
      assert Elements(schedule) == {};
    } else {
      hide Distinct, Elements;
      var front, last := schedule[..|schedule| - 1], schedule[|schedule| - 1];
      OneMoreCall(schedule, succeeds);
      DeletedCounts(front, succeeds, most);
    }
  }

  lemma OneMoreCall(schedule: seq<Call>, succeeds: set<Call>)
    requires Distinct(schedule) && schedule != []
    ensures var front, last := schedule[..|schedule| - 1], schedule[|schedule| - 1];
            && Distinct(front)
            && |Elements(schedule) * succeeds|
               == |Elements(front) * succeeds| + if last in succeeds then 1 else 0
  {
    var front, last := schedule[..|schedule| - 1], schedule[|schedule| - 1];
    assert schedule == front + [last] && last !in front;
    assert Elements(schedule) == Elements(front) + {last};
    if last in succeeds {
      assert Elements(schedule) * succeeds == Elements(front) * succeeds + {last};
    } else {
      assert Elements(schedule) * succeeds == Elements(front) * succeeds;
    }
  }

  ghost predicate AllStopped(apps: nat, succeeds: set<Call>) {
    forall a: nat | a < apps :: StoppedSomewhere(a, succeeds)
  }

  ghost predicate StoppedSomewhere(a: nat, succeeds: set<Call>) {
    exists n: nat :: Call(a, n) in succeeds
  }

  /** Every app runs on one node, so its stop can succeed on at most one. */
  ghost predicate OneNodeEach(succeeds: set<Call>) {
    forall c, c' | c in succeeds && c' in succeeds :: c.app == c'.app ==> c == c'
  }

  function Apps(calls: set<Call>): set<nat> {
    set c | c in calls :: c.app
  }

  lemma {:induction false} OneCallPerApp(calls: set<Call>)
    requires OneNodeEach(calls)
    ensures |Apps(calls)| == |calls|
  {
    if calls != {} {
      var c :| c in calls;
      OneCallPerApp(calls - {c});
      assert Apps(calls) == Apps(calls - {c}) + {c.app};
      assert c.app !in Apps(calls - {c});
    }
  }

  function Range(n: nat): (r: set<nat>)
    ensures |r| == n && forall a: nat :: a in r <==> a < n
  {
    if n == 0 then {} else Range(n - 1) + {n - 1}
  }

  /** The verdict of a stop of `appCount` apps whose tail has `apps` of them. */
  predicate Succeeds(apps: nat, appCount: nat, deleted: nat) {
    apps == 0 || deleted >= appCount
  }

  /** When each app's stop can succeed on at most one node, then in every schedule the stop
      reports success if and only if the tail is empty or has exactly the number of apps
      asked for and all of them were stopped; a shorter tail is always reported as an error. */
  lemma SucceedsExactlyWhen(schedule: seq<Call>, apps: nat, nodes: nat, appCount: nat, succeeds: set<Call>)
    requires IsSchedule(schedule, apps, nodes) && apps <= appCount
    requires succeeds <= AllCalls(apps, nodes) && OneNodeEach(succeeds)
    ensures Succeeds(apps, appCount, Deleted(schedule, succeeds, appCount))
       <==> apps == 0 || (apps == appCount && AllStopped(apps, succeeds))
  {
    var all := Range(apps);
    DeletedCounts(schedule, succeeds, appCount);
    assert Elements(schedule) * succeeds == succeeds;
    OneCallPerApp(succeeds);
    assert Apps(succeeds) <= all;
    SubsetSizes(Apps(succeeds), all);
    StoppedApps(apps, nodes, succeeds);
  }

  lemma StoppedApps(apps: nat, nodes: nat, succeeds: set<Call>)
    requires succeeds <= AllCalls(apps, nodes)
    ensures AllStopped(apps, succeeds) <==> Apps(succeeds) == Range(apps)
  {
    assert Apps(succeeds) <= Range(apps);
    forall a: nat | a < apps ensures StoppedSomewhere(a, succeeds) <==> a in Apps(succeeds) {
      if StoppedSomewhere(a, succeeds) {
        var n: nat :| Call(a, n) in succeeds;
        assert Call(a, n).app in Apps(succeeds);
      }
      if a in Apps(succeeds) {
        var c :| c in succeeds && c.app == a;
        assert c == Call(a, c.node);
      }
    }
  }

  lemma SubsetSizes(s: set<nat>, t: set<nat>)
    requires s <= t
    ensures |s| <= |t| && (|s| == |t| <==> s == t)
  {
    assert t == s + (t - s);
  }

  // ---------- without that assumption ----------

  /** Success means that all apps of a full tail were stopped. */
  ghost predicate VerdictIsSound(apps: nat, nodes: nat) {
    forall schedule, succeeds: set<Call>
      | IsSchedule(schedule, apps, nodes) && succeeds <= AllCalls(apps, nodes)
        && Succeeds(apps, apps, Deleted(schedule, succeeds, apps)) ::
      AllStopped(apps, succeeds)
  }

  function Row(app: nat, nodes: nat): (r: seq<Call>)
    ensures |r| == nodes && forall n | 0 <= n < nodes :: r[n] == Call(app, n)
  {
    seq(nodes, n requires 0 <= n => Call(app, n))
  }

  function Grid(apps: nat, nodes: nat): seq<Call> {
    if apps == 0 then [] else Grid(apps - 1, nodes) + Row(apps - 1, nodes)
  }

  lemma {:induction false} GridIsSchedule(apps: nat, nodes: nat)
    ensures IsSchedule(Grid(apps, nodes), apps, nodes)
  {
    if apps > 0 {
      var front, row := Grid(apps - 1, nodes), Row(apps - 1, nodes);
      GridIsSchedule(apps - 1, nodes);
      forall i | 0 <= i < |front| ensures front[i].app < apps - 1 {
        assert front[i] in Elements(front);
      }
      forall c: Call ensures c in Grid(apps, nodes) <==> c in AllCalls(apps, nodes) {
        assert c in front <==> c in Elements(front);
        if c.app == apps - 1 && c.node < nodes {
          assert row[c.node] == c;
        }
      }
    }
  }

  /** All apps but the first, once each, and the second app a second time. */
  function Misleading(apps: nat): set<Call>
    requires apps >= 2
  {
    (set a: nat | 1 <= a < apps :: Call(a, 0)) + {Call(1, 1)}
  }

  lemma MisleadingSize(apps: nat)
    requires apps >= 2
    ensures |Misleading(apps)| == apps
  {
    var once := set a: nat | 1 <= a < apps :: Call(a, 0);
    assert OneNodeEach(once);
    OneCallPerApp(once);
    var range := Range(apps);
    forall a: nat | 1 <= a < apps ensures a in Apps(once) {
      assert Call(a, 0).app in Apps(once);
    }
    assert Apps(once) == range - {0};
    assert Call(1, 1) !in once;
  }

  /** The verdict can be trusted for any outcome of the calls exactly when there is at most
      one node or at most one app: a second success of one app hides a failure of another. */
  lemma VerdictIsSoundExactlyWhen(apps: nat, nodes: nat)
    requires nodes > 0
    ensures VerdictIsSound(apps, nodes) <==> apps <= 1 || nodes == 1
  {
    if apps <= 1 || nodes == 1 {
      forall schedule, succeeds: set<Call>
        | IsSchedule(schedule, apps, nodes) && succeeds <= AllCalls(apps, nodes)
          && Succeeds(apps, apps, Deleted(schedule, succeeds, apps))
        ensures AllStopped(apps, succeeds)
      {
        FewCallsSuffice(schedule, apps, nodes, succeeds);
      }
    } else {
      var schedule, succeeds := Grid(apps, nodes), Misleading(apps);
      GridIsSchedule(apps, nodes);
      MisleadingSize(apps);
      DeletedCounts(schedule, succeeds, apps);
      assert Elements(schedule) * succeeds == succeeds;
      assert !StoppedSomewhere(0, succeeds);
    }
  }

  lemma FewCallsSuffice(schedule: seq<Call>, apps: nat, nodes: nat, succeeds: set<Call>)
    requires IsSchedule(schedule, apps, nodes) && succeeds <= AllCalls(apps, nodes)
    requires Succeeds(apps, apps, Deleted(schedule, succeeds, apps)) && (apps <= 1 || nodes == 1)
    ensures AllStopped(apps, succeeds)
  {
    if nodes == 1 {
      SucceedsExactlyWhen(schedule, apps, nodes, apps, succeeds);
    } else if apps == 1 {
      DeletedCounts(schedule, succeeds, apps);
      var c :| c in Elements(schedule) * succeeds;
      assert Call(0, c.node) in succeeds;
      assert StoppedSomewhere(0, succeeds);
    }
  }

  // ---------- the verdict of a rolling step's stops ----------

  /** The calls that succeed when the schedule is run from tick `from` on. */
  function SucceededCalls(env: Runtime.Env, from: nat, schedule: seq<Call>): set<Call> {
    set i | 0 <= i < |schedule| && env.Ok(from + i) :: schedule[i]
  }

  lemma {:induction false} CountsLikeFailures(env: Runtime.Env, from: nat, schedule: seq<Call>, most: nat, m: nat)
    requires Distinct(schedule) && m <= |schedule|
    ensures Deleted(schedule[..m], SucceededCalls(env, from, schedule), most)
         == Runtime.Min(most, m - Runtime.Failures(env, from, m))
  {
    if m > 0 {
      CountsLikeFailures(env, from, schedule, most, m - 1);
      assert schedule[..m][..m - 1] == schedule[..m - 1];
      assert schedule[m - 1] in SucceededCalls(env, from, schedule) <==> env.Ok(from + m - 1);
    }
  }

  lemma {:induction false} GridSize(apps: seq<Domain.App>, nodes: nat)
    ensures |Grid(|apps|, nodes)| == |RollSpec.PerNode(apps, nodes)|
  {
    if apps != [] {
      GridSize(apps[..|apps| - 1], nodes);
    }
  }

  /** The stops of a rolling step run as this schedule: they succeed exactly when the counter
      says so, and, when each app's stop can succeed on at most one node, exactly when the
      tail is empty or has all the apps asked for and each of them was stopped. */
  lemma IndirectVerdict(env: Runtime.Env, w: Runtime.World, nodes: seq<string>, appCount: nat, apps: seq<Domain.App>)
    requires nodes != []
    ensures var tail := Runtime.Tail(apps, appCount);
            var schedule := Grid(|tail|, |nodes|);
            var succeeds := SucceededCalls(env, w.tick, schedule);
            var ok := RollSpec.StopApps(env, w, RollSpec.IndirectStar, nodes, appCount, apps).ok;
            && (ok <==> Succeeds(|tail|, appCount, Deleted(schedule, succeeds, appCount)))
            && (OneNodeEach(succeeds) ==> (ok <==> tail == [] || (|tail| == appCount && AllStopped(|tail|, succeeds))))
  {
    hide Distinct, Elements, AllStopped;
    var tail := Runtime.Tail(apps, appCount);
    var schedule := Grid(|tail|, |nodes|);
    var succeeds := SucceededCalls(env, w.tick, schedule);
    GridIsSchedule(|tail|, |nodes|);
    GridSize(tail, |nodes|);
    CountsLikeFailures(env, w.tick, schedule, appCount, |schedule|);
    assert schedule[..|schedule|] == schedule;
    if OneNodeEach(succeeds) {
      SucceededAreCalls(env, w.tick, schedule, |tail|, |nodes|);
      SucceedsExactlyWhen(schedule, |tail|, |nodes|, appCount, succeeds);
    }
  }

  lemma SucceededAreCalls(env: Runtime.Env, from: nat, schedule: seq<Call>, apps: nat, nodes: nat)
    requires IsSchedule(schedule, apps, nodes)
    ensures SucceededCalls(env, from, schedule) <= AllCalls(apps, nodes)
  {
    assert SucceededCalls(env, from, schedule) <= Elements(schedule);
  }
}
