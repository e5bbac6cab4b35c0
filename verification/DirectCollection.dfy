/** Collection in the two direct modes. One goroutine per revision asks for its apps and then
    looks at an error variable that all of them share, so what one of them keeps depends on
    which query finished last before it looked. */
module DirectCollection {
  import opened Domain
  import opened RollSpec
  import opened Collection
  import Snapshots

  /** The goroutine of the revision with this index stores its query's outcome in the shared
      variable, or looks at the variable and appends its lists unless there is an error. */
  datatype Step = Query(i: nat) | Check(i: nat)

  /** Is the shared variable an error, and what has been appended. */
  datatype State = State(failed: bool, got: Answer)

  /** The lists of a query that failed are empty. */
  function AppsOfAnswer(answer: Option<Answer>): Answer {
    match answer
    case None => NOTHING
    case Some(a) => a
  }

  predicate InRange(steps: seq<Step>, n: nat) {
    forall k | 0 <= k < |steps| :: steps[k].i < n
  }

  function Perform(answers: seq<Option<Answer>>, s: State, step: Step): State
    requires step.i < |answers|
  {
    match step
    case Query(i) => s.(failed := answers[i].None?)
    case Check(i) => if s.failed then s else s.(got := Append(s.got, AppsOfAnswer(answers[i])))
  }

  function Performed(answers: seq<Option<Answer>>, steps: seq<Step>): State
    requires InRange(steps, |answers|)
  {
    if steps == [] then State(false, NOTHING)
    else Perform(answers, Performed(answers, steps[..|steps| - 1]), steps[|steps| - 1])
  }

  /** Every goroutine queries and then checks, one after the other. */
  function InTurn(n: nat): (steps: seq<Step>)
    ensures InRange(steps, n)
  {
    if n == 0 then [] else InTurn(n - 1) + [Query(n - 1)] + [Check(n - 1)]
  }

  ghost predicate QueriesFirst(steps: seq<Step>) {
    forall k | 0 <= k < |steps| && steps[k].Check? :: Query(steps[k].i) in steps[..k]
  }

  /** The goroutines' steps in some order, each goroutine's query before its check. */
  ghost predicate IsInterleaving(steps: seq<Step>, n: nat) {
    InRange(steps, n) && multiset(steps) == multiset(InTurn(n)) && QueriesFirst(steps)
  }

  /** The steps as the goroutines perform them. */
  method CollectDirect(answers: seq<Option<Answer>>, steps: seq<Step>) returns (got: Answer)
    requires InRange(steps, |answers|)
    ensures got == Performed(answers, steps).got
  {
    var failed := false;
    got := NOTHING;
    for k := 0 to |steps|
      invariant State(failed, got) == Performed(answers, steps[..k])
    {
      assert steps[..k + 1][..k] == steps[..k];
      var i := steps[k].i;
      if steps[k].Query? {
        failed := answers[i].None?;
      } else if !failed {
        got := Append(got, AppsOfAnswer(answers[i]));
      }
    }
    assert steps[..|steps|] == steps;
  }

  // ---------- when no query fails ----------

  /** The answers in the order of the checks. */
  function Checked(answers: seq<Option<Answer>>, steps: seq<Step>): seq<Option<Answer>>
    requires InRange(steps, |answers|)
  {
    if steps == [] then []
    else
      var front, last := Checked(answers, steps[..|steps| - 1]), steps[|steps| - 1];
      if last.Check? then front + [answers[last.i]] else front
  }

  lemma {:induction false} NoFailureCollectsAll(answers: seq<Option<Answer>>, steps: seq<Step>)
    requires InRange(steps, |answers|) && forall a | a in answers :: a.Some?
    ensures Performed(answers, steps) == State(false, Gathered(Checked(answers, steps)))
  {
    hide Append;
    if steps != [] {
      NoFailureCollectsAll(answers, steps[..|steps| - 1]);
      var front := Checked(answers, steps[..|steps| - 1]);
      assert answers[steps[|steps| - 1].i] in answers;
      assert (front + [answers[steps[|steps| - 1].i]])[..|front|] == front;
    }
  }

  /** What one step adds to the checked answers. */
  function Adds(answers: seq<Option<Answer>>, step: Step): multiset<Option<Answer>>
    requires step.i < |answers|
  {
    if step.Check? then multiset{answers[step.i]} else multiset{}
  }

  lemma CheckedLast(answers: seq<Option<Answer>>, steps: seq<Step>)
    requires InRange(steps, |answers|) && steps != []
    ensures multiset(Checked(answers, steps))
         == multiset(Checked(answers, steps[..|steps| - 1])) + Adds(answers, steps[|steps| - 1])
  {}

  lemma {:induction false} CheckedWithout(answers: seq<Option<Answer>>, steps: seq<Step>, k: nat)
    requires InRange(steps, |answers|) && k < |steps|
    ensures InRange(steps[..k] + steps[k + 1..], |answers|)
    ensures multiset(Checked(answers, steps))
         == multiset(Checked(answers, steps[..k] + steps[k + 1..])) + Adds(answers, steps[k])
  {
    hide Checked, Adds;
    var front := steps[..|steps| - 1];
    CheckedLast(answers, steps);
    if k == |steps| - 1 {
      assert steps[..k] + steps[k + 1..] == front;
    } else {
      CheckedWithout(answers, front, k);
      var rest := steps[..k] + steps[k + 1..];
      assert rest[..|rest| - 1] == front[..k] + front[k + 1..];
      CheckedLast(answers, rest);
    }
  }

  lemma {:induction false} CheckedIgnoresOrder(answers: seq<Option<Answer>>, a: seq<Step>, b: seq<Step>)
    requires InRange(a, |answers|) && InRange(b, |answers|) && multiset(a) == multiset(b)
    ensures multiset(Checked(answers, a)) == multiset(Checked(answers, b))
  {
    if a == [] {
      assert |multiset(b)| == 0;
    } else {
      var k := Snapshots.LastOf(a, b);
      CheckedWithout(answers, b, k);
      CheckedLast(answers, a);
      CheckedIgnoresOrder(answers, a[..|a| - 1], b[..k] + b[k + 1..]);
    }
  }

  lemma {:induction false} CheckedInTurn(answers: seq<Option<Answer>>, n: nat)
    requires n <= |answers|
    ensures InRange(InTurn(n), |answers|) && Checked(answers, InTurn(n)) == answers[..n]
  {
    if n > 0 {
      CheckedInTurn(answers, n - 1);
      CheckedLastTwo(answers, InTurn(n - 1), n - 1);
      assert answers[..n] == answers[..n - 1] + [answers[n - 1]];
    }
  }

  lemma CheckedLastTwo(answers: seq<Option<Answer>>, before: seq<Step>, i: nat)
    requires InRange(before, |answers|) && i < |answers|
    ensures InRange(before + [Query(i)] + [Check(i)], |answers|)
    ensures Checked(answers, before + [Query(i)] + [Check(i)]) == Checked(answers, before) + [answers[i]]
  {
    var queried := before + [Query(i)];
    assert queried[..|before|] == before;
    assert (queried + [Check(i)])[..|queried|] == queried;
    assert Checked(answers, queried) == Checked(answers, before);
  }

  /** Without failures every interleaving collects every query's apps. */
  lemma AllCollected(answers: seq<Option<Answer>>, steps: seq<Step>)
    requires IsInterleaving(steps, |answers|) && forall a | a in answers :: a.Some?
    ensures BagsOf(Performed(answers, steps).got) == BagsOf(Gathered(answers))
  {
    hide QueriesFirst, BagsOf;
    NoFailureCollectsAll(answers, steps);
    CheckedInTurn(answers, |answers|);
    CheckedIgnoresOrder(answers, steps, InTurn(|answers|));
    assert answers[..|answers|] == answers;
    GatheringIgnoresOrder(Checked(answers, steps), answers);
  }

  // ---------- the two extreme interleavings when one fails ----------

  lemma {:induction false} InTurnIsInterleaving(n: nat)
    ensures QueriesFirst(InTurn(n))
  {
    if n > 0 {
      InTurnIsInterleaving(n - 1);
      var before, steps := InTurn(n - 1), InTurn(n);
      forall k | 0 <= k < |steps| && steps[k].Check? ensures Query(steps[k].i) in steps[..k] {
        if k < |before| {
          assert steps[..k] == before[..k];
        } else {
          assert steps[|before|] == Query(n - 1) && steps[..k][|before|] == Query(n - 1);
        }
      }
    }
  }

  /** One after the other, every goroutine sees its own query's outcome. */
  lemma {:induction false} InTurnCollectsAll(answers: seq<Option<Answer>>, n: nat)
    requires n <= |answers|
    ensures InRange(InTurn(n), |answers|) && Performed(answers, InTurn(n)).got == Gathered(answers[..n])
  {
    if n > 0 {
      InTurnCollectsAll(answers, n - 1);
      PerformedLastTwo(answers, InTurn(n - 1), n - 1);
      assert answers[..n][..n - 1] == answers[..n - 1];
      if answers[n - 1].None? {
        assert Gathered(answers[..n]) == Gathered(answers[..n - 1]);
      }
    }
  }

  lemma PerformedLastTwo(answers: seq<Option<Answer>>, before: seq<Step>, i: nat)
    requires InRange(before, |answers|) && i < |answers|
    ensures InRange(before + [Query(i)] + [Check(i)], |answers|)
    ensures Performed(answers, before + [Query(i)] + [Check(i)]).got
         == match answers[i]
            case None => Performed(answers, before).got
            case Some(answer) => Append(Performed(answers, before).got, answer)
  {
    hide Append;
    var queried := before + [Query(i)];
    assert queried[..|before|] == before;
    assert (queried + [Check(i)])[..|queried|] == queried;
    assert Performed(answers, queried) == Performed(answers, before).(failed := answers[i].None?);
  }

  function Checks(n: nat): (steps: seq<Step>)
    ensures InRange(steps, n) && |steps| == n && forall k | 0 <= k < n :: steps[k] == Check(k)
  {
    if n == 0 then [] else Checks(n - 1) + [Check(n - 1)]
  }

  function QueriesBut(n: nat, j: nat): (steps: seq<Step>)
    ensures InRange(steps, n) && (forall k | 0 <= k < |steps| :: steps[k].Query?)
    ensures forall i: nat | i < n && i != j :: Query(i) in steps
  {
    if n == 0 then []
    else if n - 1 == j then QueriesBut(n - 1, j)
    else
      var front := QueriesBut(n - 1, j);
      assert (front + [Query(n - 1)])[|front|] == Query(n - 1);
      front + [Query(n - 1)]
  }

  /** All goroutines query before any checks, the query `j` last. */
  function AllQueriesFirst(n: nat, j: nat): seq<Step> {
    QueriesBut(n, j) + [Query(j)] + Checks(n)
  }

  function Count(steps: seq<Step>, x: Step): nat {
    multiset(steps)[x]
  }

  lemma LastCounts(steps: seq<Step>, last: Step, x: Step)
    ensures Count(steps + [last], x) == Count(steps, x) + if x == last then 1 else 0
  {}

  lemma {:induction false} SameSteps(n: nat, j: nat, x: Step)
    ensures Count(QueriesBut(n, j), x) + (if j < n && x == Query(j) then 1 else 0) + Count(Checks(n), x)
         == Count(InTurn(n), x)
  {
    hide Count;
    if n == 0 {
      assert QueriesBut(0, j) == Checks(0) == InTurn(0) == [];
      assert Count([], x) == 0 by { NoneCounted(x); }
    } else {
      SameSteps(n - 1, j, x);
      LastCounts(Checks(n - 1), Check(n - 1), x);
      LastCounts(InTurn(n - 1), Query(n - 1), x);
      LastCounts(InTurn(n - 1) + [Query(n - 1)], Check(n - 1), x);
      LastCounts(QueriesBut(n - 1, j), Query(n - 1), x);
    }
  }

  lemma NoneCounted(x: Step)
    ensures Count([], x) == 0
  {}

  lemma CountsAdd(a: seq<Step>, b: seq<Step>, x: Step)
    ensures Count(a + b, x) == Count(a, x) + Count(b, x)
  {}

  lemma SameCount(n: nat, j: nat, x: Step)
    requires j < n
    ensures Count(AllQueriesFirst(n, j), x) == Count(InTurn(n), x)
  {
    hide Count, QueriesBut, Checks, InTurn;
    SameSteps(n, j, x);
    LastCounts(QueriesBut(n, j), Query(j), x);
    CountsAdd(QueriesBut(n, j) + [Query(j)], Checks(n), x);
  }

  lemma SameBagOfSteps(n: nat, j: nat)
    requires j < n
    ensures multiset(AllQueriesFirst(n, j)) == multiset(InTurn(n))
  {
    hide AllQueriesFirst, InTurn;
    forall x ensures multiset(AllQueriesFirst(n, j))[x] == multiset(InTurn(n))[x] {
      SameCount(n, j, x);
    }
  }

  lemma AllQueriesFirstIsInterleaving(n: nat, j: nat)
    requires j < n
    ensures IsInterleaving(AllQueriesFirst(n, j), n)
  {
    var queries, steps := QueriesBut(n, j) + [Query(j)], AllQueriesFirst(n, j);
    SameBagOfSteps(n, j);
    forall k | 0 <= k < |steps| && steps[k].Check? ensures Query(steps[k].i) in steps[..k] {
      assert k >= |queries| by {
        assert forall m | 0 <= m < |queries| :: queries[m].Query?;
      }
      assert Query(steps[k].i) in queries;
      assert steps[..k] == queries + steps[..k][|queries|..];
    }
  }

  lemma {:induction false} QueriesCollectNothing(answers: seq<Option<Answer>>, steps: seq<Step>)
    requires InRange(steps, |answers|) && forall k | 0 <= k < |steps| :: steps[k].Query?
    ensures Performed(answers, steps).got == NOTHING
  {
    if steps != [] {
      QueriesCollectNothing(answers, steps[..|steps| - 1]);
    }
  }

  lemma {:induction false} ChecksAfterFailure(answers: seq<Option<Answer>>, steps: seq<Step>, n: nat)
    requires InRange(steps, |answers|) && n <= |answers| && Performed(answers, steps).failed
    ensures InRange(steps + Checks(n), |answers|)
    ensures Performed(answers, steps + Checks(n)) == Performed(answers, steps)
  {
    if n == 0 {
      assert steps + Checks(0) == steps;
    } else {
      ChecksAfterFailure(answers, steps, n - 1);
      assert (steps + Checks(n))[..|steps| + n - 1] == steps + Checks(n - 1);
    }
  }

  /** If a query fails, an interleaving in which it comes last of all queries loses the apps of
      every revision. */
  lemma FailureLosesAll(answers: seq<Option<Answer>>, j: nat)
    requires j < |answers| && answers[j].None?
    ensures IsInterleaving(AllQueriesFirst(|answers|, j), |answers|)
    ensures Performed(answers, AllQueriesFirst(|answers|, j)).got == NOTHING
  {
    var n := |answers|;
    var queries := QueriesBut(n, j) + [Query(j)];
    AllQueriesFirstIsInterleaving(n, j);
    QueriesCollectNothing(answers, queries);
    assert queries[..|queries| - 1] == QueriesBut(n, j);
    ChecksAfterFailure(answers, queries, n);
  }

  /** Two revisions, whose queries return one app and fail: if the second query comes before
      the first check, the app is lost, otherwise it is collected. */
  lemma TwoRuns(app: App)
    ensures var answers := [Some(Answer([app], [], [])), None];
            var late, early := [Query(0), Query(1), Check(0), Check(1)], [Query(0), Check(0), Query(1), Check(1)];
            && IsInterleaving(late, 2) && IsInterleaving(early, 2)
            && Performed(answers, late).got == NOTHING && Performed(answers, early).got == Answer([app], [], [])
  {
    hide IsInterleaving, Performed, InTurn, AllQueriesFirst, Gathered;
    var answers := [Some(Answer([app], [], [])), None];
    SpelledOut();
    FailureLosesAll(answers, 1);
    InTurnIsAnInterleaving(2);
    InTurnCollectsAll(answers, 2);
    assert answers[..2] == answers;
    assert Gathered(answers) == Answer([app], [], []) by { OneOfTwo(Answer([app], [], [])); }
  }

  lemma SpelledOut()
    ensures AllQueriesFirst(2, 1) == [Query(0), Query(1), Check(0), Check(1)]
    ensures InTurn(2) == [Query(0), Check(0), Query(1), Check(1)]
  {
    assert QueriesBut(2, 1) == QueriesBut(1, 1) == [Query(0)];
    assert InTurn(1) == [Query(0), Check(0)];
  }

  lemma OneOfTwo(answer: Answer)
    ensures Gathered([Some(answer), None]) == answer
  {
    assert [Some(answer), None][..1] == [Some(answer)];
    GatheredOne(Some(answer));
  }

  lemma InTurnIsAnInterleaving(n: nat)
    ensures IsInterleaving(InTurn(n), n)
  {
    InTurnIsInterleaving(n);
  }

  // ---------- what any interleaving collects ----------

  /** Only apps of successful queries are collected. */
  lemma {:induction false} NothingInvented(answers: seq<Option<Answer>>, steps: seq<Step>)
    requires InRange(steps, |answers|)
    ensures forall app | app in Performed(answers, steps).got.total :: app in Gathered(answers).total
    ensures (forall i | 0 <= i < |answers| :: AppsOfAnswer(answers[i]) == NOTHING) ==>
              Performed(answers, steps).got == NOTHING
  {
    if steps != [] {
      var last := steps[|steps| - 1];
      NothingInvented(answers, steps[..|steps| - 1]);
      GatheredHolds(answers, last.i);
    }
  }

  lemma {:induction false} GatheredHolds(answers: seq<Option<Answer>>, i: nat)
    requires i < |answers|
    ensures forall app | app in AppsOfAnswer(answers[i]).total :: app in Gathered(answers).total
  {
    if i < |answers| - 1 {
      GatheredHolds(answers[..|answers| - 1], i);
    }
  }

  lemma {:induction false} GatheredNothing(answers: seq<Option<Answer>>)
    ensures BagsOf(Gathered(answers)) == BagsOf(NOTHING)
       <==> forall i | 0 <= i < |answers| :: AppsOfAnswer(answers[i]) == NOTHING
  {
    hide BagsOf, Append;
    if answers != [] {
      var front, last := answers[..|answers| - 1], answers[|answers| - 1];
      GatheredNothing(front);
      GatheredSnoc(answers);
      AppendNothing(Gathered(front), AppsOfAnswer(last));
      assert forall i | 0 <= i < |front| :: front[i] == answers[i];
    }
  }

  lemma GatheredSnoc(answers: seq<Option<Answer>>)
    requires answers != []
    ensures Gathered(answers) == Append(Gathered(answers[..|answers| - 1]), AppsOfAnswer(answers[|answers| - 1]))
  {
    var front := Gathered(answers[..|answers| - 1]);
    assert Append(front, NOTHING) == front;
  }

  lemma AppendNothing(a: Answer, b: Answer)
    ensures BagsOf(Append(a, b)) == BagsOf(NOTHING) <==> BagsOf(a) == BagsOf(NOTHING) && b == NOTHING
  {
    NoneInBag(a.total + b.total);
    NoneInBag(a.ready + b.ready);
    NoneInBag(a.available + b.available);
    NoneInBag(a.total);
    NoneInBag(a.ready);
    NoneInBag(a.available);
  }

  lemma NoneInBag(apps: seq<App>)
    ensures multiset(apps) == multiset{} <==> apps == []
  {
    assert |multiset(apps)| == |apps|;
  }

  // ---------- exactly when the schedule does not matter ----------

  ghost predicate NoneFails(answers: seq<Option<Answer>>) {
    forall a | a in answers :: a.Some?
  }

  ghost predicate SameBags(answers: seq<Option<Answer>>) {
    forall a, b | IsInterleaving(a, |answers|) && IsInterleaving(b, |answers|) ::
      BagsOf(Performed(answers, a).got) == BagsOf(Performed(answers, b).got)
  }

  /** Every interleaving collects the same apps if and only if no query fails, or every query
      that succeeds returns nothing. */
  lemma SameBagsExactlyWhen(answers: seq<Option<Answer>>)
    ensures SameBags(answers)
       <==> NoneFails(answers) || forall i | 0 <= i < |answers| :: AppsOfAnswer(answers[i]) == NOTHING
  {
    hide IsInterleaving, BagsOf, AppsOfAnswer;
    if NoneFails(answers) {
      forall a | IsInterleaving(a, |answers|)
        ensures InRange(a, |answers|)
        ensures BagsOf(Performed(answers, a).got) == BagsOf(Gathered(answers))
      {
        InterleavingInRange(a, |answers|);
        AllCollected(answers, a);
      }
    } else if forall i | 0 <= i < |answers| :: AppsOfAnswer(answers[i]) == NOTHING {
      forall a | IsInterleaving(a, |answers|)
        ensures InRange(a, |answers|)
        ensures Performed(answers, a).got == NOTHING
      {
        InterleavingInRange(a, |answers|);
        NothingInvented(answers, a);
      }
    } else {
      var late := Extremes(answers);
      GatheredNothing(answers);
    }
  }

  lemma InterleavingInRange(steps: seq<Step>, n: nat)
    requires IsInterleaving(steps, n)
    ensures InRange(steps, n)
  {}

  /** If a query fails, all that was found may be collected, and nothing may be. */
  lemma Extremes(answers: seq<Option<Answer>>) returns (late: seq<Step>)
    requires !NoneFails(answers)
    ensures IsInterleaving(InTurn(|answers|), |answers|)
    ensures Performed(answers, InTurn(|answers|)).got == Gathered(answers)
    ensures IsInterleaving(late, |answers|) && Performed(answers, late).got == NOTHING
  {
    var failing :| failing in answers && failing.None?;
    var j :| 0 <= j < |answers| && answers[j] == failing;
    FailureLosesAll(answers, j);
    hide IsInterleaving, Performed, InTurn, AllQueriesFirst, Gathered;
    late := AllQueriesFirst(|answers|, j);
    InTurnIsAnInterleaving(|answers|);
    InTurnCollectsAll(answers, |answers|);
    assert answers[..|answers|] == answers;
  }

  ghost predicate SameCounts(revs: seq<Revision>, answers: seq<Option<Answer>>) {
    forall a, b | IsInterleaving(a, |answers|) && IsInterleaving(b, |answers|) ::
      ActiveCounts(revs, Performed(answers, a).got.total) == ActiveCounts(revs, Performed(answers, b).got.total)
  }

  lemma {:induction false} NoMatchesNoCounts(revs: seq<Revision>, some: seq<App>, all: seq<App>)
    requires ActiveRevisions(revs, all) == [] && forall app | app in some :: app in all
    ensures ActiveCounts(revs, some) == map[]
  {
    hide Matching;
    if revs != [] {
      NoMatchesNoCounts(revs[..|revs| - 1], some, all);
      NoMatches(revs[|revs| - 1].selector, some, all);
    }
  }

  lemma {:induction false} NoMatches(selector: Labels, some: seq<App>, all: seq<App>)
    requires Matching(selector, all) == [] && forall app | app in some :: app in all
    ensures Matching(selector, some) == []
  {
    hide MatchLabels;
    MatchesAreThere(selector, all);
    if some != [] {
      NoMatches(selector, some[..|some| - 1], all);
      assert some[|some| - 1] in some;
    }
  }

  lemma {:induction false} MatchesAreThere(selector: Labels, all: seq<App>)
    ensures forall app | app in all && MatchLabels(selector, app.labels) :: app in Matching(selector, all)
  {
    hide MatchLabels;
    if all != [] {
      MatchesAreThere(selector, all[..|all| - 1]);
      assert all == all[..|all| - 1] + [all[|all| - 1]];
    }
  }

  lemma {:induction false} CountsOfNothing(revs: seq<Revision>, all: seq<App>)
    ensures ActiveCounts(revs, []) == map[]
    ensures ActiveCounts(revs, all) == map[] <==> ActiveRevisions(revs, all) == []
  {
    hide Matching;
    if revs != [] {
      CountsOfNothing(revs[..|revs| - 1], all);
      var last := revs[|revs| - 1];
      assert |Matching(last.selector, all)| > 0 ==> last.name in ActiveCounts(revs, all);
      assert Matching(revs[|revs| - 1].selector, []) == [] by { MatchingNothing(revs[|revs| - 1].selector); }
    }
  }

  lemma MatchingNothing(selector: Labels)
    ensures Matching(selector, []) == []
  {}

  lemma {:induction false} CountsIgnoreOrder(revs: seq<Revision>, a: seq<App>, b: seq<App>)
    requires multiset(a) == multiset(b)
    ensures ActiveCounts(revs, a) == ActiveCounts(revs, b)
  {
    hide Matching;
    if revs != [] {
      CountsIgnoreOrder(revs[..|revs| - 1], a, b);
      MatchingIgnoresOrder(revs[|revs| - 1].selector, a, b);
    }
  }

  /** Every interleaving yields the same counts per revision if and only if no query fails, or
      no app that was found belongs to any of the revisions. */
  lemma SameCountsExactlyWhen(revs: seq<Revision>, answers: seq<Option<Answer>>)
    ensures SameCounts(revs, answers)
       <==> NoneFails(answers) || ActiveRevisions(revs, Gathered(answers).total) == []
  {
    hide IsInterleaving, Performed, ActiveCounts, ActiveRevisions, Gathered;
    var all := Gathered(answers).total;
    CountsOfNothing(revs, all);
    if NoneFails(answers) {
      forall a | IsInterleaving(a, |answers|)
        ensures InRange(a, |answers|)
        ensures ActiveCounts(revs, Performed(answers, a).got.total) == ActiveCounts(revs, all)
      {
        InterleavingInRange(a, |answers|);
        AllCollected(answers, a);
        CountsIgnoreOrder(revs, Performed(answers, a).got.total, all);
      }
    } else if ActiveRevisions(revs, all) == [] {
      forall a | IsInterleaving(a, |answers|)
        ensures InRange(a, |answers|)
        ensures ActiveCounts(revs, Performed(answers, a).got.total) == map[]
      {
        InterleavingInRange(a, |answers|);
        NothingInvented(answers, a);
        NoMatchesNoCounts(revs, Performed(answers, a).got.total, all);
      }
    } else {
      var late := Extremes(answers);
    }
  }
}
