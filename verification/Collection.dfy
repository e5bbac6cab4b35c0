/** What the concurrent queries of the indirect mode collect, in which every goroutine has its
    own error, and how nodes are picked for them. */
module Collection {
  import opened Domain
  import opened RollSpec
  import Snapshots

  /** What one query returns: a revision's apps on one node, and which of them are ready and
      which available. */
  datatype Answer = Answer(total: seq<App>, ready: seq<App>, available: seq<App>)

  datatype Bags = Bags(total: multiset<App>, ready: multiset<App>, available: multiset<App>)

  const NOTHING := Answer([], [], [])

  function Append(a: Answer, b: Answer): Answer {
    Answer(a.total + b.total, a.ready + b.ready, a.available + b.available)
  }

  function BagsOf(a: Answer): Bags {
    Bags(multiset(a.total), multiset(a.ready), multiset(a.available))
  }

  function Sum(a: Bags, b: Bags): Bags {
    Bags(a.total + b.total, a.ready + b.ready, a.available + b.available)
  }

  /** One revision's queries, one per node, in the order in which their goroutines finish; a
      query that failed adds nothing. */
  function Gathered(answers: seq<Option<Answer>>): Answer {
    if answers == [] then NOTHING
    else
      var front := Gathered(answers[..|answers| - 1]);
      match answers[|answers| - 1]
      case None => front
      case Some(answer) => Append(front, answer)
  }

  /** All revisions' queries, in the order in which the revisions' goroutines finish. */
  function Collected(revisions: seq<seq<Option<Answer>>>): Answer {
    if revisions == [] then NOTHING
    else Append(Collected(revisions[..|revisions| - 1]), Gathered(revisions[|revisions| - 1]))
  }

  /** The queries' answers per revision, whatever their order. */
  function Unordered(revisions: seq<seq<Option<Answer>>>): (r: seq<multiset<Option<Answer>>>)
    ensures |r| == |revisions|
  {
    seq(|revisions|, i requires 0 <= i < |revisions| => multiset(revisions[i]))
  }

  lemma AppendBags(a: Answer, b: Answer)
    ensures BagsOf(Append(a, b)) == Sum(BagsOf(a), BagsOf(b))
  {}

  lemma {:induction false} GatheredWithout(answers: seq<Option<Answer>>, i: nat)
    requires i < |answers|
    ensures BagsOf(Gathered(answers))
         == Sum(BagsOf(Gathered(answers[..i] + answers[i + 1..])), BagsOf(Gathered([answers[i]])))
  {
    hide BagsOf, Append;
    var front, last := answers[..|answers| - 1], answers[|answers| - 1];
    GatheredLast(answers);
    if i == |answers| - 1 {
      assert answers[..i] + answers[i + 1..] == front;
    } else {
      var rest := answers[..i] + answers[i + 1..];
      GatheredWithout(front, i);
      GatheredLast(rest);
      assert rest[..|rest| - 1] == front[..i] + front[i + 1..];
    }
  }

  lemma GatheredLast(answers: seq<Option<Answer>>)
    requires answers != []
    ensures BagsOf(Gathered(answers))
         == Sum(BagsOf(Gathered(answers[..|answers| - 1])), BagsOf(Gathered([answers[|answers| - 1]])))
  {
    hide BagsOf, Append, Sum;
    var front, last := Gathered(answers[..|answers| - 1]), answers[|answers| - 1];
    GatheredOne(last);
    match last
    case None => NothingAdded(BagsOf(front));
    case Some(answer) => AppendBags(front, answer);
  }

  lemma GatheredOne(answer: Option<Answer>)
    ensures Gathered([answer]) == match answer case None => NOTHING case Some(a) => a
  {
    assert [answer][..0] == [];
  }

  lemma NothingAdded(b: Bags)
    ensures Sum(b, BagsOf(NOTHING)) == b
  {}

  /** The order in which one revision's nodes answer does not matter. */
  lemma {:induction false} GatheringIgnoresOrder(a: seq<Option<Answer>>, b: seq<Option<Answer>>)
    requires multiset(a) == multiset(b)
    ensures BagsOf(Gathered(a)) == BagsOf(Gathered(b))
  {
    hide BagsOf, Sum;
    if a == [] {
      assert |multiset(b)| == 0;
    } else {
      var i := Snapshots.LastOf(a, b);
      GatheringIgnoresOrder(a[..|a| - 1], b[..i] + b[i + 1..]);
      GatheredLast(a);
      GatheredWithout(b, i);
    }
  }

  lemma {:induction false} CollectedWithout(revisions: seq<seq<Option<Answer>>>, i: nat)
    requires i < |revisions|
    ensures BagsOf(Collected(revisions))
         == Sum(BagsOf(Collected(revisions[..i] + revisions[i + 1..])), BagsOf(Gathered(revisions[i])))
  {
    hide BagsOf, Append, Gathered;
    var front, last := revisions[..|revisions| - 1], revisions[|revisions| - 1];
    AppendBags(Collected(front), Gathered(last));
    if i == |revisions| - 1 {
      assert revisions[..i] + revisions[i + 1..] == front;
    } else {
      var rest := revisions[..i] + revisions[i + 1..];
      CollectedWithout(front, i);
      AppendBags(Collected(rest[..|rest| - 1]), Gathered(last));
      assert rest[..|rest| - 1] == front[..i] + front[i + 1..];
    }
  }

  /** Collection does not depend on the schedule: in whatever order the revisions' goroutines
      finish, and within each of them the nodes' goroutines, the same total, ready and
      available apps are collected, each as often. */
  lemma {:induction false} CollectionIgnoresSchedule(a: seq<seq<Option<Answer>>>, b: seq<seq<Option<Answer>>>)
    requires multiset(Unordered(a)) == multiset(Unordered(b))
    ensures BagsOf(Collected(a)) == BagsOf(Collected(b))
  {
    hide BagsOf, Sum, Gathered, Append;
    if a == [] {
      assert |multiset(Unordered(b))| == 0;
    } else {
      var i := Snapshots.LastOf(Unordered(a), Unordered(b));
      var front, rest := a[..|a| - 1], b[..i] + b[i + 1..];
      assert Unordered(front) == Unordered(a)[..|a| - 1];
      assert Unordered(rest) == Unordered(b)[..i] + Unordered(b)[i + 1..];
      CollectionIgnoresSchedule(front, rest);
      GatheringIgnoresOrder(a[|a| - 1], b[i]);
      AppendBags(Collected(front), Gathered(a[|a| - 1]));
      CollectedWithout(b, i);
    }
  }

  lemma {:induction false} MatchingIgnoresOrder(selector: Labels, a: seq<App>, b: seq<App>)
    requires multiset(a) == multiset(b)
    ensures |Matching(selector, a)| == |Matching(selector, b)|
  {
    hide MatchLabels;
    if a == [] {
      assert |multiset(b)| == 0;
    } else {
      var i := Snapshots.LastOf(a, b);
      MatchingIgnoresOrder(selector, a[..|a| - 1], b[..i] + b[i + 1..]);
      MatchingWithout(selector, b, i);
    }
  }

  lemma {:induction false} MatchingWithout(selector: Labels, b: seq<App>, i: nat)
    requires i < |b|
    ensures |Matching(selector, b)|
         == |Matching(selector, b[..i] + b[i + 1..])| + if MatchLabels(selector, b[i].labels) then 1 else 0
  {
    hide MatchLabels;
    var front := b[..|b| - 1];
    if i == |b| - 1 {
      assert b[..i] + b[i + 1..] == front;
    } else {
      MatchingWithout(selector, front, i);
      var rest := b[..i] + b[i + 1..];
      assert rest[..|rest| - 1] == front[..i] + front[i + 1..];
    }
  }

  /** So the counts the controller derives do not depend on it either. */
  lemma {:induction false} CountsIgnoreSchedule(revs: seq<Revision>, a: seq<seq<Option<Answer>>>,
                                                b: seq<seq<Option<Answer>>>)
    requires multiset(Unordered(a)) == multiset(Unordered(b))
    ensures ActiveCounts(revs, Collected(a).total) == ActiveCounts(revs, Collected(b).total)
  {
    CollectionIgnoresSchedule(a, b);
    if revs != [] {
      CountsIgnoreSchedule(revs[..|revs| - 1], a, b);
      MatchingIgnoresOrder(revs[|revs| - 1].selector, Collected(a).total, Collected(b).total);
    }
  }

  /** The loops that append the answers, in the order in which they come in. */
  method Collect(revisions: seq<seq<Option<Answer>>>) returns (all: Answer)
    ensures all == Collected(revisions)
  {
    all := NOTHING;
    for i := 0 to |revisions|
      invariant all == Collected(revisions[..i])
    {
      assert revisions[..i + 1][..i] == revisions[..i];
      var gathered := Gather(revisions[i]);
      all := Append(all, gathered);
    }
    assert revisions[..|revisions|] == revisions;
  }

  method Gather(answers: seq<Option<Answer>>) returns (gathered: Answer)
    ensures gathered == Gathered(answers)
  {
    gathered := NOTHING;
    for i := 0 to |answers|
      invariant gathered == Gathered(answers[..i])
    {
      assert answers[..i + 1][..i] == answers[..i];
      if answers[i].Some? {
        gathered := Append(gathered, answers[i].value);
      }
    }
    assert answers[..|answers|] == answers;
  }

  /** The apps that `selector` does not match, in their order. */
  function Unmatched(selector: Labels, apps: seq<App>): seq<App> {
    if apps == [] then []
    else
      var front := Unmatched(selector, apps[..|apps| - 1]);
      var last := apps[|apps| - 1];
      if MatchLabels(selector, last.labels) then front else front + [last]
  }

  /** The two halves of the split are the collected apps again, each as often as it was
      collected, and no app of the second half is one of the new revision's. */
  lemma {:induction false} SplitPartitions(selector: Labels, apps: seq<App>)
    ensures multiset(Matching(selector, apps)) + multiset(Unmatched(selector, apps)) == multiset(apps)
    ensures forall a | a in Unmatched(selector, apps) :: !MatchLabels(selector, a.labels)
    ensures forall a | a in Matching(selector, apps) :: MatchLabels(selector, a.labels)
  {
    hide MatchLabels;
    if apps != [] {
      SplitPartitions(selector, apps[..|apps| - 1]);
      assert apps == apps[..|apps| - 1] + [apps[|apps| - 1]];
    }
  }

  /** Both halves keep the order of the list. */
  lemma {:induction false} UnmatchedSplits(selector: Labels, a: seq<App>, b: seq<App>)
    ensures Unmatched(selector, a + b) == Unmatched(selector, a) + Unmatched(selector, b)
  {
    hide MatchLabels;
    if b == [] {
      assert a + b == a;
    } else {
      UnmatchedSplits(selector, a, b[..|b| - 1]);
      assert (a + b)[..|a + b| - 1] == a + b[..|b| - 1];
    }
  }

  /** Splits the collected apps into those of the new revision and the others. */
  method SplitApps(newRev: Revision, total: seq<App>) returns (newApps: seq<App>, oldApps: seq<App>)
    ensures newApps == Matching(newRev.selector, total)
    ensures oldApps == Unmatched(newRev.selector, total)
    ensures multiset(newApps) + multiset(oldApps) == multiset(total)
  {
    hide MatchLabels;
    newApps, oldApps := [], [];
    for i := 0 to |total|
      invariant newApps == Matching(newRev.selector, total[..i])
      invariant oldApps == Unmatched(newRev.selector, total[..i])
    {
      assert total[..i + 1][..i] == total[..i];
      if MatchLabels(newRev.selector, total[i].labels) {
        newApps := newApps + [total[i]];
      } else {
        oldApps := oldApps + [total[i]];
      }
    }
    assert total[..|total|] == total;
    SplitPartitions(newRev.selector, total);
  }

  /** The ceiling of a percentage of `n`. */
  function ShareOf(n: nat, percentage: nat): (share: nat)
    requires percentage <= 100
    ensures share <= n && 100 * share >= n * percentage > 100 * (share - 1)
  {
    assert n * percentage <= n * 100;
    (n * percentage + 99) / 100
  }

  /** The random source returns an index below its bound. */
  ghost predicate Bounded(pick: (nat, nat) -> nat) {
    forall i: nat, bound: nat :: bound > 0 ==> pick(i, bound) < bound
  }

  function Without(nodes: seq<string>, index: nat): (rest: seq<string>)
    requires index < |nodes|
    ensures |rest| == |nodes| - 1
  {
    nodes[..index] + nodes[index + 1..]
  }

  /** Removes one element of the first `n` by moving the later ones down by one, as appending
      to the slice before it does: the array's last elements keep their old values. */
  method RemoveAt(nodes: array<string>, n: nat, index: nat)
    requires index < n <= nodes.Length
    modifies nodes
    ensures nodes[..n - 1] == Without(old(nodes[..n]), index)
    ensures nodes[n - 1..] == old(nodes[n - 1..])
  {
    for i := index to n - 1
      invariant forall k | 0 <= k < index || i <= k < nodes.Length :: nodes[k] == old(nodes[k])
      invariant forall k | index <= k < i :: nodes[k] == old(nodes[k + 1])
    {
      nodes[i] := nodes[i + 1];
    }
  }

  /** The picks from `nodes`, of which `i` have been made before, until `wanted` are made. */
  function Picked(nodes: seq<string>, i: nat, wanted: nat, pick: (nat, nat) -> nat): seq<string>
    requires wanted - i <= |nodes| && Bounded(pick)
    decreases wanted - i
  {
    if i >= wanted then []
    else
      var index := pick(i, |nodes|);
      [nodes[index]] + Picked(Without(nodes, index), i + 1, wanted, pick)
  }

  /** The nodes that are left then, in their order. */
  function Left(nodes: seq<string>, i: nat, wanted: nat, pick: (nat, nat) -> nat): seq<string>
    requires wanted - i <= |nodes| && Bounded(pick)
    decreases wanted - i
  {
    if i >= wanted then nodes else Left(Without(nodes, pick(i, |nodes|)), i + 1, wanted, pick)
  }

  lemma NextPick(nodes: seq<string>, i: nat, wanted: nat, pick: (nat, nat) -> nat)
    requires i <= wanted && wanted - i <= |nodes| && Bounded(pick)
    ensures i == wanted ==> Picked(nodes, i, wanted, pick) == [] && Left(nodes, i, wanted, pick) == nodes
    ensures i < wanted ==>
              var index := pick(i, |nodes|);
              && index < |nodes|
              && Picked(nodes, i, wanted, pick) == [nodes[index]] + Picked(Without(nodes, index), i + 1, wanted, pick)
              && Left(nodes, i, wanted, pick) == Left(Without(nodes, index), i + 1, wanted, pick)
  {}

  /** Every node is picked or left, once. */
  lemma {:induction false} PickedOrLeft(nodes: seq<string>, i: nat, wanted: nat, pick: (nat, nat) -> nat)
    requires i <= wanted && wanted - i <= |nodes| && Bounded(pick)
    ensures |Picked(nodes, i, wanted, pick)| == wanted - i
    ensures multiset(Picked(nodes, i, wanted, pick)) + multiset(Left(nodes, i, wanted, pick)) == multiset(nodes)
    decreases wanted - i
  {
    hide Bounded, Without;
    if i < wanted {
      assert pick(i, |nodes|) < |nodes| by { InBounds(pick, i, |nodes|); }
      var index := pick(i, |nodes|);
      var rest := Without(nodes, index);
      PickedOrLeft(rest, i + 1, wanted, pick);
      PickedFirst(nodes, index, Picked(rest, i + 1, wanted, pick), Left(rest, i + 1, wanted, pick));
    }
  }

  lemma PickedFirst(nodes: seq<string>, index: nat, picked: seq<string>, left: seq<string>)
    requires index < |nodes| && multiset(picked) + multiset(left) == multiset(Without(nodes, index))
    ensures multiset([nodes[index]] + picked) + multiset(left) == multiset(nodes)
  {
    hide Without;
    assert nodes[index] in multiset(nodes);
    WithoutBag(nodes, index);
    FirstInBag(nodes[index], picked);
    OneBack(multiset(nodes), nodes[index], multiset(picked), multiset(left));
  }

  lemma OneBack(all: multiset<string>, one: string, picked: multiset<string>, left: multiset<string>)
    requires one in all && picked + left == all - multiset{one}
    ensures multiset{one} + picked + left == all
  {
    forall x ensures (multiset{one} + picked + left)[x] == all[x] {
      assert (picked + left)[x] == (all - multiset{one})[x];
    }
  }

  lemma WithoutBag(nodes: seq<string>, index: nat)
    requires index < |nodes|
    ensures multiset(Without(nodes, index)) == multiset(nodes) - multiset{nodes[index]}
  {
    Snapshots.WithoutOne(nodes, index);
  }

  lemma FirstInBag(first: string, rest: seq<string>)
    ensures multiset([first] + rest) == multiset{first} + multiset(rest)
  {
    assert multiset([first]) == multiset{first};
  }

  lemma InBounds(pick: (nat, nat) -> nat, i: nat, bound: nat)
    requires Bounded(pick) && bound > 0
    ensures pick(i, bound) < bound
  {}

  /** Picks nodes at random without replacement, in place. The number of nodes is the ceiling of
      the percentage. The caller's array is left with the unpicked nodes in front. */
  method SelectRandomNodes(nodes: array<string>, percentage: nat, pick: (nat, nat) -> nat)
    returns (selected: seq<string>)
    requires percentage <= 100 && Bounded(pick)
    modifies nodes
    ensures 100 * |selected| >= nodes.Length * percentage > 100 * (|selected| - 1) && |selected| <= nodes.Length
    ensures selected == Picked(old(nodes[..]), 0, |selected|, pick)
    ensures nodes[..nodes.Length - |selected|] == Left(old(nodes[..]), 0, |selected|, pick)
    ensures multiset(selected) + multiset(nodes[..nodes.Length - |selected|]) == multiset(old(nodes[..]))
  {
    hide Bounded, Picked, Left, Without;
    var wanted := ShareOf(nodes.Length, percentage);
    ghost var was := nodes[..];
    selected := [];
    var n := nodes.Length;
    assert nodes[..n] == was;
    for i := 0 to wanted
      invariant |selected| == i && n == nodes.Length - i
      invariant Picked(was, 0, wanted, pick) == selected + Picked(nodes[..n], i, wanted, pick)
      invariant Left(was, 0, wanted, pick) == Left(nodes[..n], i, wanted, pick)
    {
      NextPick(nodes[..n], i, wanted, pick);
      var index := pick(i, n);
      selected := selected + [nodes[index]];
      RemoveAt(nodes, n, index);
      n := n - 1;
    }
    NextPick(nodes[..n], wanted, wanted, pick);
    PickedOrLeft(was, 0, wanted, pick);
  }
}
