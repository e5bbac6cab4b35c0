/** Revisions and apps are told apart by labels. When the apps carry the labels of the
    revision that started them, every app belongs to exactly one revision, so the counts the
    controller derives from a faithful snapshot add up. */
module Snapshots {
  import opened Domain
  import opened RollSpec

  /** A revision's selector names it, and covers the labels its containers carry. */
  ghost predicate WellFormed(r: Revision) {
    && "revision" in r.selector && r.selector["revision"] == r.name
    && "revision" in r.app.labels
    && MatchLabels(r.selector, r.app.labels)
  }

  ghost predicate DistinctRevisions(revs: seq<Revision>) {
    && (forall i | 0 <= i < |revs| :: WellFormed(revs[i]))
    && (forall i, j | 0 <= i < j < |revs| :: revs[i].name != revs[j].name)
  }

  /** The revision at index `i` started containers with these labels. */
  ghost predicate StartedBy(revs: seq<Revision>, i: int, labels: Labels) {
    0 <= i < |revs| && labels == revs[i].app.labels
  }

  ghost predicate Carried(revs: seq<Revision>, labels: Labels) {
    exists i :: StartedBy(revs, i, labels)
  }

  ghost predicate AllCarried(revs: seq<Revision>, apps: seq<App>) {
    forall a | a in apps :: Carried(revs, a.labels)
  }

  /** An app matches the selector of the revision that started it and of no other. */
  lemma EachAppMatchesOneRevision(revs: seq<Revision>, i: int, labels: Labels, j: int)
    requires DistinctRevisions(revs) && StartedBy(revs, i, labels) && 0 <= j < |revs|
    ensures MatchLabels(revs[j].selector, labels) <==> j == i
  {
    assert WellFormed(revs[i]) && WellFormed(revs[j]);
    assert labels["revision"] == revs[i].name;
  }

  /** How many of the revisions match the labels. */
  function MatchCount(revs: seq<Revision>, labels: Labels): nat {
    if revs == [] then 0
    else
      var front := MatchCount(revs[..|revs| - 1], labels);
      if MatchLabels(revs[|revs| - 1].selector, labels) then front + 1 else front
  }

  lemma {:induction false} CarriedMatchesOnce(revs: seq<Revision>, i: nat, labels: Labels, n: nat)
    requires DistinctRevisions(revs) && StartedBy(revs, i, labels) && n <= |revs|
    ensures MatchCount(revs[..n], labels) == if i < n then 1 else 0
  {
    hide DistinctRevisions, StartedBy, MatchLabels;
    if n > 0 {
      CarriedMatchesOnce(revs, i, labels, n - 1);
      EachAppMatchesOneRevision(revs, i, labels, n - 1);
      assert revs[..n][..n - 1] == revs[..n - 1];
    }
  }

  lemma {:induction false} AppsOfGrows(revs: seq<Revision>, apps: seq<App>)
    requires apps != []
    ensures |AppsOf(revs, apps)| == |AppsOf(revs, apps[..|apps| - 1])| + MatchCount(revs, apps[|apps| - 1].labels)
  {
    hide MatchLabels;
    if revs != [] {
      AppsOfGrows(revs[..|revs| - 1], apps);
    }
  }

  /** The matches of all revisions together are as many as the apps. */
  lemma {:induction false} MatchesAddUp(revs: seq<Revision>, apps: seq<App>)
    requires DistinctRevisions(revs) && AllCarried(revs, apps)
    ensures |AppsOf(revs, apps)| == |apps|
  {
    hide DistinctRevisions;
    if apps == [] {
      NoApps(revs);
    } else {
      var front, last := apps[..|apps| - 1], apps[|apps| - 1];
      MatchesAddUp(revs, front);
      AppsOfGrows(revs, apps);
      assert Carried(revs, last.labels);
      var i :| StartedBy(revs, i, last.labels);
      CarriedMatchesOnce(revs, i, last.labels, |revs|);
      assert revs[..|revs|] == revs;
    }
  }

  lemma {:induction false} NoApps(revs: seq<Revision>)
    ensures AppsOf(revs, []) == []
  {
    if revs != [] {
      NoApps(revs[..|revs| - 1]);
    }
  }

  /** The recorded count of each revision is the number of apps matching it. */
  lemma {:induction false} CountsAreMatches(revs: seq<Revision>, apps: seq<App>, i: nat)
    requires DistinctRevisions(revs) && i < |revs|
    ensures CountOf(ActiveCounts(revs, apps), revs[i].name) == |Matching(revs[i].selector, apps)|
  {
    CountsUpTo(revs, apps, |revs|, i);
    assert revs[..|revs|] == revs;
  }

  lemma {:induction false} CountsUpTo(revs: seq<Revision>, apps: seq<App>, n: nat, i: nat)
    requires DistinctRevisions(revs) && n <= |revs| && i < |revs|
    ensures CountOf(ActiveCounts(revs[..n], apps), revs[i].name)
         == if i < n then |Matching(revs[i].selector, apps)| else 0
  {
    hide WellFormed;
    if n > 0 {
      CountsUpTo(revs, apps, n - 1, i);
      assert revs[..n][..n - 1] == revs[..n - 1];
    }
  }

  lemma {:induction false} SumOfMatches(counts: map<string, int>, revs: seq<Revision>, apps: seq<App>)
    requires forall r | r in revs :: CountOf(counts, r.name) == |Matching(r.selector, apps)|
    ensures SumCounts(counts, revs) == |AppsOf(revs, apps)|
  {
    hide CountOf;
    if revs != [] {
      SumOfMatches(counts, revs[..|revs| - 1], apps);
    }
  }

  lemma {:induction false} ActiveSumIsSum(counts: map<string, int>, revs: seq<Revision>, apps: seq<App>)
    requires forall r | r in revs :: CountOf(counts, r.name) == |Matching(r.selector, apps)|
    ensures SumCounts(counts, ActiveRevisions(revs, apps)) == SumCounts(counts, revs)
  {
    hide CountOf;
    if revs != [] {
      var front, last := revs[..|revs| - 1], revs[|revs| - 1];
      ActiveSumIsSum(counts, front, apps);
      var active := ActiveRevisions(front, apps);
      assert (active + [last])[..|active|] == active;
      assert last in revs;
    }
  }

  /** Sorting the active revisions does not change their sum. */
  lemma {:induction false} SumIgnoresOrder(counts: map<string, int>, a: seq<Revision>, b: seq<Revision>)
    requires multiset(a) == multiset(b)
    ensures SumCounts(counts, a) == SumCounts(counts, b)
  {
    if a == [] {
      assert |multiset(b)| == 0;
    } else {
      var i := LastOf(a, b);
      SumIgnoresOrder(counts, a[..|a| - 1], b[..i] + b[i + 1..]);
      SumWithout(counts, b, i);
    }
  }

  /** Where the last element of one list sits in a permutation of it. */
  lemma LastOf<T>(a: seq<T>, b: seq<T>) returns (i: nat)
    requires a != [] && multiset(a) == multiset(b)
    ensures i < |b| && b[i] == a[|a| - 1]
    ensures multiset(a[..|a| - 1]) == multiset(b[..i] + b[i + 1..])
  {
    assert a[|a| - 1] in multiset(b);
    i :| 0 <= i < |b| && b[i] == a[|a| - 1];
    WithoutOne(a, |a| - 1);
    WithoutOne(b, i);
    assert a[..|a| - 1] + a[|a|..] == a[..|a| - 1];
  }

  lemma WithoutOne<T>(b: seq<T>, i: nat)
    requires i < |b|
    ensures multiset(b[..i] + b[i + 1..]) == multiset(b) - multiset{b[i]}
  {
    assert b == b[..i] + [b[i]] + b[i + 1..];
  }

  lemma {:induction false} SumWithout(counts: map<string, int>, b: seq<Revision>, i: nat)
    requires i < |b|
    ensures SumCounts(counts, b) == SumCounts(counts, b[..i] + b[i + 1..]) + CountOf(counts, b[i].name)
  {
    hide CountOf;
    var front := b[..|b| - 1];
    if i == |b| - 1 {
      assert b[..i] + b[i + 1..] == front;
    } else {
      SumWithout(counts, front, i);
      var rest := b[..i] + b[i + 1..];
      assert rest[..|rest| - 1] == front[..i] + front[i + 1..];
    }
  }
}
