/** The revision store, and how a reconcile chooses or builds the current revision. */
module Revisions {
  import opened Domain
  import opened Deployments

  datatype Key = Key(orgId: string, namespace: string, name: string)

  type Store = map<Key, Revision>

  function KeyOf(r: Revision): Key {
    Key(r.orgId, r.namespace, r.name)
  }

  function KeysOf(revs: seq<Revision>): set<Key> {
    set r | r in revs :: KeyOf(r)
  }

  ghost predicate ValidStore(kv: Store) {
    forall k | k in kv :: KeyOf(kv[k]) == k
  }

  /** A stored revision belongs to a deployment by its labels. The store is searched by a key
      prefix that does not end in a slash, so every namespace that the deployment's namespace
      is a prefix of is searched too. */
  predicate Owns(d: Deployment, r: Revision) {
    && r.orgId == d.orgId
    && d.namespace <= r.namespace
    && MatchLabels(r.selector, d.spec.selector)
  }

  function OwnedKeys(kv: Store, d: Deployment): set<Key> {
    set k | k in kv && Owns(d, kv[k])
  }

  ghost predicate DistinctKeys(revs: seq<Revision>) {
    forall i, j | 0 <= i < j < |revs| :: KeyOf(revs[i]) != KeyOf(revs[j])
  }

  /** The list holds each owned revision of the store exactly once. */
  ghost predicate Lists(kv: Store, d: Deployment, revs: seq<Revision>) {
    && DistinctKeys(revs)
    && (forall r | r in revs :: KeyOf(r) in kv && kv[KeyOf(r)] == r)
    && KeysOf(revs) == OwnedKeys(kv, d)
  }

  ghost predicate NewestFirst(revs: seq<Revision>) {
    forall i, j | 0 <= i < j < |revs| :: revs[i].timestamp >= revs[j].timestamp
  }

  // ---------- building a revision ----------

  /** The labels of a new revision's app spec: the deployment's own, overlaid with its
      selector, the deployment's name and the revision's. */
  function OverlaidLabels(d: Deployment, name: string): Labels {
    d.spec.app.labels + d.spec.selector["deployment" := d.name]["revision" := name]
  }

  /** No revision when a quota is not supported. */
  function BuildRevision(d: Deployment, name: string, now: int): Option<Revision> {
    if d.spec.app.quotas.Keys <= SUPPORTED then
      Some(Revision(name, d.namespace, d.orgId, now, d.labels,
                    d.spec.selector["deployment" := d.name]["revision" := name],
                    d.spec.app.(labels := OverlaidLabels(d, name))))
    else None
  }

  predicate IsValid(r: Revision) {
    && r.name != "" && r.namespace != "" && r.orgId != "" && r.selector != map[]
    && r.app.name != "" && r.app.namespace != "" && r.app.orgId != "" && r.app.labels != map[]
  }

  predicate MatchesSpec(d: Deployment, revs: seq<Revision>) {
    revs != [] && CompareAppSpecs(d.spec.app, revs[0].app)
  }

  /** The newest revision if it has the deployment's app spec, else a newly built one. */
  function NewOf(d: Deployment, newestFirst: seq<Revision>, name: string, now: int): Option<Revision> {
    if MatchesSpec(d, newestFirst) then Some(newestFirst[0])
    else
      var built := BuildRevision(d, name, now);
      if built.Some? && IsValid(built.value) then built else None
  }

  function Others(revs: seq<Revision>, newRev: Revision): seq<Revision> {
    if revs == [] then []
    else
      var front := Others(revs[..|revs| - 1], newRev);
      var last := revs[|revs| - 1];
      if CompareRevisions(last, newRev) then front else front + [last]
  }

  /** Stored revisions compare equal only to themselves. */
  lemma StoredCompareExactlyWhen(kv: Store, r: Revision, other: Revision)
    requires ValidStore(kv) && KeyOf(r) in kv && kv[KeyOf(r)] == r && KeyOf(other) in kv && kv[KeyOf(other)] == other
    ensures CompareRevisions(r, other) <==> r == other
  {}

  /** A built revision is the deployment's app spec under overlaid labels: the revision's own
      name first, then the deployment's, then its selector, then the spec's own labels. */
  lemma BuiltExactly(d: Deployment, name: string, now: int)
    ensures BuildRevision(d, name, now).Some? <==> forall q | q in d.spec.app.quotas :: q in {"mem", "cpu", "disk"}
    ensures BuildRevision(d, name, now).Some? ==>
              var r := BuildRevision(d, name, now).value;
              && r.name == name && r.namespace == d.namespace && r.orgId == d.orgId
              && r.timestamp == now && r.labels == d.labels
              && r.selector.Keys == d.spec.selector.Keys + {"deployment", "revision"}
              && r.app == d.spec.app.(labels := r.app.labels)
              && r.app.labels.Keys == d.spec.app.labels.Keys + r.selector.Keys
              && (forall k | k in r.app.labels ::
                    r.app.labels[k] == if k == "revision" then name
                                       else if k == "deployment" then d.name
                                       else if k in d.spec.selector then d.spec.selector[k]
                                       else d.spec.app.labels[k])
              && (forall k | k in r.selector :: r.selector[k] == r.app.labels[k])
  {
    assert d.spec.app.quotas.Keys <= SUPPORTED <==> forall q | q in d.spec.app.quotas :: q in SUPPORTED;
  }

  /** The lookup finds or builds no revision exactly when the newest one does not match and a
      quota is not supported or one of the names a revision needs is empty. */
  lemma LookupFailsExactlyWhen(d: Deployment, sorted: seq<Revision>, name: string, now: int)
    ensures NewOf(d, sorted, name, now) == None
       <==> && !MatchesSpec(d, sorted)
            && ((exists q :: q in d.spec.app.quotas && q !in {"mem", "cpu", "disk"})
                || name == "" || d.namespace == "" || d.orgId == ""
                || d.spec.app.name == "" || d.spec.app.namespace == "" || d.spec.app.orgId == "")
  {
    hide MatchesSpec;
    BuiltExactly(d, name, now);
    if BuildRevision(d, name, now).Some? {
      var r := BuildRevision(d, name, now).value;
      assert "revision" in r.selector && "revision" in r.app.labels;
    }
  }

  /** A changed app spec is rolled out: when the newest stored revision differs from the
      deployment's in name, namespace, organisation, strategy, default action or system call
      rules, or lacks one of its labels, no stored revision becomes the current one. */
  lemma ChangedSpecIsRebuilt(kv: Store, d: Deployment, sorted: seq<Revision>, name: string, now: int)
    requires Lists(kv, d, sorted) && sorted != [] && Key(d.orgId, d.namespace, name) !in kv
    requires var old', new' := sorted[0].app, d.spec.app;
             || old'.name != new'.name || old'.namespace != new'.namespace || old'.orgId != new'.orgId
             || old'.strategy != new'.strategy
             || old'.profile.defaultAction != new'.profile.defaultAction
             || old'.profile.syscalls != new'.profile.syscalls
             || exists k :: k in new'.labels && (k !in old'.labels || old'.labels[k] != new'.labels[k])
    ensures NewOf(d, sorted, name, now).Some? ==>
              var r := NewOf(d, sorted, name, now).value;
              r.name == name && r !in sorted && KeyOf(r) !in kv && BuildRevision(d, name, now) == Some(r)
  {
    hide IsValid, CompareAppSpecs, Owns;
    MatchExactlyWhen(d.spec.app, sorted[0].app);
    BuiltExactly(d, name, now);
  }

  // ---------- sorting ----------

  function InsertNewest(s: seq<Revision>, r: Revision): seq<Revision> {
    if s == [] then [r]
    else if s[|s| - 1].timestamp >= r.timestamp then s + [r]
    else InsertNewest(s[..|s| - 1], r) + [s[|s| - 1]]
  }

  function SortedNewest(s: seq<Revision>): seq<Revision> {
    if s == [] then [] else InsertNewest(SortedNewest(s[..|s| - 1]), s[|s| - 1])
  }

  lemma {:induction false} InsertKeepsAll(s: seq<Revision>, r: Revision)
    ensures multiset(InsertNewest(s, r)) == multiset(s) + multiset{r}
  {
    if s != [] && s[|s| - 1].timestamp < r.timestamp {
      InsertKeepsAll(s[..|s| - 1], r);
      assert s == s[..|s| - 1] + [s[|s| - 1]];
    }
  }

  lemma {:induction false} InsertNewestIsSorted(s: seq<Revision>, r: Revision)
    requires NewestFirst(s)
    ensures NewestFirst(InsertNewest(s, r))
  {
    if s != [] && s[|s| - 1].timestamp < r.timestamp {
      var front, last := s[..|s| - 1], s[|s| - 1];
      var inserted := InsertNewest(front, r);
      InsertNewestIsSorted(front, r);
      InsertKeepsAll(front, r);
      forall i | 0 <= i < |inserted| ensures inserted[i].timestamp >= last.timestamp {
        assert inserted[i] in multiset(inserted);
      }
    }
  }

  lemma {:induction false} SortedNewestIsSorted(s: seq<Revision>)
    ensures NewestFirst(SortedNewest(s)) && multiset(SortedNewest(s)) == multiset(s)
  {
    hide NewestFirst, InsertNewest;
    if s == [] {
      NoneIsSorted();
    } else {
      var front, last := s[..|s| - 1], s[|s| - 1];
      SortedNewestIsSorted(front);
      InsertNewestIsSorted(SortedNewest(front), last);
      InsertKeepsAll(SortedNewest(front), last);
      assert s == front + [last];
    }
  }

  lemma NoneIsSorted()
    ensures NewestFirst([])
  {}

  /** Sorts in place; which of two revisions of equal age comes first is not specified. */
  method SortNewestFirst(a: array<Revision>)
    modifies a
    ensures NewestFirst(a[..]) && multiset(a[..]) == multiset(old(a[..]))
  {
    var s := SortedNewest(a[..]);
    SortedNewestIsSorted(a[..]);
    assert |multiset(s)| == |multiset(a[..])|;
    for i := 0 to a.Length
      invariant a[..i] == s[..i] && |s| == a.Length
    {
      a[i] := s[i];
    }
    assert a[..] == s;
  }

  method CopyToArray(s: seq<Revision>) returns (a: array<Revision>)
    ensures fresh(a) && a[..] == s
  {
    a := new Revision[|s|](i requires 0 <= i < |s| => s[i]);
  }

  lemma ListsPermuted(kv: Store, d: Deployment, a: seq<Revision>, b: seq<Revision>)
    requires Lists(kv, d, a) && multiset(a) == multiset(b)
    ensures Lists(kv, d, b)
  {
    forall r ensures r in a <==> r in b {
      assert r in multiset(a) <==> r in multiset(b);
    }
    DistinctPermuted(a, b);
  }

  lemma DistinctPermuted(a: seq<Revision>, b: seq<Revision>)
    requires DistinctKeys(a) && multiset(a) == multiset(b)
    ensures DistinctKeys(b)
  {
    forall i, j | 0 <= i < j < |b| ensures KeyOf(b[i]) != KeyOf(b[j]) {
      if KeyOf(b[i]) == KeyOf(b[j]) {
        assert b[i] in multiset(a) && b[j] in multiset(a);
        var p :| 0 <= p < |a| && a[p] == b[i];
        var q :| 0 <= q < |a| && a[q] == b[j];
        assert p == q && b[i] == b[j];
        TwiceInMultiset(b, i, j);
        OnceInMultiset(a, p);
      }
    }
  }

  lemma TwiceInMultiset(b: seq<Revision>, i: nat, j: nat)
    requires i < j < |b| && b[i] == b[j]
    ensures multiset(b)[b[i]] >= 2
  {
    assert b == b[..i] + [b[i]] + b[i + 1..j] + [b[j]] + b[j + 1..];
  }

  lemma OnceInMultiset(a: seq<Revision>, p: nat)
    requires DistinctKeys(a) && p < |a|
    ensures multiset(a)[a[p]] == 1
  {
    assert a == a[..p] + [a[p]] + a[p + 1..];
    assert a[p] !in a[..p] && a[p] !in a[p + 1..];
  }

  // ---------- the repository ----------

  class RevisionRepo {
    var kv: Store

    /** A handle on a store, which may hold revisions already. */
    constructor (kv: Store)
      ensures this.kv == kv
    {
      this.kv := kv;
    }

    method Put(r: Revision)
      requires ValidStore(kv)
      modifies this
      ensures kv == old(kv)[KeyOf(r) := r] && ValidStore(kv)
    {
      kv := kv[KeyOf(r) := r];
    }

    method Get(name: string, namespace: string, orgId: string) returns (r: Option<Revision>)
      ensures r == if Key(orgId, namespace, name) in kv then Some(kv[Key(orgId, namespace, name)]) else None
    {
      var key := Key(orgId, namespace, name);
      r := if key in kv then Some(kv[key]) else None;
    }

    method Delete(name: string, namespace: string, orgId: string)
      requires ValidStore(kv)
      modifies this
      ensures kv == old(kv) - {Key(orgId, namespace, name)} && ValidStore(kv)
    {
      kv := kv - {Key(orgId, namespace, name)};
    }

    method GetDeploymentOwned(d: Deployment) returns (revs: seq<Revision>)
      requires ValidStore(kv)
      ensures Lists(kv, d, revs)
    {
      revs := [];
      var rest := kv.Keys;
      while rest != {}
        invariant rest <= kv.Keys
        invariant DistinctKeys(revs) && forall r | r in revs :: KeyOf(r) in kv && kv[KeyOf(r)] == r
        invariant KeysOf(revs) == OwnedKeys(kv, d) - rest
        decreases rest
      {
        var k :| k in rest;
        rest := rest - {k};
        if Owns(d, kv[k]) {
          AppendKey(revs, kv[k]);
          revs := revs + [kv[k]];
        }
      }
    }

    method DeleteDeploymentOwned(d: Deployment)
      requires ValidStore(kv)
      modifies this
      ensures kv == old(kv) - OwnedKeys(old(kv), d) && ValidStore(kv)
      ensures OwnedKeys(kv, d) == {}
    {
      var selected := GetDeploymentOwned(d);
      for i := 0 to |selected|
        invariant kv == old(kv) - KeysOf(selected[..i]) && ValidStore(kv)
      {
        assert selected[..i + 1] == selected[..i] + [selected[i]];
        AppendKey(selected[..i], selected[i]);
        MinusMinus(old(kv), KeysOf(selected[..i]), KeyOf(selected[i]));
        Delete(selected[i].name, selected[i].namespace, selected[i].orgId);
      }
      assert selected[..|selected|] == selected;
    }
  }

  lemma MinusMinus(kv: Store, keys: set<Key>, k: Key)
    ensures kv - keys - {k} == kv - (keys + {k})
  {}

  lemma AppendKey(revs: seq<Revision>, r: Revision)
    ensures KeysOf(revs + [r]) == KeysOf(revs) + {KeyOf(r)}
    ensures DistinctKeys(revs) && KeyOf(r) !in KeysOf(revs) ==> DistinctKeys(revs + [r])
  {
    if DistinctKeys(revs) && KeyOf(r) !in KeysOf(revs) {
      forall i | 0 <= i < |revs| ensures KeyOf(revs[i]) != KeyOf(r) {
        assert revs[i] in revs;
      }
    }
  }

  /** The lookup's results come from the owned revisions in this order. */
  ghost predicate FoundFrom(kv: Store, d: Deployment, name: string, now: int, sorted: seq<Revision>,
                            newRev: Option<Revision>, oldRevs: seq<Revision>) {
    && Lists(kv, d, sorted) && NewestFirst(sorted)
    && newRev == NewOf(d, sorted, name, now)
    && (newRev.Some? ==> oldRevs == Others(sorted, newRev.value))
  }

  /** The current revision and the others, from the owned revisions sorted newest first. */
  method GetNewAndOldRevisions(repo: RevisionRepo, d: Deployment, name: string, now: int)
    returns (newRev: Option<Revision>, oldRevs: seq<Revision>, ghost sorted: seq<Revision>)
    requires ValidStore(repo.kv)
    ensures FoundFrom(repo.kv, d, name, now, sorted, newRev, oldRevs)
    ensures exists s :: FoundFrom(repo.kv, d, name, now, s, newRev, oldRevs)
  {
    hide Lists, NewestFirst, CompareRevisions, CompareAppSpecs, BuildRevision, IsValid;
    var all := repo.GetDeploymentOwned(d);
    var a := CopyToArray(all);
    SortNewestFirst(a);
    sorted := a[..];
    ListsPermuted(repo.kv, d, all, sorted);
    oldRevs := [];
    if a.Length != 0 && CompareAppSpecs(d.spec.app, a[0].app) {
      newRev := Some(a[0]);
    } else {
      var built := BuildRevision(d, name, now);
      newRev := if built.Some? && IsValid(built.value) then built else None;
    }
    if newRev.Some? {
      for i := 0 to a.Length
        invariant a[..] == sorted && oldRevs == Others(sorted[..i], newRev.value)
      {
        assert sorted[..i + 1][..i] == sorted[..i];
        if !CompareRevisions(a[i], newRev.value) {
          oldRevs := oldRevs + [a[i]];
        }
      }
      assert sorted[..a.Length] == sorted;
    }
  }
}
