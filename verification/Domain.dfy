/** Values shared by the whole model: labels, apps, app specs and revisions, and the
    comparisons the controller makes between them. */
module Domain {

  type Labels = map<string, string>

  datatype Option<+T> = None | Some(value: T)

  /** A container is named after its revision with a unique suffix; the suffix is the
      serial number of the start call that created it. */
  datatype ContainerName = ContainerName(revision: string, serial: nat)

  datatype App = App(name: ContainerName, labels: Labels)

  datatype SyscallRule = SyscallRule(names: seq<string>, action: string)

  datatype SeccompProfile = SeccompProfile(version: string, defaultAction: string, syscalls: seq<SyscallRule>)

  datatype AppSpec = AppSpec(
    name: string,
    namespace: string,
    orgId: string,
    labels: Labels,
    quotas: map<string, real>,
    profile: SeccompProfile,
    strategy: string)

  datatype Revision = Revision(
    name: string,
    namespace: string,
    orgId: string,
    timestamp: int,
    labels: Labels,
    selector: Labels,
    app: AppSpec)

  /** Every label of `parent` is a label of `child`, with the same value. */
  predicate MatchLabels(child: Labels, parent: Labels) {
    forall k | k in parent :: k in child && child[k] == parent[k]
  }

  /** What reading a missing key of a Go map of numbers yields. */
  function QuotaOf(m: map<string, real>, k: string): real {
    if k in m then m[k] else 0.0
  }

  predicate CompareFloatMaps(a: map<string, real>, b: map<string, real>) {
    |a| == |b| && forall k | k in a :: QuotaOf(b, k) == a[k]
  }

  predicate CompareAppSpecs(a: AppSpec, other: AppSpec) {
    && a.name == other.name
    && a.namespace == other.namespace
    && a.orgId == other.orgId
    && a.strategy == other.strategy
    && a.profile.defaultAction == other.profile.defaultAction
    && MatchLabels(other.labels, a.labels)
    && CompareFloatMaps(a.quotas, other.quotas)
    && a.profile.syscalls == other.profile.syscalls
  }

  predicate CompareRevisions(r: Revision, other: Revision) {
    && r.name == other.name
    && r.namespace == other.namespace
    && r.orgId == other.orgId
    && MatchLabels(r.selector, other.selector)
    && CompareAppSpecs(r.app, other.app)
  }

  /** The resources a quota can be given for. */
  const SUPPORTED := {"mem", "cpu", "disk"}

  ghost predicate HasNoZeroQuota(a: map<string, real>) {
    forall k | k in a :: a[k] != 0.0
  }

  /** The quota comparison, which reads a missing key as zero, tells a map of supported quotas
      from every other one exactly when no quota is zero, or when all supported quotas are
      given, so that no other map has as many. */
  lemma QuotaComparisonIsExactWhen(a: map<string, real>)
    requires a.Keys <= SUPPORTED
    ensures (forall b: map<string, real> | b.Keys <= SUPPORTED :: CompareFloatMaps(a, b) <==> a == b)
       <==> HasNoZeroQuota(a) || a.Keys == SUPPORTED
  {
    hide CompareFloatMaps;
    if HasNoZeroQuota(a) || a.Keys == SUPPORTED {
      forall b: map<string, real> | b.Keys <= SUPPORTED
        ensures CompareFloatMaps(a, b) <==> a == b
      {
        SameQuotas(a, b);
      }
    } else {
      var b := Mistaken(a);
    }
  }

  lemma SameQuotas(a: map<string, real>, b: map<string, real>)
    requires a.Keys <= SUPPORTED && b.Keys <= SUPPORTED
    requires HasNoZeroQuota(a) || a.Keys == SUPPORTED
    ensures CompareFloatMaps(a, b) <==> a == b
  {
    if CompareFloatMaps(a, b) {
      if HasNoZeroQuota(a) {
        assert a.Keys <= b.Keys;
        SubsetOfSameSize(a.Keys, b.Keys);
      } else {
        SubsetOfSameSize(b.Keys, a.Keys);
      }
    }
  }

  /** A map in which a missing resource takes the place of a zero quota compares equal. */
  lemma Mistaken(a: map<string, real>) returns (b: map<string, real>)
    requires a.Keys <= SUPPORTED && !HasNoZeroQuota(a) && a.Keys != SUPPORTED
    ensures b.Keys <= SUPPORTED && CompareFloatMaps(a, b) && a != b
  {
    var k :| k in a && a[k] == 0.0;
    assert SUPPORTED == (SUPPORTED - a.Keys) + a.Keys;
    var spare :| spare in SUPPORTED - a.Keys;
    b := (a - {k})[spare := 1.0];
    assert b.Keys == a.Keys - {k} + {spare};
    assert |a.Keys - {k}| == |a.Keys| - 1;
  }

  /** A match leaves nothing open: the two specs are the same up to the labels, where the other
      one may have more, the quotas, and the version of the seccomp profile. */
  lemma MatchExactlyWhen(a: AppSpec, other: AppSpec)
    ensures CompareAppSpecs(a, other)
       <==> && other == a.(labels := other.labels, quotas := other.quotas,
                           profile := a.profile.(version := other.profile.version))
            && (forall k | k in a.labels :: k in other.labels && other.labels[k] == a.labels[k])
            && CompareFloatMaps(a.quotas, other.quotas)
  {
    hide CompareFloatMaps;
  }

  /** Two revisions compare equal exactly if they have one key, the other's selector is part of
      this one's, and their app specs match. */
  lemma RevisionsMatchExactlyWhen(r: Revision, other: Revision)
    ensures CompareRevisions(r, other)
       <==> && other == r.(timestamp := other.timestamp, labels := other.labels,
                           selector := other.selector, app := other.app)
            && (forall k | k in other.selector :: k in r.selector && r.selector[k] == other.selector[k])
            && CompareAppSpecs(r.app, other.app)
  {
    hide CompareAppSpecs;
  }

  lemma SubsetOfSameSize<T>(s: set<T>, t: set<T>)
    requires s <= t && |s| == |t|
    ensures s == t
  {
    assert t == s + (t - s);
    assert |t - s| == 0;
  }

  lemma SubsetSize<T>(s: set<T>, t: set<T>)
    requires s <= t
    ensures |s| <= |t|
  {
    assert t == s + (t - s);
  }
}
