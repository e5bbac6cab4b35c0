/** The revision store's keys as strings, and what its prefix query finds. */
module Keys {
  import opened Revisions

  predicate NoSlash(s: string) {
    '/' !in s
  }

  function KeyString(k: Key): string {
    "revisions/orgs/" + k.orgId + "/" + k.namespace + "/" + k.name
  }

  /** The query for a deployment's revisions; it does not end in a slash. */
  function QueryPrefix(orgId: string, namespace: string): string {
    "revisions/orgs/" + orgId + "/" + namespace
  }

  lemma SegmentsAgree(a: string, x: string, b: string, y: string)
    requires NoSlash(a) && NoSlash(b) && a + "/" + x <= b + "/" + y
    ensures a == b && x <= y
  {
    var l, r := a + "/" + x, b + "/" + y;
    assert forall i | 0 <= i < |l| :: l[i] == r[i];
    SlashIsBehind(b, y, |a|);
    SlashIsBehind(a, x, |b|);
    assert a == l[..|a|] && b == r[..|b|];
    assert x == l[|a| + 1..] && y == r[|b| + 1..];
  }

  lemma SlashIsBehind(b: string, y: string, i: nat)
    requires NoSlash(b) && i < |b + "/" + y|
    ensures (b + "/" + y)[i] == '/' ==> i >= |b|
  {}

  lemma PrefixBeforeSlash(n: string, m: string, rest: string)
    requires NoSlash(n)
    ensures n <= m + "/" + rest <==> n <= m
  {
    var r := m + "/" + rest;
    if n <= r {
      assert forall i | 0 <= i < |n| :: r[i] == n[i] && n[i] in n;
      assert r[|m|] == '/';
      assert n == r[..|n|] == m[..|n|];
    }
  }

  lemma DropCommon(p: string, x: string, y: string)
    ensures p + x <= p + y <==> x <= y
  {
    if p + x <= p + y {
      assert x == (p + x)[|p|..] && y == (p + y)[|p|..];
    }
  }

  /** The prefix query of a deployment finds exactly the keys of its organisation in the
      namespaces that its own namespace is a prefix of, so other namespaces as well. */
  lemma QueryFindsExactly(orgId: string, namespace: string, k: Key)
    requires NoSlash(orgId) && NoSlash(namespace) && NoSlash(k.orgId) && NoSlash(k.namespace)
    ensures QueryPrefix(orgId, namespace) <= KeyString(k) <==> orgId == k.orgId && namespace <= k.namespace
  {
    var tail := k.namespace + "/" + k.name;
    var x, y := orgId + "/" + namespace, k.orgId + "/" + tail;
    assert QueryPrefix(orgId, namespace) == "revisions/orgs/" + x;
    assert KeyString(k) == "revisions/orgs/" + y;
    DropCommon("revisions/orgs/", x, y);
    PrefixBeforeSlash(namespace, k.namespace, k.name);
    if x <= y {
      SegmentsAgree(orgId, namespace, k.orgId, tail);
    } else if orgId == k.orgId {
      DropCommon(orgId + "/", namespace, tail);
      assert x == orgId + "/" + namespace && y == orgId + "/" + tail;
    }
  }

  /** Different revisions never share a key. */
  lemma KeysAreDistinct(k: Key, k': Key)
    requires NoSlash(k.orgId) && NoSlash(k.namespace) && NoSlash(k'.orgId) && NoSlash(k'.namespace)
    requires KeyString(k) == KeyString(k')
    ensures k == k'
  {
    var tail, tail' := k.namespace + "/" + k.name, k'.namespace + "/" + k'.name;
    assert KeyString(k) == "revisions/orgs/" + (k.orgId + "/" + tail);
    assert KeyString(k') == "revisions/orgs/" + (k'.orgId + "/" + tail');
    DropCommon("revisions/orgs/", k.orgId + "/" + tail, k'.orgId + "/" + tail');
    DropCommon("revisions/orgs/", k'.orgId + "/" + tail', k.orgId + "/" + tail);
    SegmentsAgree(k.orgId, tail, k'.orgId, tail');
    SegmentsAgree(k'.orgId, tail', k.orgId, tail);
    assert tail == tail';
    SegmentsAgree(k.namespace, k.name, k'.namespace, k'.name);
    SegmentsAgree(k'.namespace, k'.name, k.namespace, k.name);
  }
}
