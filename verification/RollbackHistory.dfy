/** What a rollback leaves in the revision store, and that it takes effect. */
module RollbackHistory {
  import opened Domain
  import opened Deployments
  import opened Revisions
  import opened Rollback
  import Runtime

  // ---------- the list a rollback chooses from ----------

  lemma RevisionComparesToItself(r: Revision)
    ensures CompareRevisions(r, r) && CompareAppSpecs(r.app, r.app)
  {}

  lemma {:induction false} OthersOfNewest(revs: seq<Revision>, n: nat)
    requires DistinctKeys(revs) && 0 < n <= |revs|
    ensures Others(revs[..n], revs[0]) == revs[1..n]
  {
    hide CompareRevisions;
    if n == 1 {
      RevisionComparesToItself(revs[0]);
      assert revs[..1][..0] == [];
    } else {
      OthersOfNewest(revs, n - 1);
      assert revs[..n][..n - 1] == revs[..n - 1];
      DifferentKeysDiffer(revs[n - 1], revs[0]);
    }
  }

  lemma {:induction false} OthersOfUnstored(revs: seq<Revision>, r: Revision)
    requires KeyOf(r) !in KeysOf(revs)
    ensures Others(revs, r) == revs
  {
    hide CompareRevisions;
    if revs != [] {
      var front, last := revs[..|revs| - 1], revs[|revs| - 1];
      assert revs == front + [last];
      AppendKey(front, last);
      OthersOfUnstored(front, r);
      DifferentKeysDiffer(last, r);
    }
  }

  lemma DifferentKeysDiffer(r: Revision, other: Revision)
    requires KeyOf(r) != KeyOf(other)
    ensures !CompareRevisions(r, other)
  {}

  lemma KeysOfPermuted(a: seq<Revision>, b: seq<Revision>)
    requires multiset(a) == multiset(b)
    ensures KeysOf(a) == KeysOf(b) && |a| == |b|
  {
    assert |multiset(a)| == |multiset(b)|;
    forall r ensures r in a <==> r in b {
      assert r in multiset(a) <==> r in multiset(b);
    }
  }

  lemma {:induction false} DistinctKeysCount(revs: seq<Revision>)
    requires DistinctKeys(revs)
    ensures |KeysOf(revs)| == |revs|
  {
    if revs != [] {
      var front, last := revs[..|revs| - 1], revs[|revs| - 1];
      DistinctKeysCount(front);
      assert revs == front + [last];
      AppendKey(front, last);
      assert KeyOf(last) !in KeysOf(front);
    }
  }

  /** The current revision is in the store, or was built because none matched. */
  ghost predicate IsStored(kv: Store, current: Revision) {
    KeyOf(current) in kv && kv[KeyOf(current)] == current
  }

  /** The list holds the owned revisions and the current one, each once. */
  ghost predicate HoldsAll(kv: Store, d: Deployment, current: Revision, all: seq<Revision>) {
    && DistinctKeys(all)
    && KeysOf(all) == OwnedKeys(kv, d) + {KeyOf(current)}
    && (KeyOf(current) in OwnedKeys(kv, d) <==> IsStored(kv, current))
    && (KeyOf(current) in kv ==> IsStored(kv, current))
  }

  lemma NewestIsHeld(kv: Store, d: Deployment, sorted: seq<Revision>)
    requires Lists(kv, d, sorted) && sorted != []
    ensures HoldsAll(kv, d, sorted[0], sorted[1..] + [sorted[0]])
  {
    var list := sorted[1..] + [sorted[0]];
    assert sorted == [sorted[0]] + sorted[1..];
    assert multiset(list) == multiset(sorted);
    DistinctPermuted(sorted, list);
    KeysOfPermuted(sorted, list);
    assert sorted[0] in sorted;
  }

  lemma UnstoredIsHeld(kv: Store, d: Deployment, sorted: seq<Revision>, current: Revision)
    requires Lists(kv, d, sorted) && KeyOf(current) !in kv
    ensures HoldsAll(kv, d, current, sorted + [current])
  {
    AppendKey(sorted, current);
  }

  lemma HeldPermuted(kv: Store, d: Deployment, current: Revision, a: seq<Revision>, b: seq<Revision>)
    requires HoldsAll(kv, d, current, a) && multiset(a) == multiset(b)
    ensures HoldsAll(kv, d, current, b)
  {
    DistinctPermuted(a, b);
    KeysOfPermuted(a, b);
  }

  /** The names a rollback gives out are new. */
  ghost predicate NewNamed(kv: Store, d: Deployment, r: Rolled) {
    && Key(d.orgId, d.namespace, r.builtName) !in kv
    && KeyOf(r.copy) !in kv && KeyOf(r.copy) != KeyOf(r.current)
  }

  lemma ChosenListHoldsAll(kv: Store, d: Deployment, now: int, r: Rolled)
    requires ChoosesFrom(kv, d, now, r)
    requires Key(d.orgId, d.namespace, r.builtName) !in kv
    ensures HoldsAll(kv, d, r.current, r.all) && (IsStored(kv, r.current) <==> MatchesSpec(d, r.sorted))
    ensures !r.unnamed ==> r.all != [] && r.all[|r.all| - 1] == r.current
  {
    hide HoldsAll, NewestFirst, IsValid, CompareAppSpecs, CompareRevisions;
    var sorted, current := r.sorted, r.current;
    var list := Others(sorted, current) + [current];
    if MatchesSpec(d, sorted) {
      InStore(kv, d, sorted);
      NewestOthers(kv, d, sorted);
      NewestIsHeld(kv, d, sorted);
    } else {
      assert KeyOf(current) == Key(d.orgId, d.namespace, r.builtName);
      NotListed(kv, d, sorted, current);
      OthersOfUnstored(sorted, current);
      UnstoredIsHeld(kv, d, sorted, current);
    }
    if r.unnamed {
      HeldPermuted(kv, d, current, list, r.all);
    }
  }

  lemma InStore(kv: Store, d: Deployment, sorted: seq<Revision>)
    requires Lists(kv, d, sorted) && sorted != []
    ensures IsStored(kv, sorted[0])
  {}

  lemma NewestOthers(kv: Store, d: Deployment, sorted: seq<Revision>)
    requires Lists(kv, d, sorted) && sorted != []
    ensures Others(sorted, sorted[0]) == sorted[1..]
  {
    OthersOfNewest(sorted, |sorted|);
    assert sorted[..|sorted|] == sorted && sorted[1..|sorted|] == sorted[1..];
  }

  lemma NotListed(kv: Store, d: Deployment, sorted: seq<Revision>, r: Revision)
    requires Lists(kv, d, sorted) && KeyOf(r) !in kv
    ensures KeyOf(r) !in KeysOf(sorted)
  {}

  // ---------- what is left after pruning ----------

  lemma OwnedAfter(kv: Store, d: Deployment, copy: Revision, gone: set<Key>)
    ensures OwnedKeys(kv[KeyOf(copy) := copy] - gone, d)
         == OwnedKeys(kv - {KeyOf(copy)}, d) + (if Owns(d, copy) then {KeyOf(copy)} else {}) - gone
  {
    hide Owns;
  }

  lemma {:induction false} KeysSplit(revs: seq<Revision>, m: nat)
    requires DistinctKeys(revs) && m <= |revs|
    ensures KeysOf(revs) - KeysOf(revs[m..]) == KeysOf(revs[..m])
  {
    assert revs == revs[..m] + revs[m..];
    forall k | k in KeysOf(revs[..m]) ensures k !in KeysOf(revs[m..]) {
      var r :| r in revs[..m] && KeyOf(r) == k;
      var i :| 0 <= i < m && revs[i] == r;
      forall q | q in revs[m..] ensures KeyOf(q) != k {
        var j :| 0 <= j < |revs| - m && revs[m..][j] == q;
        assert revs[m + j] == q;
      }
    }
  }

  lemma NothingPruned(all: seq<Revision>, copy: Revision)
    requires DistinctKeys(all) && |all| >= 2
    ensures KeysOf(all) + {KeyOf(copy)} == KeysOf(all[..|all|]) + {KeyOf(all[1])} + {KeyOf(copy)}
  {
    assert all[..|all|] == all && all[1] in all;
  }

  lemma PrunedBehindTheCopy(all: seq<Revision>, copy: Revision, limit: int)
    requires DistinctKeys(all) && KeyOf(copy) !in KeysOf(all) && 3 <= limit <= |all|
    ensures KeysOf(all) + {KeyOf(copy)} - KeysOf(all[1 := copy][limit - 1..])
         == KeysOf(all[..limit - 1]) + {KeyOf(all[1])} + {KeyOf(copy)}
  {
    assert all[1 := copy][limit - 1..] == all[limit - 1..];
    KeysSplit(all, limit - 1);
    assert all[1] in all[..limit - 1];
    assert forall r | r in all[limit - 1..] :: r in all;
  }

  lemma CopyPruned(all: seq<Revision>, copy: Revision)
    requires DistinctKeys(all) && KeyOf(copy) !in KeysOf(all) && |all| >= 2
    ensures KeysOf(all) + {KeyOf(copy)} - KeysOf(all[1 := copy][1..]) == KeysOf(all[..1]) + {KeyOf(all[1])}
  {
    assert all[1 := copy][1..] == [copy] + all[2..];
    KeysSplit(all, 2);
    assert all[..2] == all[..1] + [all[1]];
    AppendKey(all[..1], all[1]);
  }

  lemma AllButSourcePruned(all: seq<Revision>, copy: Revision)
    requires DistinctKeys(all) && KeyOf(copy) !in KeysOf(all) && |all| >= 2
    ensures KeysOf(all) + {KeyOf(copy)} - KeysOf(all[1 := copy][0..]) == KeysOf(all[..0]) + {KeyOf(all[1])}
  {
    CopyPruned(all, copy);
    assert all[1 := copy][0..] == [all[0]] + all[1 := copy][1..];
    assert all[..1] == [all[0]];
  }

  lemma NamedPruned(all: seq<Revision>, copy: Revision, limit: int)
    requires DistinctKeys(all) && KeyOf(copy) !in KeysOf(all) && 1 <= limit <= |all|
    ensures KeysOf(all) + {KeyOf(copy)} - KeysOf(all[limit - 1..]) == KeysOf(all[..limit - 1]) + {KeyOf(copy)}
  {
    KeysSplit(all, limit - 1);
    assert KeysOf(all[limit - 1..]) <= KeysOf(all);
  }

  /** How many revisions of the list are kept in front. */
  function Front(all: seq<Revision>, limit: int): (m: nat)
    ensures m <= |all|
  {
    if limit <= 0 then |all| else Runtime.Min(|all|, limit - 1)
  }

  /** The kept revisions of the list a rollback chose from; on the unnamed path always the one
      rolled back to as well, whose slot holds the copy when the rest is deleted. */
  function KeptKeys(r: Rolled, limit: int): set<Key>
    requires r.unnamed ==> |r.all| >= 2
  {
    KeysOf(r.all[..Front(r.all, limit)]) + if r.unnamed then {KeyOf(r.all[1])} else {}
  }

  /** Without a name and with a limit of one or two the copy is deleted again. */
  predicate DropsCopy(r: Rolled, limit: int) {
    r.unnamed && 1 <= limit <= 2
  }

  lemma KeptSlots(r: Rolled, limit: int)
    requires DistinctKeys(r.all) && KeyOf(r.copy) !in KeysOf(r.all) && (r.unnamed ==> |r.all| >= 2)
    ensures KeysOf(r.all) + {KeyOf(r.copy)} - KeysOf(PrunedSlots(Slots(r.all, r.unnamed, r.copy), limit))
         == KeptKeys(r, limit) + if DropsCopy(r, limit) then {} else {KeyOf(r.copy)}
  {
    hide KeysOf, DistinctKeys;
    var all, copy := r.all, r.copy;
    assert KeysOf([]) == {} by { NoKeys(); }
    if limit <= 0 || |all| < limit {
      assert all[..|all|] == all;
      if r.unnamed {
        NothingPruned(all, copy);
      }
    } else if !r.unnamed {
      NamedPruned(all, copy, limit);
    } else if limit >= 3 {
      PrunedBehindTheCopy(all, copy, limit);
    } else if limit == 2 {
      CopyPruned(all, copy);
    } else {
      AllButSourcePruned(all, copy);
    }
  }

  lemma NoKeys()
    ensures KeysOf([]) == {}
  {}

  /** Who survives a rollback, for every limit, whether or not the current revision was in the
      store and whoever owns the revision rolled back to: of the list it chose from the first
      limit - 1 revisions, without a name also the one rolled back to, and the copy if it is
      owned, unless it was deleted again right after it was saved; the current revision only
      if it had been stored. */
  lemma RollbackSurvivors(kv: Store, kv': Store, d: Deployment, d': Deployment, now: int, r: Rolled)
    requires ChoosesFrom(kv, d, now, r) && RolledBack(kv, kv', d, d', r) && NewNamed(kv, d, r)
    ensures var limit := d.spec.revisionLimit.value;
            OwnedKeys(kv', d) == KeptKeys(r, limit)
                               + (if Owns(d, r.copy) && !DropsCopy(r, limit) then {KeyOf(r.copy)} else {})
                               - (if MatchesSpec(d, r.sorted) then {} else {KeyOf(r.current)})
    ensures HoldsAll(kv, d, r.current, r.all)
  {
    hide HoldsAll, Owns, MatchesSpec, OwnedKeys, KeptKeys, KeysOf, DistinctKeys, IsStored, ChoosesFrom, PrunedSlots,
         Slots, RolledBack, DropsCopy;
    assert d.spec.revisionLimit.Some? && (r.unnamed ==> |r.all| >= 2) by { RolledBackFacts(kv, kv', d, d', r); }
    var limit := d.spec.revisionLimit.value;
    var gone := KeysOf(PrunedSlots(Slots(r.all, r.unnamed, r.copy), limit));
    ChosenListHoldsAll(kv, d, now, r);
    HeldFacts(kv, d, r.current, r.all, r.copy);
    OwnedAfterPruning(kv, kv', d, d', r);
    KeptSlots(r, limit);
    KeptAreListed(r, limit);
    SurvivingSets(OwnedKeys(kv, d), KeysOf(r.all), gone, KeptKeys(r, limit), KeyOf(r.copy), KeyOf(r.current),
                  MatchesSpec(d, r.sorted), Owns(d, r.copy), DropsCopy(r, limit));
  }

  lemma RolledBackFacts(kv: Store, kv': Store, d: Deployment, d': Deployment, r: Rolled)
    requires RolledBack(kv, kv', d, d', r)
    ensures d.spec.revisionLimit.Some? && (r.unnamed ==> |r.all| >= 2)
  {}

  lemma OwnedAfterPruning(kv: Store, kv': Store, d: Deployment, d': Deployment, r: Rolled)
    requires RolledBack(kv, kv', d, d', r) && KeyOf(r.copy) !in kv
    ensures OwnedKeys(kv', d) == OwnedKeys(kv, d) + (if Owns(d, r.copy) then {KeyOf(r.copy)} else {})
                               - KeysOf(PrunedSlots(Slots(r.all, r.unnamed, r.copy), d.spec.revisionLimit.value))
  {
    hide Owns, OwnedKeys, PrunedSlots, Slots, KeysOf, CopyOf, RollbackStates, InNamespace;
    OwnedAfter(kv, d, r.copy, KeysOf(PrunedSlots(Slots(r.all, r.unnamed, r.copy), d.spec.revisionLimit.value)));
    assert kv - {KeyOf(r.copy)} == kv;
  }

  lemma SurvivingSets<T>(owned: set<T>, all: set<T>, gone: set<T>, kept: set<T>, copy: T, current: T,
                         stored: bool, owns: bool, drops: bool)
    requires all == owned + {current} && (current in owned <==> stored) && copy !in all && kept <= all
    requires all + {copy} - gone == kept + if drops then {} else {copy}
    ensures owned + (if owns then {copy} else {}) - gone
         == kept + (if owns && !drops then {copy} else {}) - if stored then {} else {current}
  {
    assert forall k | k in all :: k !in gone <==> k in kept;
    assert copy !in gone <==> !drops;
  }

  /** Without a name and with the current revision stored, these are the newest
      min(n, limit - 1) revisions, the one rolled back to, and the copy from a limit of three
      on. */
  lemma UnnamedSurvivors(kv: Store, kv': Store, d: Deployment, d': Deployment, now: int, r: Rolled)
    requires ChoosesFrom(kv, d, now, r) && RolledBack(kv, kv', d, d', r) && NewNamed(kv, d, r)
    requires r.unnamed && MatchesSpec(d, r.sorted) && d.spec.revisionLimit.value >= 1
    ensures NewestFirst(r.all) && KeysOf(r.all) == OwnedKeys(kv, d) && |r.all| == |OwnedKeys(kv, d)|
    ensures var limit := d.spec.revisionLimit.value;
            OwnedKeys(kv', d) == KeysOf(r.all[..Runtime.Min(|r.all|, limit - 1)]) + {KeyOf(r.source)}
                               + if limit >= 3 && Owns(d, r.copy) then {KeyOf(r.copy)} else {}
  {
    hide HoldsAll, Owns, MatchesSpec, OwnedKeys, KeysOf, DistinctKeys, IsStored, Lists, NewestFirst, Others, NewOf,
         Pruned;
    RollbackSurvivors(kv, kv', d, d', now, r);
    ChosenListHoldsAll(kv, d, now, r);
    HeldFacts(kv, d, r.current, r.all, r.copy);
  }

  lemma KeptAreListed(r: Rolled, limit: int)
    requires r.unnamed ==> |r.all| >= 2
    ensures KeptKeys(r, limit) <= KeysOf(r.all)
  {
    assert forall x | x in r.all[..Front(r.all, limit)] :: x in r.all;
  }

  lemma HeldFacts(kv: Store, d: Deployment, current: Revision, all: seq<Revision>, copy: Revision)
    requires HoldsAll(kv, d, current, all) && KeyOf(copy) !in kv && KeyOf(copy) != KeyOf(current)
    ensures DistinctKeys(all) && KeyOf(copy) !in KeysOf(all) && KeyOf(copy) !in OwnedKeys(kv, d)
    ensures KeysOf(all) == OwnedKeys(kv, d) + {KeyOf(current)}
    ensures KeyOf(current) in OwnedKeys(kv, d) <==> IsStored(kv, current)
    ensures |all| == |OwnedKeys(kv, d)| + if IsStored(kv, current) then 0 else 1
  {
    hide Owns;
    DistinctKeysCount(all);
    if IsStored(kv, current) {
      assert KeysOf(all) == OwnedKeys(kv, d);
    }
  }

  // ---------- how many survive ----------

  lemma KeptCount(r: Rolled, limit: int)
    requires DistinctKeys(r.all) && (r.unnamed ==> |r.all| >= 2)
    ensures |KeptKeys(r, limit)| == Front(r.all, limit) + if DropsCopy(r, limit) then 1 else 0
  {
    var m := Front(r.all, limit);
    var front := r.all[..m];
    DistinctKeysCount(front);
    if r.unnamed {
      if m >= 2 {
        assert front[1] in front;
        assert KeptKeys(r, limit) == KeysOf(front);
      } else {
        forall q | q in front ensures KeyOf(q) != KeyOf(r.all[1]) {
          assert q == r.all[0];
        }
        assert KeyOf(r.all[1]) !in KeysOf(front);
      }
    }
  }

  /** How many revisions a rollback should leave: the copy is one more, up to the limit. */
  function Due(n: nat, limit: int): int {
    if limit <= 0 then n + 1 else Runtime.Min(n + 1, limit)
  }

  /** The current revision was stored, or nothing is pruned, or it is among the pruned. */
  predicate CurrentCounts(kv: Store, d: Deployment, r: Rolled, limit: int)
    requires r.unnamed ==> |r.all| >= 2
  {
    MatchesSpec(d, r.sorted) || limit <= 0 || |r.all| < limit || KeyOf(r.current) !in KeptKeys(r, limit)
  }

  predicate CopyCounts(d: Deployment, r: Rolled, limit: int) {
    Owns(d, r.copy) || DropsCopy(r, limit)
  }

  /** How many owned revisions a rollback leaves: the due number, with one fewer if a current
      revision that was not in the store kept a place, and one fewer if the copy belongs to
      another deployment. */
  lemma RollbackLeaves(kv: Store, kv': Store, d: Deployment, d': Deployment, now: int, r: Rolled)
    requires ChoosesFrom(kv, d, now, r) && RolledBack(kv, kv', d, d', r) && NewNamed(kv, d, r)
    ensures var limit := d.spec.revisionLimit.value;
            |OwnedKeys(kv', d)| == Due(|OwnedKeys(kv, d)|, limit)
                                   - (if CurrentCounts(kv, d, r, limit) then 0 else 1)
                                   - (if CopyCounts(d, r, limit) then 0 else 1)
  {
    hide HoldsAll, Owns, MatchesSpec, OwnedKeys, KeptKeys, KeysOf, DistinctKeys, IsStored, ChoosesFrom, RolledBack;
    assert d.spec.revisionLimit.Some? && (r.unnamed ==> |r.all| >= 2) by { RolledBackFacts(kv, kv', d, d', r); }
    var limit := d.spec.revisionLimit.value;
    RollbackSurvivors(kv, kv', d, d', now, r);
    ChosenListHoldsAll(kv, d, now, r);
    HeldFacts(kv, d, r.current, r.all, r.copy);
    KeptCount(r, limit);
    KeptAreListed(r, limit);
    SurvivingCount(KeptKeys(r, limit), KeyOf(r.copy), KeyOf(r.current),
                   Owns(d, r.copy) && !DropsCopy(r, limit), MatchesSpec(d, r.sorted));
    if !MatchesSpec(d, r.sorted) && (limit <= 0 || |r.all| < limit) {
      assert KeyOf(r.current) in KeptKeys(r, limit) by { AllKept(r, limit); }
    }
  }

  lemma SurvivingCount<T>(kept: set<T>, copy: T, current: T, survives: bool, stored: bool)
    requires copy !in kept && copy != current
    ensures |kept + (if survives then {copy} else {}) - (if stored then {} else {current})|
         == |kept| + (if survives then 1 else 0) - if !stored && current in kept then 1 else 0
  {
    var left := kept - if stored then {} else {current};
    assert kept + (if survives then {copy} else {}) - (if stored then {} else {current})
        == left + if survives then {copy} else {};
  }

  lemma AllKept(r: Rolled, limit: int)
    requires (r.unnamed ==> |r.all| >= 2) && (limit <= 0 || |r.all| < limit)
    ensures KeptKeys(r, limit) == KeysOf(r.all)
  {
    assert r.all[..|r.all|] == r.all;
    assert r.unnamed ==> r.all[1] in r.all;
  }

  /** Whether a built current revision keeps a place can be told before the call when the
      clock is past the owned revisions' times: it does exactly on the unnamed path, with a
      limit other than one that the due number reaches. */
  lemma CurrentCountsExactlyWhen(kv: Store, d: Deployment, now: int, r: Rolled)
    requires ChoosesFrom(kv, d, now, r) && Key(d.orgId, d.namespace, r.builtName) !in kv
    requires r.unnamed ==> |r.all| >= 2
    requires r.unnamed ==> forall k | k in OwnedKeys(kv, d) :: kv[k].timestamp < now
    ensures forall limit ::
              (CurrentCounts(kv, d, r, limit)
               <==> || MatchesSpec(d, r.sorted) || limit <= 0 || |OwnedKeys(kv, d)| + 1 < limit
                    || !r.unnamed || limit == 1)
  {
    hide HoldsAll, KeptKeys, KeysOf, DistinctKeys, OwnedKeys, IsStored, ChoosesFrom, MatchesSpec;
    ChosenListHoldsAll(kv, d, now, r);
    if !MatchesSpec(d, r.sorted) {
      UnstoredCount(kv, d, r);
      forall limit | 1 <= limit <= |r.all|
        ensures KeyOf(r.current) in KeptKeys(r, limit) <==> r.unnamed && limit != 1
      {
        if r.unnamed {
          BuiltIsFirst(kv, d, now, r);
          FirstIsKept(kv, d, r, limit);
        } else {
          LastIsPruned(kv, d, r, limit);
        }
      }
    }
  }

  lemma UnstoredCount(kv: Store, d: Deployment, r: Rolled)
    requires HoldsAll(kv, d, r.current, r.all) && !IsStored(kv, r.current)
    ensures |r.all| == |OwnedKeys(kv, d)| + 1
  {
    hide Owns;
    DistinctKeysCount(r.all);
  }

  lemma BuiltIsFirst(kv: Store, d: Deployment, now: int, r: Rolled)
    requires ChoosesFrom(kv, d, now, r) && HoldsAll(kv, d, r.current, r.all) && !MatchesSpec(d, r.sorted)
    requires r.unnamed && r.all != []
    requires forall k | k in OwnedKeys(kv, d) :: kv[k].timestamp < now
    ensures r.all[0] == r.current
  {
    hide MatchesSpec, IsValid, Owns, HoldsAll, CompareRevisions;
    var list := Others(r.sorted, r.current) + [r.current];
    assert list[|list| - 1] in multiset(r.all);
    var i :| 0 <= i < |r.all| && r.all[i] == r.current;
    if i > 0 {
      assert r.all[0].timestamp >= now;
      FirstElsewhere(kv, d, now, r, i);
    }
  }

  lemma FirstElsewhere(kv: Store, d: Deployment, now: int, r: Rolled, i: nat)
    requires ChoosesFrom(kv, d, now, r) && HoldsAll(kv, d, r.current, r.all)
    requires 0 < i < |r.all| && r.all[i] == r.current && r.unnamed
    requires forall k | k in OwnedKeys(kv, d) :: kv[k].timestamp < now
    ensures r.all[0].timestamp < now
  {
    hide MatchesSpec, IsValid, Owns, NewOf, CompareRevisions, Others;
    var list := Others(r.sorted, r.current) + [r.current];
    assert r.all[0] in multiset(list);
    assert KeyOf(r.all[0]) != KeyOf(r.current);
    OthersAreListed(r.sorted, r.current);
    assert r.all[0] in r.sorted;
    assert KeyOf(r.all[0]) in KeysOf(r.sorted);
  }

  lemma {:induction false} OthersAreListed(revs: seq<Revision>, current: Revision)
    ensures forall r | r in Others(revs, current) :: r in revs
  {
    hide CompareRevisions;
    if revs != [] {
      OthersAreListed(revs[..|revs| - 1], current);
    }
  }

  lemma FirstIsKept(kv: Store, d: Deployment, r: Rolled, limit: int)
    requires HoldsAll(kv, d, r.current, r.all) && r.unnamed && |r.all| >= 2
    requires r.all[0] == r.current && 1 <= limit <= |r.all|
    ensures KeyOf(r.current) in KeptKeys(r, limit) <==> limit != 1
  {
    var front := r.all[..Front(r.all, limit)];
    if limit == 1 {
      assert front == [];
    } else {
      assert front[0] in front;
    }
  }

  lemma LastIsPruned(kv: Store, d: Deployment, r: Rolled, limit: int)
    requires HoldsAll(kv, d, r.current, r.all) && !r.unnamed && 1 <= limit <= |r.all|
    requires r.all[|r.all| - 1] == r.current
    ensures KeyOf(r.current) !in KeptKeys(r, limit)
  {
    var front := r.all[..limit - 1];
    forall q | q in front ensures KeyOf(q) != KeyOf(r.current) {
      var i :| 0 <= i < |front| && front[i] == q;
      assert r.all[i] == q;
    }
  }

  /** A named rollback leaves the due number exactly when the named revision's copy belongs to
      the deployment, and otherwise always one fewer. */
  lemma NamedRollbackLeaves(kv: Store, kv': Store, d: Deployment, d': Deployment, now: int, r: Rolled)
    requires ChoosesFrom(kv, d, now, r) && RolledBack(kv, kv', d, d', r) && NewNamed(kv, d, r) && !r.unnamed
    ensures var due := Due(|OwnedKeys(kv, d)|, d.spec.revisionLimit.value);
            |OwnedKeys(kv', d)| == if Owns(d, r.copy) then due else due - 1
  {
    hide ChoosesFrom, Owns, OwnedKeys, RolledBack, CurrentCounts, MatchesSpec;
    RollbackLeaves(kv, kv', d, d', now, r);
    CurrentCountsExactlyWhen(kv, d, now, r);
  }

  /** Whether that copy belongs to it can be told before the call. */
  lemma CopyIsOwnedExactlyWhen(d: Deployment, source: Revision, name: string, now: int)
    ensures Owns(d, CopyOf(source, name, now))
       <==> && source.orgId == d.orgId && d.namespace <= source.namespace
            && MatchLabels(source.selector["revision" := name], d.spec.selector)
    ensures Owns(d, source) ==>
              (Owns(d, CopyOf(source, name, now))
               <==> ("revision" in d.spec.selector ==> d.spec.selector["revision"] == name))
  {}

  /** Naming a revision prunes the current one whenever it prunes anything, whatever its age. */
  lemma NamedPrunesCurrent(kv: Store, kv': Store, d: Deployment, d': Deployment, now: int, r: Rolled)
    requires ChoosesFrom(kv, d, now, r) && RolledBack(kv, kv', d, d', r) && NewNamed(kv, d, r) && !r.unnamed
    ensures MatchesSpec(d, r.sorted) ==>
              (KeyOf(r.current) !in OwnedKeys(kv', d) <==> 1 <= d.spec.revisionLimit.value <= |OwnedKeys(kv, d)|)
  {
    hide HoldsAll, Owns, MatchesSpec, OwnedKeys, KeptKeys, KeysOf, DistinctKeys, IsStored, ChoosesFrom, Pruned;
    var limit := d.spec.revisionLimit.value;
    RollbackSurvivors(kv, kv', d, d', now, r);
    ChosenListHoldsAll(kv, d, now, r);
    HeldFacts(kv, d, r.current, r.all, r.copy);
    if 1 <= limit <= |r.all| {
      LastIsPruned(kv, d, r, limit);
    } else {
      AllKept(r, limit);
    }
  }

  // ---------- the rollback takes effect ----------

  /** The saved deployment carries its own name as a label of the app spec. */
  function Saved(d: Deployment): Deployment {
    d.(spec := d.spec.(app := d.spec.app.(labels := d.spec.app.labels["deployment" := d.name])))
  }

  /** After a rollback whose copy survived and is newer than every other owned revision, the
      next lookup returns exactly the copy as current and all other owned revisions as old,
      builds nothing, and the app spec it selects is the source's under the new label. */
  lemma RollbackTakesEffect(kv: Store, kv': Store, d: Deployment, d': Deployment, r: Rolled,
                            sorted: seq<Revision>, builtName: string, now: int)
    requires RolledBack(kv, kv', d, d', r) && Owns(d, r.copy)
    requires KeyOf(r.copy) in kv' && kv'[KeyOf(r.copy)] == r.copy
    requires forall k | k in OwnedKeys(kv', d) && k != KeyOf(r.copy) :: kv'[k].timestamp < r.copy.timestamp
    requires "deployment" in r.source.app.labels && r.source.app.labels["deployment"] == d.name
    requires Lists(kv', Saved(d'), sorted) && NewestFirst(sorted)
    ensures NewOf(Saved(d'), sorted, builtName, now) == Some(r.copy)
    ensures KeysOf(Others(sorted, r.copy)) == OwnedKeys(kv', d) - {KeyOf(r.copy)}
    ensures Saved(d').spec.app == r.source.app.(labels := r.source.app.labels["revision" := r.copy.name])
  {
    hide Pruned, CompareAppSpecs, CompareRevisions, BuildRevision, IsValid, RollbackStates, Slots;
    var copy := r.copy;
    assert Saved(d').spec.app == copy.app by { SavedKeepsApp(d', copy); }
    assert OwnedKeys(kv', Saved(d')) == OwnedKeys(kv', d) by { OwnershipIgnoresApp(kv', d, d'); }
    NewestIsFirst(kv', Saved(d'), sorted, copy);
    RevisionComparesToItself(copy);
    NewestOthers(kv', Saved(d'), sorted);
    assert sorted == [copy] + sorted[1..];
    RestKeys(sorted);
  }

  lemma SavedKeepsApp(d: Deployment, copy: Revision)
    requires d.spec.app == copy.app && "deployment" in copy.app.labels && copy.app.labels["deployment"] == d.name
    ensures Saved(d).spec.app == copy.app
  {
    assert copy.app.labels["deployment" := d.name] == copy.app.labels;
  }

  lemma OwnershipIgnoresApp(kv: Store, d: Deployment, d': Deployment)
    requires d'.orgId == d.orgId && d'.namespace == d.namespace && d'.spec.selector == d.spec.selector
    ensures OwnedKeys(kv, Saved(d')) == OwnedKeys(kv, d)
  {
    hide MatchLabels;
  }

  lemma NewestIsFirst(kv: Store, d: Deployment, sorted: seq<Revision>, r: Revision)
    requires Lists(kv, d, sorted) && NewestFirst(sorted)
    requires KeyOf(r) in OwnedKeys(kv, d) && kv[KeyOf(r)] == r
    requires forall k | k in OwnedKeys(kv, d) && k != KeyOf(r) :: kv[k].timestamp < r.timestamp
    ensures sorted != [] && sorted[0] == r
  {
    hide Owns;
    assert KeyOf(r) in KeysOf(sorted);
    var x :| x in sorted && KeyOf(x) == KeyOf(r);
    var i :| 0 <= i < |sorted| && sorted[i] == x;
    assert x == r;
    var first := sorted[0];
    assert first in sorted && KeyOf(first) in KeysOf(sorted);
    assert KeyOf(first) == KeyOf(r) || first.timestamp < r.timestamp;
  }

  lemma RestKeys(revs: seq<Revision>)
    requires DistinctKeys(revs) && revs != []
    ensures KeysOf(revs[1..]) == KeysOf(revs) - {KeyOf(revs[0])}
  {
    KeysSplit(revs, 1);
    assert revs == revs[..1] + revs[1..] && revs[..1] == [revs[0]];
  }
}
