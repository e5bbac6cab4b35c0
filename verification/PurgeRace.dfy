/** A purge deletes the revisions it has listed, while rollback tasks of the worker's helper may
    save copies and prune: what is left of the deployment's revisions afterwards. */
module PurgeRace {
  import opened Revisions

  /** The purge lists the owned revisions and deletes those it listed; rollbacks save copies
      and prune. The steps of both come in some order. */
  datatype Step = List | Delete(key: Key) | SaveCopy(key: Key) | Prune(key: Key)

  datatype State = State(owned: set<Key>, listed: set<Key>)

  function Do(s: State, step: Step): State {
    match step
    case List => s.(listed := s.owned)
    case Delete(k) => s.(owned := s.owned - {k})
    case SaveCopy(k) => s.(owned := s.owned + {k})
    case Prune(k) => s.(owned := s.owned - {k})
  }

  function Done(owned: set<Key>, steps: seq<Step>): State {
    if steps == [] then State(owned, {}) else Do(Done(owned, steps[..|steps| - 1]), steps[|steps| - 1])
  }

  /** The purge lists once, at `p`; it deletes exactly what it listed, and only afterwards. */
  ghost predicate Purges(owned: set<Key>, steps: seq<Step>, p: nat) {
    && p < |steps| && steps[p].List?
    && (forall i | 0 <= i < |steps| && steps[i].List? :: i == p)
    && (forall i | 0 <= i < |steps| && steps[i].Delete? :: p < i && steps[i].key in Done(owned, steps[..p]).owned)
    && (forall k | k in Done(owned, steps[..p]).owned :: DeletedAfter(steps, k, p))
  }

  ghost predicate DeletedAfter(steps: seq<Step>, k: Key, p: nat) {
    exists i :: p < i < |steps| && steps[i] == Delete(k)
  }

  /** The copies' names are new, and each is saved once. */
  ghost predicate NewCopies(owned: set<Key>, steps: seq<Step>) {
    && (forall i | 0 <= i < |steps| && steps[i].SaveCopy? :: steps[i].key !in owned)
    && (forall i, j | 0 <= i < j < |steps| && steps[i].SaveCopy? && steps[j].SaveCopy? :: steps[i].key != steps[j].key)
  }

  predicate Removes(step: Step, k: Key) {
    step == Delete(k) || step == Prune(k)
  }

  /** Saved by the step at `i`, and not removed by a step from there on up to `n`. */
  ghost predicate Stands(steps: seq<Step>, k: Key, i: int, n: nat) {
    && i < n <= |steps| && (i >= 0 ==> steps[i] == SaveCopy(k))
    && forall j | 0 <= j < n && j > i :: !Removes(steps[j], k)
  }

  /** A revision is stored exactly if it was at first, or was saved, and not removed since. */
  lemma {:induction false} StoredExactlyWhen(owned: set<Key>, steps: seq<Step>, k: Key, n: nat)
    requires n <= |steps|
    ensures k in Done(owned, steps[..n]).owned
       <==> (k in owned && Stands(steps, k, -1, n)) || exists i :: 0 <= i && Stands(steps, k, i, n)
  {
    if n > 0 {
      var last := steps[n - 1];
      StoredExactlyWhen(owned, steps, k, n - 1);
      assert steps[..n][..n - 1] == steps[..n - 1];
      forall i | i < n - 1 ensures Stands(steps, k, i, n) <==> Stands(steps, k, i, n - 1) && !Removes(last, k) {
        assert Stands(steps, k, i, n) ==> !Removes(steps[n - 1], k);
      }
      assert Stands(steps, k, n - 1, n) <==> last == SaveCopy(k);
      assert forall i | Stands(steps, k, i, n) :: i < n - 1 || i == n - 1;
      var m := n - 1;
      if i :| 0 <= i && Stands(steps, k, i, m) {
        assert Stands(steps, k, i, n) <==> !Removes(last, k);
      }
    }
  }

  /** The copy was saved after the purge had listed what it deletes, and its own rollback, or a
      later one, does not prune it. */
  ghost predicate Outlives(steps: seq<Step>, k: Key, p: nat) {
    exists i :: p < i < |steps| && SavedForGood(steps, k, i)
  }

  ghost predicate SavedForGood(steps: seq<Step>, k: Key, i: nat) {
    i < |steps| && steps[i] == SaveCopy(k) && forall j | i < j < |steps| :: steps[j] != Prune(k)
  }

  /** What is listed is not saved after that. */
  lemma ListedIsNotSaved(owned: set<Key>, steps: seq<Step>, p: nat, k: Key)
    requires NewCopies(owned, steps) && p <= |steps| && k in Done(owned, steps[..p]).owned
    ensures forall i | p <= i < |steps| :: steps[i] != SaveCopy(k)
  {
    StoredExactlyWhen(owned, steps, k, p);
    if k !in owned {
      var j :| 0 <= j && Stands(steps, k, j, p);
      assert steps[j].SaveCopy? && steps[j].key == k;
    }
  }

  lemma ListedIsGone(owned: set<Key>, steps: seq<Step>, p: nat, k: Key)
    requires Purges(owned, steps, p) && NewCopies(owned, steps) && k in Done(owned, steps[..p]).owned
    ensures k !in Done(owned, steps).owned && !Outlives(steps, k, p)
  {
    ListedIsNotSaved(owned, steps, p, k);
    StoredExactlyWhen(owned, steps, k, |steps|);
    assert steps[..|steps|] == steps;
    var d :| p < d < |steps| && steps[d] == Delete(k);
    assert Removes(steps[d], k);
    assert forall i | i < d :: !Stands(steps, k, i, |steps|);
  }

  /** What is left after a purge and the rollbacks beside it: exactly the copies that were
      saved after the purge had listed the revisions, and not pruned again. */
  lemma LeftExactlyWhen(owned: set<Key>, steps: seq<Step>, p: nat, k: Key)
    requires Purges(owned, steps, p) && NewCopies(owned, steps)
    ensures k in Done(owned, steps).owned <==> Outlives(steps, k, p)
  {
    StoredExactlyWhen(owned, steps, k, p);
    StoredExactlyWhen(owned, steps, k, |steps|);
    assert steps[..|steps|] == steps;
    if k in Done(owned, steps[..p]).owned {
      ListedIsGone(owned, steps, p, k);
    } else if Outlives(steps, k, p) {
      var i :| p < i < |steps| && SavedForGood(steps, k, i);
      assert Stands(steps, k, i, |steps|);
    } else if k in Done(owned, steps).owned {
      NotListedIsSaved(owned, steps, p, k);
    }
  }

  lemma NotListedIsSaved(owned: set<Key>, steps: seq<Step>, p: nat, k: Key)
    requires Purges(owned, steps, p) && k in Done(owned, steps).owned && k !in Done(owned, steps[..p]).owned
    ensures Outlives(steps, k, p)
  {
    StoredExactlyWhen(owned, steps, k, p);
    StoredExactlyWhen(owned, steps, k, |steps|);
    assert steps[..|steps|] == steps;
    assert forall i | i < p && Stands(steps, k, i, |steps|) :: Stands(steps, k, i, p);
    var i :| p <= i && Stands(steps, k, i, |steps|);
    assert i != p;
    assert forall j | i < j < |steps| :: !Removes(steps[j], k);
    assert SavedForGood(steps, k, i);
  }

  /** The whole history is gone if and only if no such copy was saved; a copy saved at any time
      before the purge lists is deleted with the rest. */
  lemma PurgeIsCompleteExactlyWhen(owned: set<Key>, steps: seq<Step>, p: nat)
    requires Purges(owned, steps, p) && NewCopies(owned, steps)
    ensures Done(owned, steps).owned == {} <==> forall k :: !Outlives(steps, k, p)
  {
    forall k ensures k in Done(owned, steps).owned <==> Outlives(steps, k, p) {
      LeftExactlyWhen(owned, steps, p, k);
    }
  }
}
