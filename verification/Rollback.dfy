/** Rolling back: a copy of an earlier revision becomes the newest one, and the oldest
    revisions over the limit are pruned. On the unnamed path the copy is made by changing a
    slot of the very list that is pruned afterwards. */
module Rollback {
  import opened Domain
  import opened Deployments
  import opened Revisions

  datatype Outcome = Done | NothingToRollBackTo | RevisionNotFound | SaveFailed | Crashed

  /** The revision rolled back to, under a new name and time. */
  function CopyOf(r: Revision, name: string, now: int): Revision {
    r.(name := name, timestamp := now,
       selector := r.selector["revision" := name],
       app := r.app.(labels := r.app.labels["revision" := name]))
  }

  function RollbackStates(states: States, now: int): States {
    var s := states[Failure := State(Failure, false, "Deployment in rollback", now, now)]
                   [Progress := State(Progress, true, "Deployment in rollback", now, now)];
    s[Available := State(Available, IsActive(states, Available), "Deployment in rollback", now,
                         if Available in states then states[Available].transition else 0)]
  }

  /** The slots whose revisions are deleted after the copy has been saved. */
  function PrunedSlots(slots: seq<Revision>, limit: int): seq<Revision> {
    if |slots| + 1 > limit && |slots| + 1 - limit <= |slots| then slots[limit - 1..] else []
  }

  function Pruned(kv: Store, slots: seq<Revision>, limit: int): Store {
    kv - KeysOf(PrunedSlots(slots, limit))
  }

  /** The list as it is when it is pruned: without a name, slot 1 holds the copy by then. */
  function Slots(all: seq<Revision>, unnamed: bool, copy: Revision): seq<Revision> {
    if unnamed && |all| >= 2 then all[1 := copy] else all
  }

  /** What a rollback went by: the current revision it looked up, or built under `builtName`,
      among the owned ones, the list it chose from, its source in it or in the store, and the
      copy it made. */
  datatype Rolled = Rolled(
    unnamed: bool, builtName: string, sorted: seq<Revision>, current: Revision, all: seq<Revision>,
    source: Revision, copy: Revision)

  /** The revisions a rollback chooses from: the others and the current one, newest first
      on the unnamed path, the current one last on the named path. */
  ghost predicate ChoosesFrom(kv: Store, d: Deployment, now: int, r: Rolled) {
    && Lists(kv, d, r.sorted) && NewestFirst(r.sorted)
    && NewOf(d, r.sorted, r.builtName, now) == Some(r.current)
    && var list := Others(r.sorted, r.current) + [r.current];
       if r.unnamed then multiset(r.all) == multiset(list) && NewestFirst(r.all) else r.all == list
  }

  function AfterRollback(d: Deployment, copy: Revision): Deployment {
    d.(spec := d.spec.(app := copy.app),
       status := d.status.(states := RollbackStates(d.status.states, copy.timestamp)))
  }

  /** A rollback starts the deadline anew and takes a failure back, but not the availability. */
  lemma StatesAfterRollback(states: States, now: int)
    ensures var s := RollbackStates(states, now);
            && s.Keys == {Available, Progress, Failure}
            && (IsActive(s, Available) <==> IsActive(states, Available))
            && IsActive(s, Progress) && !IsActive(s, Failure)
            && (forall k | k in s :: s[k].kind == k && s[k].update == now && s[k].message == "Deployment in rollback")
            && s[Progress].transition == now && s[Failure].transition == now
            && (Available in states ==> s[Available].transition == states[Available].transition)
  {
    OnlyKinds(RollbackStates(states, now).Keys);
  }

  /** What a successful rollback has done. */
  ghost predicate RolledBack(kv: Store, kv': Store, d: Deployment, d': Deployment, r: Rolled) {
    && d.spec.revisionLimit.Some?
    && kv' == Pruned(kv[KeyOf(r.copy) := r.copy], Slots(r.all, r.unnamed, r.copy), d.spec.revisionLimit.value)
    && d' == AfterRollback(d, r.copy)
    && r.copy == CopyOf(r.source, r.copy.name, r.copy.timestamp)
    && (r.unnamed ==> |r.all| >= 2 && r.source == r.all[1])
    && (!r.unnamed ==> InNamespace(kv, d, r.source))
  }

  /** A named rollback takes any revision stored under the deployment's own namespace. */
  ghost predicate InNamespace(kv: Store, d: Deployment, r: Revision) {
    exists name :: Key(d.orgId, d.namespace, name) in kv && kv[Key(d.orgId, d.namespace, name)] == r
  }

  /** A whole rollback, from choosing to pruning. */
  ghost predicate RollsTo(kv: Store, kv': Store, d: Deployment, d': Deployment, now: int, copyName: string, r: Rolled) {
    && ChoosesFrom(kv, d, now, r) && RolledBack(kv, kv', d, d', r)
    && r.copy.name == copyName && r.copy.timestamp == now
  }

  /** No revision could be determined as current, or there is none besides it. */
  ghost predicate NothingBefore(kv: Store, d: Deployment, builtName: string, now: int) {
    exists listed ::
      && Lists(kv, d, listed) && NewestFirst(listed)
      && var current := NewOf(d, listed, builtName, now);
         current.None? || |Others(listed, current.value)| < 1
  }

  /** Deletes the revisions of the slots over the limit. */
  method Prune(repo: RevisionRepo, slots: array<Revision>, limit: int)
    requires ValidStore(repo.kv)
    modifies repo
    ensures repo.kv == Pruned(old(repo.kv), slots[..], limit) && ValidStore(repo.kv)
  {
    if slots.Length + 1 > limit {
      var sufficient := slots.Length + 1 - limit;
      if sufficient <= slots.Length {
        var first := slots.Length - sufficient;
        ghost var pruned := slots[..][first..];
        for i := first to slots.Length
          invariant repo.kv == old(repo.kv) - KeysOf(pruned[..i - first]) && ValidStore(repo.kv)
        {
          assert pruned[..i + 1 - first] == pruned[..i - first] + [slots[i]];
          AppendKey(pruned[..i - first], slots[i]);
          MinusMinus(old(repo.kv), KeysOf(pruned[..i - first]), KeyOf(slots[i]));
          repo.Delete(slots[i].name, slots[i].namespace, slots[i].orgId);
        }
        assert pruned[..slots.Length - first] == pruned;
      }
    }
  }

  /** The list the rollback chooses from, in an array whose slots can be changed. */
  method Candidates(repo: RevisionRepo, d: Deployment, unnamed: bool, builtName: string, now: int)
    returns (slots: array<Revision>, ok: bool, ghost r: Rolled)
    requires ValidStore(repo.kv)
    ensures fresh(slots) && r.all == slots[..] && r.unnamed == unnamed && r.builtName == builtName
    ensures ok ==> ChoosesFrom(repo.kv, d, now, r)
    ensures !ok || |r.all| < 2 ==> NothingBefore(repo.kv, d, builtName, now)
  {
    hide Lists, NewestFirst, NewOf, Others;
    var newRev, oldRevs;
    ghost var sorted;
    newRev, oldRevs, sorted := GetNewAndOldRevisions(repo, d, builtName, now);
    ok := newRev.Some?;
    slots := CopyToArray(if ok then oldRevs + [newRev.value] else []);
    if unnamed && ok {
      SortNewestFirst(slots);
    }
    ghost var some: Revision := *;
    r := Rolled(unnamed, builtName, sorted, if ok then newRev.value else some, slots[..], some, some);
    assert ok ==> |r.all| == |oldRevs + [newRev.value]| by {
      assert ok ==> |multiset(r.all)| == |multiset(oldRevs + [newRev.value])|;
    }
  }

  method RollbackDeployment(repo: RevisionRepo, d: Record, revisionName: string,
                            builtName: string, copyName: string, now: int, saveWorks: bool)
    returns (outcome: Outcome, ghost r: Rolled)
    requires ValidStore(repo.kv) && d.spec.revisionLimit.Some?
    modifies repo, d`spec, d`status
    ensures ValidStore(repo.kv)
    ensures r.unnamed == (revisionName == "") && r.builtName == builtName
    ensures !outcome.Done? ==> repo.kv == old(repo.kv) && d.Value() == old(d.Value())
    ensures outcome.Crashed? || outcome.NothingToRollBackTo? ==> NothingBefore(repo.kv, d.Value(), builtName, now)
    ensures outcome.NothingToRollBackTo? ==> revisionName == ""
    ensures outcome.RevisionNotFound? ==>
              revisionName != "" && Key(d.orgId, d.namespace, revisionName) !in repo.kv
    ensures outcome.SaveFailed? ==> !saveWorks
    ensures outcome.Done? ==> saveWorks
    ensures outcome.Done? ==> RollsTo(old(repo.kv), repo.kv, old(d.Value()), d.Value(), now, copyName, r)
    ensures outcome.Done? && revisionName != "" ==>
              var key := Key(d.orgId, d.namespace, revisionName);
              key in old(repo.kv) && r.source == old(repo.kv)[key]
  {
    hide ChoosesFrom, Pruned, NothingBefore;
    var slots, ok;
    slots, ok, r := Candidates(repo, d.Value(), revisionName == "", builtName, now);
    if !ok {
      outcome := Crashed;
      return;
    }
    var copy, source;
    if revisionName == "" {
      if slots.Length < 2 {
        outcome := NothingToRollBackTo;
        return;
      }
      source := slots[1];
      slots[1] := CopyOf(slots[1], copyName, now);
      copy := slots[1];
    } else {
      var found := repo.Get(revisionName, d.namespace, d.orgId);
      if found.None? {
        outcome := RevisionNotFound;
        return;
      }
      source := found.value;
      copy := CopyOf(found.value, copyName, now);
    }
    if !saveWorks {
      outcome := SaveFailed;
      return;
    }
    ChoiceStays(repo.kv, d.Value(), now, r, source, copy);
    r := r.(source := source, copy := copy);
    repo.Put(copy);
    d.spec := d.spec.(app := copy.app);
    assert slots[..] == Slots(r.all, r.unnamed, copy);
    Prune(repo, slots, d.spec.revisionLimit.value);
    d.status := d.status.(states := RollbackStates(d.status.states, now));
    outcome := Outcome.Done;
  }

  lemma ChoiceStays(kv: Store, d: Deployment, now: int, r: Rolled, source: Revision, copy: Revision)
    requires ChoosesFrom(kv, d, now, r)
    ensures ChoosesFrom(kv, d, now, r.(source := source, copy := copy))
  {}
}
