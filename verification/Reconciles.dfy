/** One pass of the reconcile loop over a loaded deployment: its checkpoints, the stop and
    delete branches, the status update, the reaction to a failure, and the final save. */
module Reconciles {
  import opened Domain
  import opened RollSpec
  import opened Deployments
  import opened Revisions
  import opened Rollback
  import opened Selection
  import Controller

  /** The sizes of the snapshot's lists. */
  datatype Observation = Observation(total: nat, updated: nat, ready: nat, available: nat, newCount: int)

  /** The deployment in memory at the end, and what the pass has set off. */
  datatype Effect = Effect(d: Deployment, saved: bool, rolls: bool, stops: bool, purges: bool, quits: bool)

  function WithCounts(d: Deployment, o: Observation): Deployment {
    d.(status := d.status.(total := o.total, updated := o.updated, ready := o.ready,
                           available := o.available, unavailable := o.total - o.available))
  }

  function WithStates(d: Deployment, states: States): Deployment {
    d.(status := d.status.(states := states))
  }

  function Nothing(d: Deployment): Effect {
    Effect(d, false, false, false, false, false)
  }

  /** After a failure: an automatic rollback, which may fail, or a pause. */
  function AfterFailure(d: Deployment, now: int, rolled: Option<AppSpec>): Deployment {
    if !IsActive(d.status.states, Failure) then d
    else if !d.spec.automaticRollback then d.(status := d.status.(paused := true))
    else match rolled
      case None => d
      case Some(app) => WithStates(d, RollbackStates(d.status.states, now)).(spec := d.spec.(app := app))
  }

  predicate MayRoll(d: Deployment) {
    IsActive(d.status.states, Progress) && !IsActive(d.status.states, Failure) && !d.status.paused
  }

  /** The part of the pass that deals with a stopped or deleted deployment. */
  function Draining(d: Deployment, total: nat): Effect {
    var e := Nothing(d).(stops := d.status.stopped);
    if total > 0 then e
    else if !d.status.deleted then e.(quits := true)
    else e.(purges := true, quits := true)
  }

  /** The part of the pass that deals with a deployment to be kept running. */
  function Keeping(d: Deployment, newCount: int, now: int, cut: nat, rolled: Option<AppSpec>): Effect
    requires HasLimits(d.spec)
  {
    if cut == 6 then Nothing(d)
    else
      var d2 := WithStates(d, UpdatedStates(d.spec, d.status, newCount, now));
      if cut == 7 then Nothing(d2)
      else
        var d3 := AfterFailure(d2, now, rolled);
        if cut == 8 then Nothing(d3)
        else Nothing(d3).(rolls := MayRoll(d3), saved := cut != 9)
  }

  /** The pass that is interrupted, or returns on an error, at checkpoint `cut` of the ten
      checkpoints 0 to 9; a larger `cut` means it runs to its end. */
  function Reconciled(d: Deployment, o: Observation, now: int, cut: nat, rolled: Option<AppSpec>): Effect
    requires HasLimits(d.spec)
  {
    if cut <= 3 then Nothing(d)
    else
      var d1 := WithCounts(d, o);
      if cut <= 5 then Nothing(d1)
      else if d.status.stopped || d.status.deleted then Draining(d1, o.total)
      else Keeping(d1, o.newCount, now, cut, rolled)
  }

  // ---------- the pass and the store ----------

  /** One pass: the lists the container queries returned, the checkpoint at which it ended, the
      names it would give out, whether saving a rollback's copy works, the revisions it looked
      up, and the automatic rollback it performed, if any. */
  datatype Pass = Pass(
    total: seq<App>, ready: seq<App>, available: seq<App>, cut: nat,
    builtName: string, rollbackName: string, copyName: string, saveWorks: bool,
    newRev: Option<Revision>, oldRevs: seq<Revision>, sorted: seq<Revision>, rolled: Option<Rolled>)

  function AppOf(rolled: Option<Rolled>): Option<AppSpec> {
    match rolled
    case None => None
    case Some(r) => Some(r.copy.app)
  }

  /** The counts a pass observes for its current revision. */
  function ObservationOf(p: Pass): Observation
    requires p.newRev.Some?
  {
    Observation(|p.total|, |Matching(p.newRev.value.selector, p.total)|, |p.ready|, |p.available|,
                CountOf(ActiveCounts(p.oldRevs + [p.newRev.value], p.total), p.newRev.value.name))
  }

  /** The store once the current revision has been saved. */
  function WithCurrent(kv: Store, p: Pass): Store
    requires p.newRev.Some?
  {
    if p.cut <= 1 then kv else kv[KeyOf(p.newRev.value) := p.newRev.value]
  }

  /** The deployment after the status update, when a failure is reacted to. */
  function Judged(d: Deployment, newCount: int, now: int): Deployment
    requires HasLimits(d.spec)
  {
    WithStates(d, UpdatedStates(d.spec, d.status, newCount, now))
  }

  /** A failed deployment with automatic rollback is rolled back, unless there is nothing
      before the current revision or saving the copy fails; nothing else changes the store. */
  ghost predicate ReactsTo(kv: Store, kv': Store, d: Deployment, now: int, p: Pass) {
    var due := p.cut > 7 && IsActive(d.status.states, Failure) && d.spec.automaticRollback;
    match p.rolled
    case None => kv' == kv && (due ==> !p.saveWorks || NothingBefore(kv, d, p.rollbackName, now))
    case Some(r) =>
      && due && p.saveWorks && r.unnamed && r.builtName == p.rollbackName
      && RollsTo(kv, kv', d, AfterFailure(d, now, Some(r.copy.app)), now, p.copyName, r)
  }

  /** What a pass that found its current revision does to the store. */
  ghost predicate ChangesStore(kv: Store, kv': Store, d: Deployment, now: int, p: Pass, e: Effect)
    requires HasLimits(d.spec) && p.newRev.Some?
  {
    var saved := WithCurrent(kv, p);
    if e.purges then p.rolled.None? && kv' == saved - OwnedKeys(saved, e.d)
    else if p.cut > 5 && !d.status.stopped && !d.status.deleted
    then ReactsTo(saved, kv', Judged(WithCounts(d, ObservationOf(p)), ObservationOf(p).newCount, now), now, p)
    else p.rolled.None? && kv' == saved
  }

  /** A whole pass over the deployment `d` and the store `kv`. */
  ghost predicate Passes(kv: Store, kv': Store, d: Deployment, now: int, p: Pass, e: Effect) {
    && HasLimits(d.spec)
    && (p.cut > 0 ==> FoundFrom(kv, d, p.builtName, now, p.sorted, p.newRev, p.oldRevs))
    && match p.newRev
       case None => p.cut <= 1 && p.rolled.None? && kv' == kv && e == Nothing(d)
       case Some(_) =>
         && p.cut > 0
         && e == Reconciled(d, ObservationOf(p), now, p.cut, AppOf(p.rolled))
         && ChangesStore(kv, kv', d, now, p, e)
  }

  /** A pass that got past its lookup saved exactly the revision it found, and after that only
      a purge or an automatic rollback changed the store. */
  lemma PassSavesCurrent(kv: Store, kv': Store, d: Deployment, now: int, p: Pass, e: Effect)
    requires Passes(kv, kv', d, now, p, e)
    ensures p.cut < 2 ==> kv' == kv
    ensures p.cut >= 2 ==> SavesCurrent(kv, WithCurrent(kv, p), d, p.builtName, now)
    ensures p.cut >= 2 && p.rolled.None? && !e.purges ==> kv' == WithCurrent(kv, p)
  {
    hide UpdatedStates, Lists, NewestFirst, NewOf, Others, RollsTo;
    if p.cut >= 2 {
      assert SavesFrom(kv, WithCurrent(kv, p), d, p.builtName, now, p.sorted);
    }
  }

  /** A pass rolls back automatically only past its eighth checkpoint, over a deployment to be
      kept that asks for it, is not paused, not complete, and past its deadline; and then it
      does, unless nothing precedes the current revision or the copy cannot be saved. */
  lemma RolledBackExactlyWhen(kv: Store, kv': Store, d: Deployment, now: int, p: Pass, e: Effect)
    requires Passes(kv, kv', d, now, p, e) && !IsActive(d.status.states, Failure) && p.newRev.Some?
    ensures var o := ObservationOf(p);
            var due := && p.cut >= 8 && !d.status.stopped && !d.status.deleted && d.spec.automaticRollback
                       && !d.status.paused && !Completed(d.spec, WithCounts(d, o).status, o.newCount)
                       && now > d.spec.deadline + LastUpdate(d.status.states, Progress);
            && (p.rolled.Some? ==> due && p.saveWorks)
            && (due && p.saveWorks ==>
                  p.rolled.Some?
                  || NothingBefore(WithCurrent(kv, p), Judged(WithCounts(d, o), o.newCount, now), p.rollbackName, now))
  {
    hide UpdatedStates, FoundFrom, RollsTo, Completed, NothingBefore, ObservationOf, WithCurrent, AfterFailure, MayRoll;
    var o := ObservationOf(p);
    var d1 := WithCounts(d, o);
    FlagsAfterUpdate(d1.spec, d1.status, o.newCount, now);
  }

  // ---------- the pass itself ----------

  /** An automatic rollback, or a pause, of a deployment that has failed. */
  method ReactToFailure(repo: RevisionRepo, d: Record, now: int, ghost p: Pass,
                        rollbackName: string, copyName: string, saveWorks: bool)
    returns (ghost rolled: Option<Rolled>)
    requires ValidStore(repo.kv) && d.spec.revisionLimit.Some?
    requires p.cut > 7 && p.rollbackName == rollbackName && p.copyName == copyName && p.saveWorks == saveWorks
    modifies repo, d`spec, d`status
    ensures ValidStore(repo.kv)
    ensures d.Value() == AfterFailure(old(d.Value()), now, AppOf(rolled))
    ensures ReactsTo(old(repo.kv), repo.kv, old(d.Value()), now, p.(rolled := rolled))
  {
    hide RollsTo, NothingBefore, ValidStore, RollbackStates;
    rolled := None;
    if IsActive(d.status.states, Failure) && d.spec.automaticRollback {
      ghost var before := d.Value();
      var outcome;
      ghost var r;
      outcome, r := RollbackDeployment(repo, d, "", rollbackName, copyName, now, saveWorks);
      if outcome.Done? {
        rolled := Some(r);
        assert RollsTo(old(repo.kv), repo.kv, before, d.Value(), now, copyName, r);
        RolledBackEffect(old(repo.kv), repo.kv, before, d.Value(), now, copyName, r);
      }
    } else if IsActive(d.status.states, Failure) && !d.spec.automaticRollback {
      d.status := d.status.(paused := true);
    }
  }

  /** From the seventh checkpoint on; `p` says how the pass is going to go. */
  method KeepRunning(repo: RevisionRepo, d: Record, newCount: int, now: int, ghost p: Pass, cut: nat,
                     rollbackName: string, copyName: string, saveWorks: bool)
    returns (saved: bool, rolls: bool, ghost rolled: Option<Rolled>)
    requires ValidStore(repo.kv) && HasLimits(d.spec) && d.spec.revisionLimit.Some? && cut > 5
    requires p.cut == cut && p.rollbackName == rollbackName && p.copyName == copyName && p.saveWorks == saveWorks
    modifies repo, d`spec, d`status
    ensures ValidStore(repo.kv)
    ensures Effect(d.Value(), saved, rolls, false, false, false)
         == Keeping(old(d.Value()), newCount, now, cut, AppOf(rolled))
    ensures ReactsTo(old(repo.kv), repo.kv, Judged(old(d.Value()), newCount, now), now, p.(rolled := rolled))
  {
    hide UpdatedStates, RollsTo, NothingBefore, ValidStore, AfterFailure;
    saved, rolls, rolled := false, false, None;
    if cut == 6 {
      return;
    }
    d.UpdateStatusStates(newCount, now);
    if cut == 7 {
      return;
    }
    hide ReactsTo;
    rolled := ReactToFailure(repo, d, now, p, rollbackName, copyName, saveWorks);
    if cut == 8 {
      return;
    }
    rolls := IsActive(d.status.states, Progress) && !IsActive(d.status.states, Failure) && !d.status.paused;
    if cut == 9 {
      return;
    }
    saved := true;
  }

  lemma RolledBackEffect(kv: Store, kv': Store, d: Deployment, d': Deployment, now: int, copyName: string, r: Rolled)
    requires RollsTo(kv, kv', d, d', now, copyName, r)
    requires IsActive(d.status.states, Failure) && d.spec.automaticRollback
    ensures d' == AfterFailure(d, now, AppOf(Some(r)))
  {
    hide RollbackStates, ChoosesFrom, Pruned, CopyOf, InNamespace;
  }

  /** The stop and delete branches of a pass over a deployment with `total` apps. */
  method Drain(repo: RevisionRepo, d: Record, total: nat) returns (stops: bool, purges: bool, quits: bool)
    requires ValidStore(repo.kv) && (d.status.stopped || d.status.deleted)
    modifies repo
    ensures ValidStore(repo.kv)
    ensures Effect(d.Value(), false, false, stops, purges, quits) == Draining(d.Value(), total)
    ensures repo.kv == if purges then old(repo.kv) - OwnedKeys(old(repo.kv), d.Value()) else old(repo.kv)
    ensures purges ==> OwnedKeys(repo.kv, d.Value()) == {}
  {
    hide OwnedKeys;
    stops, purges, quits := false, false, false;
    if d.status.stopped {
      stops := true;
      if total > 0 {
        return;
      }
      if !d.status.deleted {
        quits := true;
        return;
      }
    }
    if d.status.deleted {
      if total != 0 {
        return;
      }
      repo.DeleteDeploymentOwned(d.Value());
      purges, quits := true, true;
    }
  }

  /** One pass over the loaded deployment. The lists are what the container queries returned;
      `cut` is the checkpoint at which the pass is interrupted, or ends on an error, and it
      also ends at the second one when no current revision can be determined. */
  method ReconcilePass(repo: RevisionRepo, d: Record, total: seq<App>, ready: seq<App>, available: seq<App>,
                       now: int, cut: nat, builtName: string, rollbackName: string, copyName: string, saveWorks: bool)
    returns (saved: bool, rolls: bool, stops: bool, purges: bool, quits: bool,
             newRev: Option<Revision>, oldRevs: seq<Revision>, ghost p: Pass)
    requires ValidStore(repo.kv) && HasLimits(d.spec) && d.spec.revisionLimit.Some?
    modifies repo, d`spec, d`status
    ensures ValidStore(repo.kv)
    ensures p == Pass(total, ready, available, p.cut, builtName, rollbackName, copyName, saveWorks,
                      newRev, oldRevs, p.sorted, p.rolled)
    ensures p.cut == if cut >= 1 && newRev.None? then 1 else cut
    ensures Passes(old(repo.kv), repo.kv, old(d.Value()), now, p,
                   Effect(d.Value(), saved, rolls, stops, purges, quits))
    ensures purges ==> OwnedKeys(repo.kv, d.Value()) == {}
  {
    hide Lists, NewestFirst, NewOf, Others, ValidStore, Keeping, Matching, ActiveCounts, CountOf, OwnedKeys, ReactsTo,
         Judged, FoundFrom, Draining;
    saved, rolls, stops, purges, quits := false, false, false, false, false;
    newRev, oldRevs := None, [];
    p := Pass(total, ready, available, cut, builtName, rollbackName, copyName, saveWorks, None, [], [], None);
    if cut == 0 {
      return;
    }
    ghost var sorted;
    newRev, oldRevs, sorted := GetNewAndOldRevisions(repo, d.Value(), builtName, now);
    p := p.(cut := if newRev.None? then 1 else cut, newRev := newRev, oldRevs := oldRevs, sorted := sorted);
    if newRev.None? || cut == 1 {
      return;
    }
    repo.Put(newRev.value);
    if cut == 2 || cut == 3 {
      return;
    }
    var updated := Controller.SelectMatching(newRev.value.selector, total);
    d.status := d.status.(total := |total|, updated := |updated|, ready := |ready|, available := |available|,
                          unavailable := |total| - |available|);
    if cut == 4 {
      return;
    }
    var active, counts := Controller.GetActiveRevisions(oldRevs + [newRev.value], total);
    if cut == 5 {
      return;
    }
    if d.status.stopped || d.status.deleted {
      stops, purges, quits := Drain(repo, d, |total|);
      return;
    }
    ghost var rolled;
    saved, rolls, rolled := KeepRunning(repo, d, CountOf(counts, newRev.value.name), now, p, cut, rollbackName,
                                        copyName, saveWorks);
    p := p.(rolled := rolled);
  }

  // ---------- what one pass does ----------

  /** A pass launches a rolling step exactly when it gets past its ninth checkpoint with a
      deployment that is neither stopped, deleted nor paused and not complete, and either the
      deadline has not passed or it has just been rolled back automatically. */
  lemma RollsExactlyWhen(d: Deployment, o: Observation, now: int, cut: nat, rolled: Option<AppSpec>)
    requires HasLimits(d.spec) && !IsActive(d.status.states, Failure)
    ensures Reconciled(d, o, now, cut, rolled).rolls
       <==> && cut > 8 && !d.status.stopped && !d.status.deleted && !d.status.paused
            && !Completed(d.spec, WithCounts(d, o).status, o.newCount)
            && (now <= d.spec.deadline + LastUpdate(d.status.states, Progress)
                || (d.spec.automaticRollback && rolled.Some?))
  {
    hide UpdatedStates, Completed;
    var d1 := WithCounts(d, o);
    if cut > 8 && !d.status.stopped && !d.status.deleted {
      FlagsAfterUpdate(d1.spec, d1.status, o.newCount, now);
    }
  }

  /** The pass finds the deployment failed and rolls it back successfully. */
  predicate RollsBack(d: Deployment, o: Observation, now: int, rolled: Option<AppSpec>)
    requires HasLimits(d.spec)
  {
    && IsActive(UpdatedStates(d.spec, WithCounts(d, o).status, o.newCount, now), Failure)
    && d.spec.automaticRollback && rolled.Some?
  }

  /** A pass saves only a deployment that is neither stopped nor deleted, and leaves those
      marks as they are; it keeps the deadline running unless it has rolled back. */
  lemma SavesOnlyKept(d: Deployment, o: Observation, now: int, cut: nat, rolled: Option<AppSpec>)
    requires HasLimits(d.spec) && Reconciled(d, o, now, cut, rolled).saved
    ensures var d' := Reconciled(d, o, now, cut, rolled).d;
            && !d.status.stopped && !d.status.deleted && !d'.status.stopped && !d'.status.deleted
            && d'.spec == d.spec.(app := d'.spec.app)
            && (d.status.paused ==> d'.status.paused)
            && LastUpdate(d'.status.states, Progress)
               == if RollsBack(d, o, now, rolled) then now else LastUpdate(d.status.states, Progress)
  {
    hide UpdatedStates;
    var d1 := WithCounts(d, o);
    UpdateKeepsDeadline(d1.spec, d1.status, o.newCount, now, Progress);
  }

  /** A failed deployment is paused, and nothing else pauses or unpauses one: past its eighth
      checkpoint a pass leaves a deployment to be kept paused exactly if it was, or if it is not
      rolled back automatically, its rollout is not complete and its deadline has passed. */
  lemma PausedExactlyWhen(d: Deployment, o: Observation, now: int, cut: nat, rolled: Option<AppSpec>)
    requires HasLimits(d.spec) && cut >= 8 && !d.status.stopped && !d.status.deleted
    requires !(Failure in d.status.states && d.status.states[Failure].active)
    ensures var late := now > d.spec.deadline + LastUpdate(d.status.states, Progress);
            Reconciled(d, o, now, cut, rolled).d.status.paused
            <==> || d.status.paused
                 || (!d.spec.automaticRollback && late && !Completed(d.spec, WithCounts(d, o).status, o.newCount))
  {
    hide UpdatedStates, RollbackStates;
    var d1 := WithCounts(d, o);
    FlagsAfterUpdate(d1.spec, d1.status, o.newCount, now);
  }

  /** From its fifth checkpoint on a pass has noted how many of the apps it saw are running, of
      the new revision, ready, available and not available; before, it has changed no count. */
  lemma CountsNoted(d: Deployment, now: int, p: Pass)
    requires HasLimits(d.spec) && p.newRev.Some?
    ensures var status := Reconciled(d, ObservationOf(p), now, p.cut, AppOf(p.rolled)).d.status;
            if p.cut <= 3 then status == d.status
            else && status.total == |p.total|
                 && status.updated == |Matching(p.newRev.value.selector, p.total)|
                 && status.ready == |p.ready| && status.available == |p.available|
                 && status.unavailable == |p.total| - |p.available|
  {
    hide UpdatedStates, AfterFailure, Matching, ActiveCounts, CountOf, MayRoll;
    var o := ObservationOf(p);
    if p.cut > 7 {
      ReactionKeepsCounts(Judged(WithCounts(d, o), o.newCount, now), now, AppOf(p.rolled));
    }
  }

  lemma ReactionKeepsCounts(d: Deployment, now: int, rolled: Option<AppSpec>)
    ensures var status := AfterFailure(d, now, rolled).status;
            && status.total == d.status.total && status.updated == d.status.updated && status.ready == d.status.ready
            && status.available == d.status.available && status.unavailable == d.status.unavailable
  {
    hide RollbackStates;
  }
}
