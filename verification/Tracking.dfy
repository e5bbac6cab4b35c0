/** Which running containers a worker can still find. It finds containers by the labels of the
    revisions it looks up, so one whose revision is no longer listed keeps running unseen. */
module Tracking {
  import opened Domain
  import opened Runtime
  import opened RollSpec
  import opened Snapshots
  import opened RollSafety
  import opened RollFloor
  import opened Deployments
  import opened Revisions
  import opened Rollback
  import opened RollbackHistory
  import opened Reconciles
  import opened Persistence
  import opened SerialRuns

  // ---------- revisions that find their own containers ----------

  /** The revision's filters match the labels its containers are started with. */
  ghost predicate SelfFound(r: Revision) {
    && "revision" in r.selector && r.selector["revision"] == r.name
    && MatchLabels(r.app.labels, r.selector)
  }

  ghost predicate AllSelfFound(kv: Store) {
    forall k | k in kv :: SelfFound(kv[k])
  }

  lemma FindsItsOwn(mode: Mode, r: Revision)
    requires SelfFound(r)
    ensures Finds(r, StartLabels(mode, r))
  {}

  lemma BuiltIsSelfFound(d: Deployment, name: string, now: int)
    requires BuildRevision(d, name, now).Some?
    ensures SelfFound(BuildRevision(d, name, now).value)
  {}

  lemma CopyIsSelfFound(source: Revision, name: string, now: int)
    requires SelfFound(source)
    ensures SelfFound(CopyOf(source, name, now))
  {}

  lemma ListedAreSelfFound(kv: Store, d: Deployment, sorted: seq<Revision>)
    requires AllSelfFound(kv) && Lists(kv, d, sorted)
    ensures forall r | r in sorted :: SelfFound(r)
  {
    hide SelfFound, Owns;
  }

  lemma CurrentIsSelfFound(kv: Store, d: Deployment, sorted: seq<Revision>, name: string, now: int)
    requires AllSelfFound(kv) && Lists(kv, d, sorted) && NewOf(d, sorted, name, now).Some?
    ensures SelfFound(NewOf(d, sorted, name, now).value)
  {
    hide SelfFound, AllSelfFound, Lists, CompareAppSpecs, IsValid, BuildRevision;
    ListedAreSelfFound(kv, d, sorted);
    if BuildRevision(d, name, now).Some? {
      BuiltIsSelfFound(d, name, now);
    }
  }

  lemma SourceIsSelfFound(kv: Store, kv': Store, d: Deployment, d': Deployment, now: int, r: Rolled)
    requires AllSelfFound(kv) && ChoosesFrom(kv, d, now, r) && RolledBack(kv, kv', d, d', r)
    ensures SelfFound(r.source)
  {
    hide SelfFound, Lists, NewOf, NewestFirst, Pruned, CompareRevisions;
    if r.unnamed {
      CurrentIsSelfFound(kv, d, r.sorted, r.builtName, now);
      ListedAreSelfFound(kv, d, r.sorted);
      OthersAreListed(r.sorted, r.current);
      assert r.source in multiset(Others(r.sorted, r.current) + [r.current]);
    }
  }

  // ---------- the invariant ----------

  ghost predicate GoodStore(kv: Store) {
    ValidStore(kv) && AllSelfFound(kv)
  }

  ghost predicate Good(s: System) {
    GoodStore(s.kv) && FreshNames(s.world)
  }

  lemma RollbackKeepsStoreGood(kv: Store, kv': Store, d: Deployment, d': Deployment, now: int, name: string, r: Rolled)
    requires GoodStore(kv) && RollsTo(kv, kv', d, d', now, name, r)
    ensures GoodStore(kv')
  {
    hide SelfFound, ChoosesFrom, Slots, PrunedSlots, CopyOf, RollbackStates, InNamespace;
    SourceIsSelfFound(kv, kv', d, d', now, r);
    CopyIsSelfFound(r.source, r.copy.name, r.copy.timestamp);
  }

  lemma PassKeepsStoreGood(kv: Store, kv': Store, d: Deployment, now: int, p: Pass, e: Reconciles.Effect)
    requires GoodStore(kv) && Passes(kv, kv', d, now, p, e)
    ensures GoodStore(kv') && (p.newRev.Some? ==> SelfFound(p.newRev.value))
  {
    hide SelfFound, Lists, NewestFirst, NewOf, Others, Reconciled, Judged, AfterFailure, NothingBefore, RollsTo,
         OwnedKeys;
    if p.newRev.Some? {
      CurrentIsSelfFound(kv, d, p.sorted, p.builtName, now);
      var saved := WithCurrent(kv, p);
      assert GoodStore(saved);
      if p.rolled.Some? {
        var r := p.rolled.value;
        var d2 := Judged(WithCounts(d, ObservationOf(p)), ObservationOf(p).newCount, now);
        RollbackKeepsStoreGood(saved, kv', d2, AfterFailure(d2, now, Some(r.copy.app)), now, p.copyName, r);
      } else {
        assert kv'.Keys <= saved.Keys && forall k | k in kv' :: kv'[k] == saved[k];
      }
    }
  }

  /** What a pass does to a stopped or deleted deployment, and when. */
  lemma EffectFacts(d: Deployment, at: int, p: Pass)
    requires HasLimits(d.spec)
    ensures var e := EffectOf(d, at, p);
            var drains := p.newRev.Some? && p.cut > 5 && (d.status.stopped || d.status.deleted);
            && (e.stops <==> drains && d.status.stopped)
            && (e.quits <==> drains && p.total == [])
            && (e.purges <==> drains && p.total == [] && d.status.deleted)
            && (e.rolls ==> p.newRev.Some? && p.cut > 8 && !drains)
  {
    hide UpdatedStates, AfterFailure, MayRoll;
  }

  lemma PassKeepsNamesFresh(env: Env, s: System, e: Event, s': System, d: Deployment)
    requires e.kind.PassOf? && PassSteps(env, s, e, s', d) && FreshNames(s.world)
    ensures FreshNames(s'.world)
    ensures EffectOf(d, e.at, e.kind.pass).rolls && e.kind.pass.newRev.Some? ==>
              OnlyAdds(s.world, s'.world, StartLabels(ModeOf(d.spec.mode), e.kind.pass.newRev.value))
    ensures !EffectOf(d, e.at, e.kind.pass).rolls || e.kind.pass.newRev.None? ==> Shrinks(s.world, s'.world)
  {
    hide FreshNames, Passes, Sees, GivesNewNames, StopApps, Roll, Loses, Shrinks, MaxSurge, RollsBack, Keeping;
    var p := e.kind.pass;
    var effect := EffectOf(d, e.at, p);
    StopAppsLoses(env, s.world, ModeOf(d.spec.mode), e.kind.nodes, |p.total|, p.total);
    LosesKeepsNamesFresh(s.world, StopApps(env, s.world, ModeOf(d.spec.mode), e.kind.nodes, |p.total|, p.total).world,
                         Names(Tail(p.total, |p.total|)));
    LosesShrinks(s.world, StopApps(env, s.world, ModeOf(d.spec.mode), e.kind.nodes, |p.total|, p.total).world,
                 Names(Tail(p.total, |p.total|)));
    NothingShrinks(s.world);
    EffectFacts(d, e.at, p);
    if effect.rolls && p.newRev.Some? {
      RollOnlyAdds(env, s.world, LimitsOf(d.spec), SnapshotOf(p, e.kind.nodes, e.kind.active));
    }
  }

  lemma StepIsGood(env: Env, s: System, e: Event, s': System, template: Deployment)
    requires Steps(env, s, e, s', template) && Good(s)
    ensures Good(s')
  {
    hide GoodStore, FreshNames, Loses, RollsTo, Persisted, NewNamed, Handled, EffectOf, Passes, Sees, GivesNewNames,
         WorldAfter, RecordAfter, SavesRollback;
    if e.kind.Crash? {
      LosesKeepsNamesFresh(s.world, s'.world, s.world.running.Keys);
    } else if s.record.Some? {
      var d := s.record.value;
      if e.kind.PassOf? {
        PassKeepsNamesFresh(env, s, e, s', d);
        PassKeepsStoreGood(s.kv, s'.kv, d, e.at, e.kind.pass, EffectOf(d, e.at, e.kind.pass));
      } else if e.kind.RollbackTask? {
        var r := e.kind.rolled;
        RollbackKeepsStoreGood(s.kv, s'.kv, d, AfterRollback(d, r.copy), e.at, e.kind.copyName, r);
      }
    }
  }

  // ---------- tracked and dropped containers ----------

  /** The deployment's lookup lists this revision. */
  ghost predicate Lookable(s: System, r: Revision) {
    s.record.Some? && KeyOf(r) in OwnedKeys(s.kv, s.record.value) && s.kv[KeyOf(r)] == r
  }

  /** The container is found by a revision that the lookup lists. */
  ghost predicate Tracked(s: System, k: ContainerName)
    requires k in s.world.running
  {
    exists r :: Lookable(s, r) && Finds(r, s.world.running[k])
  }

  /** The event is a pass that launches a rolling step for this revision. */
  ghost predicate StartsOf(s: System, e: Event, r: Revision) {
    && e.kind.PassOf? && s.record.Some? && HasLimits(s.record.value.spec)
    && e.kind.pass.newRev == Some(r) && EffectOf(s.record.value, e.at, e.kind.pass).rolls
  }

  /** The revisions a rollback deletes. */
  function PrunedKeys(d: Deployment, r: Rolled): set<Key> {
    if d.spec.revisionLimit.None? then {}
    else KeysOf(PrunedSlots(Slots(r.all, r.unnamed, r.copy), d.spec.revisionLimit.value))
  }

  /** The event makes the lookup forget the revision: a rollback prunes it, a put no longer
      selects it, or a pass purges the deployment, prunes it in an automatic rollback, or uses
      it although the deployment's selector never finds it. */
  ghost predicate Drops(s: System, e: Event, r: Revision)
    requires s.record.Some? && HasLimits(s.record.value.spec)
  {
    var d := s.record.value;
    match e.kind
    case RollbackTask(_, roll) => KeyOf(r) in PrunedKeys(d, roll)
    case PutTask(_, spec) => !MatchLabels(r.selector, spec.selector)
    case PassOf(p, _, _) =>
      || EffectOf(d, e.at, p).purges
      || (p.rolled.Some? && KeyOf(r) in PrunedKeys(d, p.rolled.value))
      || !Owns(d, r)
    case _ => false
  }

  /** After the event the container runs, of a revision that the event dropped. */
  ghost predicate DropsContainer(s: System, e: Event, s': System, k: ContainerName) {
    && s.record.Some? && HasLimits(s.record.value.spec) && k in s'.world.running
    && exists r :: (Lookable(s, r) || StartsOf(s, e, r)) && Drops(s, e, r) && Finds(r, s'.world.running[k])
  }

  // ---------- nothing else is forgotten ----------

  lemma OwnershipKept(d: Deployment, d': Deployment, r: Revision)
    requires d'.orgId == d.orgId && d'.namespace == d.namespace && d'.spec.selector == d.spec.selector
    ensures Owns(d', r) <==> Owns(d, r)
  {}

  lemma LookableIn(s: System, d: Deployment, r: Revision)
    requires s.record == Some(d) && KeyOf(r) in s.kv && s.kv[KeyOf(r)] == r && Owns(d, r)
    ensures Lookable(s, r)
  {}

  lemma LookableFacts(s: System, r: Revision)
    requires Lookable(s, r)
    ensures KeyOf(r) in s.kv && s.kv[KeyOf(r)] == r && Owns(s.record.value, r)
  {}

  lemma RollbackKeeps(kv: Store, kv': Store, d: Deployment, d': Deployment, now: int, name: string, r: Rolled,
                      kept: Revision)
    requires RollsTo(kv, kv', d, d', now, name, r)
    requires KeyOf(kept) in kv && kv[KeyOf(kept)] == kept && KeyOf(kept) != KeyOf(r.copy)
    requires KeyOf(kept) !in PrunedKeys(d, r)
    ensures KeyOf(kept) in kv' && kv'[KeyOf(kept)] == kept
  {
    hide ChoosesFrom, PrunedSlots, Slots, CopyOf, RollbackStates, InNamespace;
  }

  lemma TaskKeeps(s: System, e: Event, s': System, d: Deployment, r: Revision)
    requires IsTask(e.kind) && s.record == Some(d) && HasLimits(d.spec) && TaskSteps(s, e, s', d)
    requires Lookable(s, r) && !Drops(s, e, r)
    ensures Lookable(s', r)
  {
    hide RollsTo, Inactive, RollbackStates, PutStatus, Lookable, PrunedKeys;
    LookableFacts(s, r);
    if e.kind.RollbackTask? {
      var roll := e.kind.rolled;
      RollbackKeeps(s.kv, s'.kv, d, AfterRollback(d, roll.copy), e.at, e.kind.copyName, roll, r);
    }
    LookableIn(s', s'.record.value, r);
  }

  /** Saving the current revision replaces no other one. */
  lemma CurrentReplacesNothing(kv: Store, d: Deployment, now: int, p: Pass)
    requires ValidStore(kv) && GivesNewNames(kv, p) && p.newRev.Some?
    requires FoundFrom(kv, d, p.builtName, now, p.sorted, p.newRev, p.oldRevs)
    ensures forall k | k in kv :: k in WithCurrent(kv, p) && WithCurrent(kv, p)[k] == kv[k]
    ensures forall k | k in WithCurrent(kv, p) :: k.name != p.copyName && k.name != p.rollbackName
    ensures p.newRev.value in p.sorted || p.newRev.value.name == p.builtName
  {
    hide CompareAppSpecs, IsValid, NewestFirst, Others, Owns;
    var r := p.newRev.value;
    if MatchesSpec(d, p.sorted) {
      assert r == p.sorted[0] && r in p.sorted;
    }
  }

  lemma PassKeeps(env: Env, s: System, e: Event, s': System, d: Deployment, r: Revision)
    requires e.kind.PassOf? && s.record == Some(d) && PassSteps(env, s, e, s', d) && Good(s)
    requires (Lookable(s, r) || StartsOf(s, e, r)) && !Drops(s, e, r)
    ensures Lookable(s', r)
  {
    hide Sees, GivesNewNames, WorldAfter, FreshNames, AllSelfFound, RollsTo, FoundFrom, Lookable, PrunedKeys, RollsBack,
         Persisted, Reconciled, NothingBefore, Judged, AfterFailure, Owns, Passes;
    var p := e.kind.pass;
    StaysInStore(env, s, e, s', d, r);
    RecordKept(s, e, d);
    OwnershipKept(d, s'.record.value, r);
    LookableIn(s', s'.record.value, r);
  }

  predicate SameIdentity(d: Deployment, d': Deployment) {
    d'.orgId == d.orgId && d'.namespace == d.namespace && d'.spec.selector == d.spec.selector
  }

  lemma ReactionKeepsIdentity(d: Deployment, now: int, rolled: Option<AppSpec>)
    ensures SameIdentity(d, AfterFailure(d, now, rolled))
  {
    hide RollbackStates;
  }

  lemma EffectKeepsIdentity(d: Deployment, at: int, p: Pass)
    requires HasLimits(d.spec)
    ensures SameIdentity(d, EffectOf(d, at, p).d)
  {
    hide UpdatedStates, AfterFailure, MayRoll, ObservationOf;
    if p.newRev.Some? {
      var d1 := WithCounts(d, ObservationOf(p));
      var d2 := WithStates(d1, UpdatedStates(d1.spec, d1.status, ObservationOf(p).newCount, at));
      ReactionKeepsIdentity(d2, at, AppOf(p.rolled));
    }
  }

  lemma RecordKept(s: System, e: Event, d: Deployment)
    requires e.kind.PassOf? && s.record == Some(d) && HasLimits(d.spec) && !EffectOf(d, e.at, e.kind.pass).purges
    ensures var after := RecordAfter(s, d, EffectOf(d, e.at, e.kind.pass));
            after.Some? && SameIdentity(d, after.value)
  {
    hide EffectOf, Inactive;
    EffectKeepsIdentity(d, e.at, e.kind.pass);
  }

  lemma StaysInStore(env: Env, s: System, e: Event, s': System, d: Deployment, r: Revision)
    requires e.kind.PassOf? && s.record == Some(d) && PassSteps(env, s, e, s', d) && Good(s)
    requires (Lookable(s, r) || StartsOf(s, e, r)) && !Drops(s, e, r)
    ensures KeyOf(r) in s'.kv && s'.kv[KeyOf(r)] == r && Owns(d, r) && !EffectOf(d, e.at, e.kind.pass).purges
  {
    hide Sees, GivesNewNames, WorldAfter, FreshNames, AllSelfFound, RollsTo, FoundFrom, Lookable, PrunedKeys, RollsBack,
         Persisted, Reconciled, NothingBefore, Judged, AfterFailure, Owns, RecordAfter, SavesRollback, ObservationOf;
    var p := e.kind.pass;
    if Lookable(s, r) {
      LookableFacts(s, r);
    } else {
      EffectFacts(d, e.at, p);
    }
    if p.newRev.Some? {
      CurrentReplacesNothing(s.kv, d, e.at, p);
      var saved := WithCurrent(s.kv, p);
      assert KeyOf(r) in saved && saved[KeyOf(r)] == r;
      if p.rolled.Some? {
        AutomaticRollbackKeeps(saved, s'.kv, d, e.at, p, EffectOf(d, e.at, p), r);
      }
    }
  }

  lemma AutomaticRollbackKeeps(saved: Store, kv': Store, d: Deployment, now: int, p: Pass, e: Reconciles.Effect,
                               r: Revision)
    requires HasLimits(d.spec) && p.newRev.Some? && p.rolled.Some?
    requires var o := ObservationOf(p);
             ReactsTo(saved, kv', Judged(WithCounts(d, o), o.newCount, now), now, p)
    requires forall k | k in saved :: k.name != p.copyName
    requires KeyOf(r) in saved && saved[KeyOf(r)] == r && KeyOf(r) !in PrunedKeys(d, p.rolled.value)
    ensures KeyOf(r) in kv' && kv'[KeyOf(r)] == r
  {
    hide PrunedSlots, Slots, UpdatedStates, AfterFailure, ObservationOf, ChoosesFrom, RolledBack;
    var roll := p.rolled.value;
    var d2 := Judged(WithCounts(d, ObservationOf(p)), ObservationOf(p).newCount, now);
    RollbackKeeps(saved, kv', d2, AfterFailure(d2, now, Some(roll.copy.app)), now, p.copyName, roll, r);
  }

  /** The deployment that a pass judges failed or not. */
  function JudgedBy(d: Deployment, at: int, p: Pass): Deployment
    requires HasLimits(d.spec) && p.newRev.Some?
  {
    Judged(WithCounts(d, ObservationOf(p)), ObservationOf(p).newCount, at)
  }

  /** An automatic rollback is a rollback like any other, of the store in which the pass has
      saved its current revision, so what a rollback leaves and that it takes effect hold of
      it: how many revisions it leaves, for instance. */
  lemma AutomaticRollbackLeaves(env: Env, s: System, e: Event, s': System, d: Deployment)
    requires e.kind.PassOf? && PassSteps(env, s, e, s', d) && Good(s) && e.kind.pass.rolled.Some?
    requires e.kind.pass.newRev.Some?
    ensures var p := e.kind.pass;
            var saved, r, judged := WithCurrent(s.kv, p), p.rolled.value, JudgedBy(d, e.at, p);
            && RollsTo(saved, s'.kv, judged, AfterFailure(judged, e.at, Some(r.copy.app)), e.at, p.copyName, r)
            && NewNamed(saved, judged, r) && r.unnamed && judged.spec.revisionLimit.Some?
            && |r.all| >= 2
            && var limit := judged.spec.revisionLimit.value;
               |OwnedKeys(s'.kv, judged)| == Due(|OwnedKeys(saved, judged)|, limit)
                                             - (if CurrentCounts(saved, judged, r, limit) then 0 else 1)
                                             - (if CopyCounts(judged, r, limit) then 0 else 1)
  {
    hide Sees, GivesNewNames, WorldAfter, FreshNames, AllSelfFound, RollsTo, FoundFrom, RollsBack, Persisted,
         Reconciled, NothingBefore, Judged, AfterFailure, Owns, RecordAfter, SavesRollback, ObservationOf,
         CurrentCounts, CopyCounts, NewNamed, OwnedKeys;
    var p := e.kind.pass;
    var saved, r, judged := WithCurrent(s.kv, p), p.rolled.value, JudgedBy(d, e.at, p);
    CurrentReplacesNothing(s.kv, d, e.at, p);
    assert p.rollbackName != p.copyName by { NamesOfPass(s.kv, p); }
    PassRollbackIsNewNamed(saved, s'.kv, judged, AfterFailure(judged, e.at, Some(r.copy.app)), e.at, p.copyName, r);
    RollbackLeaves(saved, s'.kv, judged, AfterFailure(judged, e.at, Some(r.copy.app)), e.at, r);
  }

  lemma NamesOfPass(kv: Store, p: Pass)
    requires GivesNewNames(kv, p)
    ensures p.rollbackName != p.copyName
  {}

  lemma PassRollbackIsNewNamed(kv: Store, kv': Store, d: Deployment, d': Deployment, now: int, name: string, r: Rolled)
    requires RollsTo(kv, kv', d, d', now, name, r) && r.builtName != name
    requires forall k | k in kv :: k.name != name && k.name != r.builtName
    ensures ChoosesFrom(kv, d, now, r) && RolledBack(kv, kv', d, d', r) && NewNamed(kv, d, r)
    ensures d.spec.revisionLimit.Some? && (r.unnamed ==> |r.all| >= 2)
  {
    hide NewestFirst, Others, Owns, CompareAppSpecs, IsValid, PrunedSlots, Slots, RollbackStates;
    if MatchesSpec(d, r.sorted) {
      assert r.current == r.sorted[0] && r.current in r.sorted;
    }
  }

  // ---------- and what is dropped is forgotten ----------

  lemma RollbackPrunes(kv: Store, kv': Store, d: Deployment, d': Deployment, now: int, name: string, r: Rolled,
                       key: Key)
    requires RollsTo(kv, kv', d, d', now, name, r) && key in PrunedKeys(d, r)
    ensures key !in kv'
  {
    hide ChoosesFrom, PrunedSlots, Slots, CopyOf, RollbackStates, InNamespace;
  }

  lemma TaskForgets(s: System, e: Event, s': System, d: Deployment, r: Revision)
    requires IsTask(e.kind) && s.record == Some(d) && HasLimits(d.spec) && TaskSteps(s, e, s', d)
    requires Drops(s, e, r)
    ensures !Lookable(s', r)
  {
    hide RollsTo, Inactive, RollbackStates, PutStatus, PrunedKeys, NewNamed;
    if e.kind.RollbackTask? {
      var roll := e.kind.rolled;
      RollbackPrunes(s.kv, s'.kv, d, AfterRollback(d, roll.copy), e.at, e.kind.copyName, roll, KeyOf(r));
    }
  }

  lemma PassForgets(env: Env, s: System, e: Event, s': System, d: Deployment, r: Revision)
    requires e.kind.PassOf? && s.record == Some(d) && PassSteps(env, s, e, s', d) && Drops(s, e, r)
    ensures !Lookable(s', r)
  {
    hide Sees, GivesNewNames, WorldAfter, FoundFrom, PrunedKeys, SavesRollback, ObservationOf, EffectOf, Persisted,
         Owns, Judged, RollsTo, NothingBefore, AfterFailure;
    var p := e.kind.pass;
    var effect := EffectOf(d, e.at, p);
    if !effect.purges {
      RecordKept(s, e, d);
      OwnershipKept(d, s'.record.value, r);
      if p.rolled.Some? && KeyOf(r) in PrunedKeys(d, p.rolled.value) {
        AutomaticRollbackPrunes(WithCurrent(s.kv, p), s'.kv, d, e.at, p, KeyOf(r));
      }
    }
  }

  lemma AutomaticRollbackPrunes(saved: Store, kv': Store, d: Deployment, now: int, p: Pass, key: Key)
    requires HasLimits(d.spec) && p.newRev.Some? && p.rolled.Some?
    requires var o := ObservationOf(p);
             ReactsTo(saved, kv', Judged(WithCounts(d, o), o.newCount, now), now, p)
    requires key in PrunedKeys(d, p.rolled.value)
    ensures key !in kv'
  {
    hide PrunedSlots, Slots, UpdatedStates, AfterFailure, ObservationOf, ChoosesFrom, RolledBack;
    var roll := p.rolled.value;
    var d2 := Judged(WithCounts(d, ObservationOf(p)), ObservationOf(p).newCount, now);
    RollbackPrunes(saved, kv', d2, AfterFailure(d2, now, Some(roll.copy.app)), now, p.copyName, roll, key);
  }

  /** A revision that was listed, or whose containers a pass starts, is listed after the event
      if and only if the event does not drop it. */
  lemma ListedUnlessDropped(env: Env, s: System, e: Event, s': System, template: Deployment, r: Revision)
    requires Steps(env, s, e, s', template) && Good(s) && Sound(s) && s.record.Some?
    requires Lookable(s, r) || StartsOf(s, e, r)
    ensures Lookable(s', r) <==> !Drops(s, e, r)
  {
    hide TaskSteps, PassSteps, Good, Loses;
    var d := s.record.value;
    if e.kind.PassOf? {
      hide Drops;
      if Drops(s, e, r) {
        PassForgets(env, s, e, s', d, r);
      } else {
        PassKeeps(env, s, e, s', d, r);
      }
    } else if !e.kind.Crash? {
      hide Drops;
      if Drops(s, e, r) {
        TaskForgets(s, e, s', d, r);
      } else {
        TaskKeeps(s, e, s', d, r);
      }
    }
  }

  /** After any event a running container is tracked, or dropped by this event, or it ran
      before, with the same labels, and was not tracked then. */
  lemma AccountedStep(env: Env, s: System, e: Event, s': System, template: Deployment, k: ContainerName)
    requires Steps(env, s, e, s', template) && Good(s) && Sound(s) && k in s'.world.running
    ensures Tracked(s', k) || DropsContainer(s, e, s', k)
            || (k in s.world.running && s'.world.running[k] == s.world.running[k] && !Tracked(s, k))
  {
    hide Finds, Lookable, StartsOf, Drops, Steps, Good;
    OldOrStarted(env, s, e, s', template, k);
    if !(k in s.world.running && s'.world.running[k] == s.world.running[k] && !Tracked(s, k)) {
      var r :| (Lookable(s, r) || StartsOf(s, e, r)) && Finds(r, s'.world.running[k]);
      HasRecord(s, e, r);
      if !Drops(s, e, r) {
        ListedUnlessDropped(env, s, e, s', template, r);
      }
    }
  }

  lemma HasRecord(s: System, e: Event, r: Revision)
    requires Sound(s) && (Lookable(s, r) || StartsOf(s, e, r))
    ensures s.record.Some? && HasLimits(s.record.value.spec)
  {}

  lemma OldOrStarted(env: Env, s: System, e: Event, s': System, template: Deployment, k: ContainerName)
    requires Steps(env, s, e, s', template) && Good(s) && Sound(s) && k in s'.world.running
    ensures || (k in s.world.running && s'.world.running[k] == s.world.running[k])
            || exists r :: StartsOf(s, e, r) && Finds(r, s'.world.running[k])
  {
    hide TaskSteps, PassSteps, Finds, EffectOf;
    if e.kind.PassOf? && s.record.Some? {
      StartedAreFound(env, s, e, s', s.record.value, k);
    } else if !e.kind.Crash? && s.record.Some? {
      TasksLeaveContainers(s, e, s', s.record.value);
    }
  }

  lemma TasksLeaveContainers(s: System, e: Event, s': System, d: Deployment)
    requires IsTask(e.kind) && TaskSteps(s, e, s', d)
    ensures s'.world == s.world
  {
    hide RollsTo, Handled, Persisted, NewNamed;
  }

  lemma StartedAreFound(env: Env, s: System, e: Event, s': System, d: Deployment, k: ContainerName)
    requires e.kind.PassOf? && s.record == Some(d) && PassSteps(env, s, e, s', d) && Good(s) && k in s'.world.running
    ensures || (k in s.world.running && s'.world.running[k] == s.world.running[k])
            || exists r :: StartsOf(s, e, r) && Finds(r, s'.world.running[k])
  {
    hide Finds, FreshNames, SelfFound, Sees, GivesNewNames, WorldAfter, RecordAfter, SavesRollback, Passes, GoodStore,
         EffectOf, StartLabels;
    var p := e.kind.pass;
    PassKeepsNamesFresh(env, s, e, s', d);
    PassKeepsStoreGood(s.kv, s'.kv, d, e.at, p, EffectOf(d, e.at, p));
    if p.newRev.Some? && EffectOf(d, e.at, p).rolls {
      FindsItsOwn(ModeOf(d.spec.mode), p.newRev.value);
      assert StartsOf(s, e, p.newRev.value);
    }
  }

  // ---------- whole runs ----------

  /** The event at index `j` dropped the container. */
  ghost predicate DroppedAt(systems: seq<System>, events: seq<Event>, j: int, k: ContainerName) {
    0 <= j < |events| && |systems| == |events| + 1 && DropsContainer(systems[j], events[j], systems[j + 1], k)
  }

  ghost predicate DroppedBefore(systems: seq<System>, events: seq<Event>, i: nat, k: ContainerName) {
    exists j :: j < i && DroppedAt(systems, events, j, k)
  }

  ghost predicate TracksAll(s: System) {
    forall k | k in s.world.running :: Tracked(s, k)
  }

  /** A run that starts with all its containers tracked, and with stored revisions that find
      their own. */
  ghost predicate GoodRun(env: Env, systems: seq<System>, events: seq<Event>, template: Deployment) {
    Run(env, systems, events, template) && Sound(systems[0]) && Good(systems[0]) && TracksAll(systems[0])
  }

  /** In every serial run each running container is tracked, or was dropped by an earlier
      event: nothing is lost track of otherwise. */
  lemma {:induction false} TrackedOrDropped(env: Env, systems: seq<System>, events: seq<Event>, template: Deployment,
                                            i: nat)
    requires GoodRun(env, systems, events, template) && i <= |events|
    ensures Good(systems[i])
    ensures forall k | k in systems[i].world.running :: Tracked(systems[i], k) || DroppedBefore(systems, events, i, k)
  {
    hide Sound, Good, Steps, Tracked, DropsContainer;
    if i > 0 {
      TrackedOrDropped(env, systems, events, template, i - 1);
      AlwaysSound(env, systems, events, template, i - 1);
      StepIsGood(env, systems[i - 1], events[i - 1], systems[i], template);
      forall k | k in systems[i].world.running
        ensures Tracked(systems[i], k) || DroppedBefore(systems, events, i, k)
      {
        AccountedStep(env, systems[i - 1], events[i - 1], systems[i], template, k);
        if DropsContainer(systems[i - 1], events[i - 1], systems[i], k) {
          assert DroppedAt(systems, events, i - 1, k);
        }
      }
    }
  }

  // ---------- quitting ----------

  /** The pass at index `i` makes the worker quit. */
  ghost predicate QuitsAt(systems: seq<System>, events: seq<Event>, i: nat)
    requires i < |events| && i < |systems|
  {
    && events[i].kind.PassOf? && systems[i].record.Some? && HasLimits(systems[i].record.value.spec)
    && EffectOf(systems[i].record.value, events[i].at, events[i].kind.pass).quits
  }

  /** The current revision and the others are all the listed ones. */
  lemma LookupListsAll(kv: Store, d: Deployment, now: int, p: Pass, r: Revision)
    requires ValidStore(kv) && GivesNewNames(kv, p) && p.newRev.Some?
    requires FoundFrom(kv, d, p.builtName, now, p.sorted, p.newRev, p.oldRevs)
    requires KeyOf(r) in OwnedKeys(kv, d) && kv[KeyOf(r)] == r
    ensures r in Listed(p)
  {
    hide CompareAppSpecs, CompareRevisions, IsValid, NewestFirst, Others, Owns;
    assert KeyOf(r) in KeysOf(p.sorted);
    assert r in p.sorted;
    if MatchesSpec(d, p.sorted) {
      NewestOthers(kv, d, p.sorted);
      assert p.sorted == [p.sorted[0]] + p.sorted[1..];
    } else {
      assert KeyOf(p.newRev.value).name == p.builtName;
      NotListed(kv, d, p.sorted, p.newRev.value);
      OthersOfUnstored(p.sorted, p.newRev.value);
    }
  }

  lemma NoneIsTracked(env: Env, s: System, e: Event, s': System, d: Deployment)
    requires e.kind.PassOf? && s.record == Some(d) && PassSteps(env, s, e, s', d) && Good(s)
    requires EffectOf(d, e.at, e.kind.pass).quits && HasSight(ModeOf(d.spec.mode), e.kind.nodes)
    ensures forall k | k in s.world.running :: !Tracked(s, k)
  {
    hide Finds, Reconciled, FreshNames, AllSelfFound, GivesNewNames, WorldAfter, RecordAfter, SavesRollback, FoundFrom,
         ChangesStore, OwnedKeys, EffectOf;
    var p := e.kind.pass;
    EffectFacts(d, e.at, p);
    forall k, r | k in s.world.running && Lookable(s, r) ensures !Finds(r, s.world.running[k]) {
      LookupListsAll(s.kv, d, e.at, p, r);
      assert k !in Names(p.total);
    }
  }

  /** The pass at index `i` could see containers: it went to the docker daemon, or had nodes. */
  predicate SightAt(systems: seq<System>, events: seq<Event>, i: nat)
    requires i < |events| && i < |systems| && events[i].kind.PassOf? && systems[i].record.Some?
  {
    HasSight(ModeOf(systems[i].record.value.spec.mode), events[i].kind.nodes)
  }

  /** A worker quits only for a stopped deployment and, if its pass could see containers, when
      none of a listed revision runs; if it deletes the record it also leaves no listed
      revision. */
  lemma QuitsOnlyWhenNoneIsTracked(env: Env, systems: seq<System>, events: seq<Event>, template: Deployment, i: nat)
    requires GoodRun(env, systems, events, template) && i < |events| && QuitsAt(systems, events, i)
    ensures SightAt(systems, events, i) ==> forall k | k in systems[i].world.running :: !Tracked(systems[i], k)
    ensures systems[i].record.value.status.stopped
    ensures var d := systems[i].record.value;
            systems[i + 1].record.None? ==> OwnedKeys(systems[i + 1].kv, d) == {}
  {
    var s, e, s', d := systems[i], events[i], systems[i + 1], systems[i].record.value;
    AlwaysSound(env, systems, events, template, i);
    assert d.status.deleted ==> d.status.stopped;
    hide Sound, Good, Tracked, Passes, PassSteps, EffectOf;
    TrackedOrDropped(env, systems, events, template, i);
    assert Steps(env, s, e, s', template);
    if SightAt(systems, events, i) {
      NoneIsTracked(env, s, e, s', d);
    }
    EffectFacts(d, e.at, e.kind.pass);
    if s'.record.None? {
      PurgeLeavesNone(env, s, e, s', d);
    }
  }

  lemma PurgeLeavesNone(env: Env, s: System, e: Event, s': System, d: Deployment)
    requires e.kind.PassOf? && s.record == Some(d) && PassSteps(env, s, e, s', d) && s'.record.None?
    ensures OwnedKeys(s'.kv, d) == {}
  {
    hide Reconciled, WorldAfter, GivesNewNames, Sees, FoundFrom, SavesRollback, ReactsTo, Persisted;
    var p := e.kind.pass;
    EffectKeepsIdentity(d, e.at, p);
    forall r ensures Owns(EffectOf(d, e.at, p).d, r) <==> Owns(d, r) {
      OwnershipKept(d, EffectOf(d, e.at, p).d, r);
    }
  }

  /** A pass of the indirect mode that is given no nodes sees nothing: over a stopped or deleted
      deployment it quits, and deletes what it is to delete, whatever runs, and stops none of it. */
  lemma BlindPassQuits(env: Env, s: System, e: Event, s': System, template: Deployment)
    requires Steps(env, s, e, s', template) && s.record.Some? && e.kind.PassOf?
    requires !HasSight(ModeOf(s.record.value.spec.mode), e.kind.nodes)
    requires s.record.value.status.stopped || s.record.value.status.deleted
    requires e.kind.pass.newRev.Some? && e.kind.pass.cut > 5
    ensures EffectOf(s.record.value, e.at, e.kind.pass).quits && s'.world == s.world
    ensures s'.record.None? <==> s.record.value.status.deleted
  {
    hide Passes, GivesNewNames, SavesRollback, EffectOf, Roll, Persisted;
    var d := s.record.value;
    EffectFacts(d, e.at, e.kind.pass);
    StopsNothingBlindly(env, s.world, ModeOf(d.spec.mode), e.kind.nodes, |e.kind.pass.total|, e.kind.pass.total);
  }

  lemma StopsNothingBlindly(env: Env, w: World, mode: Mode, nodes: seq<string>, n: nat, apps: seq<App>)
    requires !HasSight(mode, nodes)
    ensures StopApps(env, w, mode, nodes, n, apps).world == w
  {}

  /** When quitting means that nothing runs: if and only if none of the containers that the
      events of the run dropped, with revisions that rollbacks pruned, puts no longer selected
      or the deployment never owned, still runs, and the quitting pass could see containers,
      or there was none for it to see. */
  lemma QuitsWithNothingRunningExactlyWhen(env: Env, systems: seq<System>, events: seq<Event>, template: Deployment,
                                           i: nat)
    requires GoodRun(env, systems, events, template) && i < |events| && QuitsAt(systems, events, i)
    ensures systems[i].world.running == map[]
       <==> && (forall k :: DroppedBefore(systems, events, i, k) ==> k !in systems[i].world.running)
            && (SightAt(systems, events, i)
                || forall k | k in systems[i].world.running :: !Tracked(systems[i], k))
  {
    hide Steps, Sound, Good, TracksAll, Tracked, DroppedBefore, EffectOf, SightAt;
    QuitsOnlyWhenNoneIsTracked(env, systems, events, template, i);
    TrackedOrDropped(env, systems, events, template, i);
    if && (forall k :: DroppedBefore(systems, events, i, k) ==> k !in systems[i].world.running)
       && (SightAt(systems, events, i) || forall k | k in systems[i].world.running :: !Tracked(systems[i], k)) {
      assert forall k :: k !in systems[i].world.running;
    }
  }

  /** A pass over a stopped deployment stops, when no call fails, every container of a listed
      revision, so that the next pass finds none. */
  lemma StoppingPassClears(env: Env, s: System, e: Event, s': System, template: Deployment)
    requires Steps(env, s, e, s', template) && NeverFails(env) && e.kind.PassOf?
    requires s.record.Some? && s.record.value.status.stopped && e.kind.pass.newRev.Some? && e.kind.pass.cut > 5
    requires HasSight(ModeOf(s.record.value.spec.mode), e.kind.nodes)
    ensures Shrinks(s.world, s'.world)
    ensures forall k | k in s'.world.running :: !FoundBy(Listed(e.kind.pass), s'.world.running[k])
  {
    hide Passes, GivesNewNames, RecordAfter, SavesRollback, NeverFails, StopApps, FoundBy, EffectOf;
    var d, p := s.record.value, e.kind.pass;
    var mode := ModeOf(d.spec.mode);
    EffectFacts(d, e.at, p);
    StopAppsLoses(env, s.world, mode, e.kind.nodes, |p.total|, p.total);
    LosesShrinks(s.world, s'.world, Names(Tail(p.total, |p.total|)));
    StopAppsRemoves(env, s.world, mode, e.kind.nodes, |p.total|, p.total);
  }

  // ---------- when a snapshot is faithful ----------

  /** Each container that a revision finds carries exactly the labels it was started with. */
  ghost predicate CarryTheirLabels(w: World, revs: seq<Revision>) {
    forall k, r | k in w.running && r in revs :: Finds(r, w.running[k]) ==> w.running[k] == r.app.labels
  }

  /** The snapshot of a pass shows the running containers faithfully, as the bounds on rolling
      steps assume, if and only if none runs, or the pass could see containers and a listed
      revision finds every running one. */
  lemma FaithfulExactlyWhen(w: World, mode: Mode, p: Pass, nodes: seq<string>, active: seq<Revision>)
    requires p.newRev.Some? && Sees(w, mode, nodes, p) && DistinctNames(p.total)
    requires DistinctRevisions(Listed(p)) && (forall r | r in Listed(p) :: SelfFound(r))
    requires CarryTheirLabels(w, Listed(p))
    requires DistinctNames(p.available) && forall a | a in p.available :: a in p.total
    requires multiset(active) == multiset(ActiveRevisions(Listed(p), p.total))
    ensures Faithful(w, SnapshotOf(p, nodes, active))
       <==> w.running == map[]
            || (HasSight(mode, nodes) && forall k | k in w.running :: FoundBy(Listed(p), w.running[k]))
  {
    hide SelfFound, DistinctNames, DistinctRevisions, ActiveRevisions, ActiveCounts, Finds, FoundBy, Carried;
    var snap := SnapshotOf(p, nodes, active);
    assert AllRevisions(snap) == Listed(p);
    if HasSight(mode, nodes) {
      if forall k | k in w.running :: FoundBy(Listed(p), w.running[k]) {
        assert Names(p.total) == w.running.Keys;
        FoundAreCarried(w, p);
      }
      if Faithful(w, snap) {
        forall k | k in w.running ensures FoundBy(Listed(p), w.running[k]) {
          assert k in Names(p.total);
        }
      }
    } else {
      assert Names(p.total) == {};
    }
  }

  lemma FoundAreCarried(w: World, p: Pass)
    requires p.newRev.Some? && Queried(w, Listed(p), p.total) && CarryTheirLabels(w, Listed(p))
    ensures AllCarried(Listed(p), p.total)
  {
    hide Finds;
    var revs := Listed(p);
    forall a | a in p.total ensures Carried(revs, a.labels) {
      assert a.name in Names(p.total);
      var r :| r in revs && Finds(r, w.running[a.name]);
      var i :| 0 <= i < |revs| && revs[i] == r;
      assert StartedBy(revs, i, a.labels);
    }
  }
}
