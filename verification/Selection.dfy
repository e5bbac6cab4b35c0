/** Whether repeated reconciles of an unchanged deployment settle on one revision. */
module Selection {
  import opened Domain
  import opened Deployments
  import opened Revisions
  import opened Rollback
  import opened RollbackHistory
  import Snapshots

  /** The labels of the app spec contradict neither the selector nor the labels that every
      revision gets. */
  ghost predicate LabelsAgree(d: Deployment, name: string) {
    var l := d.spec.app.labels;
    && ("revision" in l ==> l["revision"] == name)
    && ("deployment" in l ==> l["deployment"] == d.name)
    && (forall k | k in l && k in d.spec.selector && k != "revision" && k != "deployment" ::
          l[k] == d.spec.selector[k])
  }

  lemma OverlayMatchesExactly(d: Deployment, name: string)
    ensures MatchLabels(OverlaidLabels(d, name), d.spec.app.labels) <==> LabelsAgree(d, name)
  {
    var l, built := d.spec.app.labels, OverlaidLabels(d, name);
    if MatchLabels(built, l) {
      forall k | k in l ensures built[k] == l[k] {}
    }
  }

  lemma RelabelledComparesByLabels(app: AppSpec, labels: Labels)
    ensures CompareAppSpecs(app, app.(labels := labels)) <==> MatchLabels(labels, app.labels)
  {
    hide MatchLabels;
  }

  /** A revision built from a deployment matches the deployment's app spec exactly when the
      labels agree; in particular a `revision` label left in the app spec never matches. */
  lemma BuiltMatchesExactly(d: Deployment, name: string, now: int)
    requires BuildRevision(d, name, now).Some?
    ensures CompareAppSpecs(d.spec.app, BuildRevision(d, name, now).value.app) <==> LabelsAgree(d, name)
  {
    hide LabelsAgree, CompareAppSpecs, OverlaidLabels;
    OverlayMatchesExactly(d, name);
    RelabelledComparesByLabels(d.spec.app, OverlaidLabels(d, name));
  }

  /** The deployment finds a revision built from it again exactly when its selector does not
      fix other `revision` or `deployment` labels. */
  ghost predicate SelectorAgrees(d: Deployment, name: string) {
    && ("revision" in d.spec.selector ==> d.spec.selector["revision"] == name)
    && ("deployment" in d.spec.selector ==> d.spec.selector["deployment"] == d.name)
  }

  lemma BuiltIsOwnedExactly(d: Deployment, name: string, now: int)
    requires BuildRevision(d, name, now).Some?
    ensures Owns(d, BuildRevision(d, name, now).value) <==> SelectorAgrees(d, name)
  {
    var s := d.spec.selector;
    var built := BuildRevision(d, name, now).value.selector;
    if MatchLabels(built, s) {
      assert "revision" in s ==> built["revision"] == s["revision"];
      assert "deployment" in s ==> built["deployment"] == s["deployment"];
    }
  }

  /** Its containers match its own selector exactly when the app spec has no label beyond
      those of the selector. */
  lemma BuiltIsWellFormedExactly(d: Deployment, name: string, now: int)
    requires BuildRevision(d, name, now).Some?
    ensures Snapshots.WellFormed(BuildRevision(d, name, now).value)
       <==> d.spec.app.labels.Keys <= d.spec.selector.Keys + {"revision", "deployment"}
  {
    var r := BuildRevision(d, name, now).value;
    assert r.app.labels.Keys == d.spec.app.labels.Keys + d.spec.selector.Keys + {"revision", "deployment"};
    if MatchLabels(r.selector, r.app.labels) {
      assert forall k | k in d.spec.app.labels :: k in r.app.labels && k in r.selector;
    }
  }

  // ---------- repeated reconciles ----------

  /** A reconcile looks up the current revision and saves it, built or not. */
  ghost predicate SavesCurrent(kv: Store, kv': Store, d: Deployment, name: string, now: int) {
    exists sorted :: SavesFrom(kv, kv', d, name, now, sorted)
  }

  ghost predicate SavesFrom(kv: Store, kv': Store, d: Deployment, name: string, now: int, sorted: seq<Revision>) {
    && Lists(kv, d, sorted) && NewestFirst(sorted)
    && NewOf(d, sorted, name, now).Some?
    && var r := NewOf(d, sorted, name, now).value;
       kv' == kv[KeyOf(r) := r]
  }

  /** Whichever of the owned revisions comes first when sorted, it has another app spec. */
  ghost predicate NoneMatches(kv: Store, d: Deployment) {
    forall sorted | Lists(kv, d, sorted) && NewestFirst(sorted) :: !MatchesSpec(d, sorted)
  }

  /** Some owned revision has the deployment's app spec and is newer than all others. */
  ghost predicate Settled(kv: Store, d: Deployment, key: Key) {
    && key in OwnedKeys(kv, d) && KeyOf(kv[key]) == key
    && CompareAppSpecs(d.spec.app, kv[key].app)
    && forall k | k in OwnedKeys(kv, d) && k != key :: kv[k].timestamp < kv[key].timestamp
  }

  /** The names are new, and each reconcile is later than everything stored before. */
  ghost predicate NewNames(kv: Store, d: Deployment, name: string, now: int) {
    && Key(d.orgId, d.namespace, name) !in kv
    && (forall k | k in kv :: kv[k].timestamp < now)
    && ("revision" in d.spec.app.labels ==> d.spec.app.labels["revision"] != name)
    && ("revision" in d.spec.selector ==> d.spec.selector["revision"] != name)
  }

  /** Independently of the name: no `revision` label anywhere, and no contradiction. */
  ghost predicate CanSettle(d: Deployment) {
    && "revision" !in d.spec.app.labels && "revision" !in d.spec.selector
    && ("deployment" in d.spec.app.labels ==> d.spec.app.labels["deployment"] == d.name)
    && ("deployment" in d.spec.selector ==> d.spec.selector["deployment"] == d.name)
    && (forall k | k in d.spec.app.labels && k in d.spec.selector && k != "deployment" ::
          d.spec.app.labels[k] == d.spec.selector[k])
  }

  lemma SettledAddsNothing(kv: Store, kv': Store, d: Deployment, key: Key, name: string, now: int)
    requires Settled(kv, d, key) && SavesCurrent(kv, kv', d, name, now)
    ensures kv' == kv
  {
    hide CompareAppSpecs, BuildRevision, IsValid, Owns;
    var sorted :| SavesFrom(kv, kv', d, name, now, sorted);
    NewestIsFirst(kv, d, sorted, kv[key]);
  }

  lemma BuildsWhenNoneMatches(kv: Store, kv': Store, d: Deployment, name: string, now: int)
    requires NoneMatches(kv, d) && SavesCurrent(kv, kv', d, name, now) && NewNames(kv, d, name, now)
    ensures BuildRevision(d, name, now).Some?
    ensures kv' == kv[Key(d.orgId, d.namespace, name) := BuildRevision(d, name, now).value]
    ensures |kv'| == |kv| + 1
  {
    hide CompareAppSpecs, IsValid, Lists, NewestFirst, MatchesSpec;
    var sorted :| SavesFrom(kv, kv', d, name, now, sorted);
    assert !MatchesSpec(d, sorted);
  }

  lemma BuiltIsNewest(kv: Store, kv': Store, d: Deployment, name: string, now: int)
    requires ValidStore(kv) && NewNames(kv, d, name, now) && BuildRevision(d, name, now).Some?
    requires kv' == kv[Key(d.orgId, d.namespace, name) := BuildRevision(d, name, now).value]
    ensures var key := Key(d.orgId, d.namespace, name);
            && key !in kv
            && kv'[key] == BuildRevision(d, name, now).value && kv'[key].timestamp == now
            && (forall k | k in kv' && k != key :: k in kv && kv'[k] == kv[k] && kv'[k].timestamp < now)
  {}

  /** One reconcile with a matching, owned revision newly built settles the store; otherwise
      none matches afterwards either. */
  lemma BuildingSettlesExactly(kv: Store, kv': Store, d: Deployment, name: string, now: int)
    requires ValidStore(kv) && NoneMatches(kv, d)
    requires SavesCurrent(kv, kv', d, name, now) && NewNames(kv, d, name, now)
    ensures CanSettle(d) ==> Settled(kv', d, Key(d.orgId, d.namespace, name))
    ensures !CanSettle(d) ==> NoneMatches(kv', d)
    ensures ValidStore(kv') && |kv'| == |kv| + 1
  {
    hide CompareAppSpecs, SavesCurrent, Owns, NoneMatches, NewNames;
    var key := Key(d.orgId, d.namespace, name);
    BuildsWhenNoneMatches(kv, kv', d, name, now);
    BuiltIsNewest(kv, kv', d, name, now);
    BuiltMatchesExactly(d, name, now);
    BuiltIsOwnedExactly(d, name, now);
    SettlesExactly(kv, d, name, now);
    if !CanSettle(d) {
      StaysUnmatched(kv, kv', d, name, now);
    }
  }

  lemma SettlesExactly(kv: Store, d: Deployment, name: string, now: int)
    requires NewNames(kv, d, name, now)
    ensures CanSettle(d) <==> LabelsAgree(d, name) && SelectorAgrees(d, name)
  {}

  lemma StaysUnmatched(kv: Store, kv': Store, d: Deployment, name: string, now: int)
    requires NoneMatches(kv, d) && NewNames(kv, d, name, now) && ValidStore(kv) && BuildRevision(d, name, now).Some?
    requires kv' == kv[Key(d.orgId, d.namespace, name) := BuildRevision(d, name, now).value]
    requires !CanSettle(d)
    ensures NoneMatches(kv', d)
  {
    hide CompareAppSpecs, Owns, NewNames, NoneMatches, LabelsAgree, SelectorAgrees, BuildRevision, ValidStore;
    var r := BuildRevision(d, name, now).value;
    BuiltMatchesExactly(d, name, now);
    BuiltIsOwnedExactly(d, name, now);
    SettlesExactly(kv, d, name, now);
    BuiltIsNewest(kv, kv', d, name, now);
    BuiltKey(d, name, now);
    forall sorted | Lists(kv', d, sorted) && NewestFirst(sorted) ensures !MatchesSpec(d, sorted) {
      if Owns(d, r) {
        NewestIsFirst(kv', d, sorted, r);
      } else {
        UnownedIsNotListed(kv, kv', d, r, sorted);
        assert !MatchesSpec(d, sorted) by { NoneMatchesAny(kv, d, sorted); }
      }
    }
    assert NoneMatches(kv', d) by { AllUnmatched(kv', d); }
  }

  lemma NoneMatchesAny(kv: Store, d: Deployment, sorted: seq<Revision>)
    requires NoneMatches(kv, d) && Lists(kv, d, sorted) && NewestFirst(sorted)
    ensures !MatchesSpec(d, sorted)
  {}

  lemma AllUnmatched(kv: Store, d: Deployment)
    requires forall sorted | Lists(kv, d, sorted) && NewestFirst(sorted) :: !MatchesSpec(d, sorted)
    ensures NoneMatches(kv, d)
  {}

  lemma BuiltKey(d: Deployment, name: string, now: int)
    requires BuildRevision(d, name, now).Some?
    ensures KeyOf(BuildRevision(d, name, now).value) == Key(d.orgId, d.namespace, name)
  {}

  lemma UnownedIsNotListed(kv: Store, kv': Store, d: Deployment, r: Revision, sorted: seq<Revision>)
    requires kv' == kv[KeyOf(r) := r] && KeyOf(r) !in kv && !Owns(d, r) && Lists(kv', d, sorted)
    ensures Lists(kv, d, sorted)
  {
    hide Owns;
    assert OwnedKeys(kv', d) == OwnedKeys(kv, d);
    forall x | x in sorted ensures KeyOf(x) in kv && kv[KeyOf(x)] == x {
      assert KeyOf(x) in KeysOf(sorted);
    }
  }

  /** The stores seen by `|names|` reconciles of an unchanged deployment. */
  ghost predicate Reconciles(kvs: seq<Store>, d: Deployment, names: seq<string>, times: seq<int>) {
    && |kvs| == |names| + 1 && |times| == |names|
    && ValidStore(kvs[0])
    && forall i | 0 <= i < |names| ::
         SavesCurrent(kvs[i], kvs[i + 1], d, names[i], times[i]) && NewNames(kvs[i], d, names[i], times[i])
  }

  /** The revision history of an unchanged deployment: starting from a store in which none
      matches, it grows by exactly one revision however often it is reconciled if the labels
      can settle, and by one with every single reconcile if they cannot. */
  lemma {:induction false} HistoryGrowth(kvs: seq<Store>, d: Deployment, names: seq<string>, times: seq<int>, n: nat)
    requires Reconciles(kvs, d, names, times) && NoneMatches(kvs[0], d) && 0 < n <= |names|
    ensures |kvs[n]| == |kvs[0]| + if CanSettle(d) then 1 else n
    ensures ValidStore(kvs[n])
    ensures CanSettle(d) ==> Settled(kvs[n], d, Key(d.orgId, d.namespace, names[0]))
    ensures !CanSettle(d) ==> NoneMatches(kvs[n], d)
  {
    hide CanSettle, SavesCurrent, NewNames, NoneMatches, Settled, ValidStore;
    if n == 1 {
      BuildingSettlesExactly(kvs[0], kvs[1], d, names[0], times[0]);
    } else {
      HistoryGrowth(kvs, d, names, times, n - 1);
      if CanSettle(d) {
        SettledAddsNothing(kvs[n - 1], kvs[n], d, Key(d.orgId, d.namespace, names[0]), names[n - 1], times[n - 1]);
      } else {
        BuildingSettlesExactly(kvs[n - 1], kvs[n], d, names[n - 1], times[n - 1]);
      }
    }
  }

  // ---------- reconciles after a rollback ----------

  lemma {:induction false} SettledForGood(kvs: seq<Store>, d: Deployment, names: seq<string>, times: seq<int>,
                                          key: Key, n: nat)
    requires Reconciles(kvs, d, names, times) && Settled(kvs[0], d, key) && n <= |names|
    ensures kvs[n] == kvs[0]
  {
    hide Settled, SavesCurrent, NewNames;
    if n > 0 {
      SettledForGood(kvs, d, names, times, key, n - 1);
      SettledAddsNothing(kvs[n - 1], kvs[n], d, key, names[n - 1], times[n - 1]);
    }
  }

  /** Every stored revision's containers are labelled with its name. */
  ghost predicate CarryOwnNames(kv: Store) {
    forall k | k in kv :: "revision" in kv[k].app.labels && kv[k].app.labels["revision"] == kv[k].name
  }

  /** The copy has a new name and is newer than everything stored. */
  ghost predicate IsNews(kv: Store, copy: Revision) {
    forall k | k in kv :: k.name != copy.name && kv[k].timestamp < copy.timestamp
  }

  /** The deployment's selector fixes no `revision` label, or by chance this one. */
  predicate SelectsRevision(d: Deployment, name: string) {
    "revision" in d.spec.selector ==> d.spec.selector["revision"] == name
  }

  /** After an unnamed rollback the later reconciles settle on the copy, and add no revision
      however many they are, exactly if the limit is not one or two, under which the copy is
      deleted again, and the deployment owns the copy; otherwise every single reconcile adds a
      revision. It owns the copy of a revision of its own exactly if its selector fixes no
      `revision` label. */
  lemma UnnamedRollbackSettlesExactly(kv: Store, kv': Store, d: Deployment, d': Deployment, now: int, r: Rolled,
                                      kvs: seq<Store>, names: seq<string>, times: seq<int>, n: nat)
    requires ValidStore(kv) && CarryOwnNames(kv) && IsNews(kv, r.copy)
    requires ChoosesFrom(kv, d, now, r) && RolledBack(kv, kv', d, d', r) && NewNamed(kv, d, r)
    requires r.unnamed
    requires "deployment" in r.source.app.labels && r.source.app.labels["deployment"] == d.name
    requires Reconciles(kvs, Saved(d'), names, times) && kvs[0] == kv' && n <= |names|
    ensures |kvs[n]| == |kv'| + if DropsCopy(r, d.spec.revisionLimit.value) || !Owns(d, r.copy) then n else 0
    ensures Owns(d, r.source) ==> (Owns(d, r.copy) <==> SelectsRevision(d, r.copy.name))
  {
    hide Owns, ChoosesFrom, MatchesSpec, HoldsAll, KeptKeys, NewNamed, Reconciles, RollbackStates, OwnedKeys, Pruned,
         SelectsRevision;
    RollbackSurvivors(kv, kv', d, d', now, r);
    CopyIsNoneOfThem(kv, d, now, r);
    AfterPruning(kv, kv', d, d', r);
    OwnershipIgnoresApp(kv', d, d');
    assert Owns(d, r.source) ==> (Owns(d, r.copy) <==> SelectsRevision(d, r.copy.name)) by {
      SelectingOwns(d, r.source, r.copy.name, r.copy.timestamp);
    }
    if DropsCopy(r, d.spec.revisionLimit.value) || !Owns(d, r.copy) {
      OwnedCarryOtherLabels(kv', Saved(d'), r.copy);
      NoneCarriesItsLabel(kv', d', r.copy);
      if n > 0 {
        HistoryGrowth(kvs, Saved(d'), names, times, n);
      }
    } else {
      SavedKeepsApp(d', r.copy);
      CopySettles(kv', Saved(d'), r.copy);
      SettledForGood(kvs, Saved(d'), names, times, KeyOf(r.copy), n);
    }
  }

  lemma SelectingOwns(d: Deployment, source: Revision, name: string, now: int)
    ensures Owns(d, source) ==> (Owns(d, CopyOf(source, name, now)) <==> SelectsRevision(d, name))
  {
    CopyIsOwnedExactlyWhen(d, source, name, now);
  }

  lemma OwnedCarryOtherLabels(kv: Store, d: Deployment, copy: Revision)
    requires KeyOf(copy) !in OwnedKeys(kv, d)
    requires forall k | k in kv && k != KeyOf(copy) ::
               "revision" in kv[k].app.labels && kv[k].app.labels["revision"] != copy.name
    ensures forall k | k in OwnedKeys(kv, d) ::
              "revision" in kv[k].app.labels && kv[k].app.labels["revision"] != copy.name
  {
    hide Owns;
  }

  lemma CopyIsNoneOfThem(kv: Store, d: Deployment, now: int, r: Rolled)
    requires ChoosesFrom(kv, d, now, r) && NewNamed(kv, d, r) && (r.unnamed ==> |r.all| >= 2)
    ensures forall limit :: KeyOf(r.copy) !in KeptKeys(r, limit)
    ensures KeyOf(r.copy) != KeyOf(r.current)
  {
    hide ChoosesFrom, HoldsAll, KeptKeys, OwnedKeys, MatchesSpec;
    ChosenListHoldsAll(kv, d, now, r);
    HeldFacts(kv, d, r.current, r.all, r.copy);
    forall limit ensures KeyOf(r.copy) !in KeptKeys(r, limit) {
      KeptAreListed(r, limit);
    }
  }

  /** What is in the store after a rollback was there before, except the copy. */
  lemma AfterPruning(kv: Store, kv': Store, d: Deployment, d': Deployment, r: Rolled)
    requires ValidStore(kv) && CarryOwnNames(kv) && IsNews(kv, r.copy) && RolledBack(kv, kv', d, d', r)
    ensures forall k | k in kv' && k != KeyOf(r.copy) :: k in kv && kv'[k] == kv[k]
    ensures KeyOf(r.copy) in OwnedKeys(kv', d) <==> KeyOf(r.copy) in kv' && Owns(d, r.copy)
    ensures KeyOf(r.copy) in kv' ==> kv'[KeyOf(r.copy)] == r.copy
    ensures forall k | k in kv' && k != KeyOf(r.copy) :: kv'[k].timestamp < r.copy.timestamp
    ensures forall k | k in kv' && k != KeyOf(r.copy) ::
              && "revision" in kv'[k].app.labels && kv'[k].app.labels["revision"] != r.copy.name
    ensures ValidStore(kv') && d'.spec.app == r.copy.app && d'.name == d.name
    ensures "revision" in r.copy.app.labels && r.copy.app.labels["revision"] == r.copy.name
    ensures "deployment" in r.source.app.labels ==>
              "deployment" in r.copy.app.labels && r.copy.app.labels["deployment"] == r.source.app.labels["deployment"]
  {
    hide Owns, RollbackStates, Slots, PrunedSlots;
  }

  lemma NoneCarriesItsLabel(kv: Store, d: Deployment, copy: Revision)
    requires d.spec.app == copy.app && "revision" in copy.app.labels && copy.app.labels["revision"] == copy.name
    requires forall k | k in OwnedKeys(kv, Saved(d)) ::
               "revision" in kv[k].app.labels && kv[k].app.labels["revision"] != copy.name
    ensures NoneMatches(kv, Saved(d)) && !CanSettle(Saved(d))
  {
    var d' := Saved(d);
    assert d'.spec.app.labels["revision"] == copy.name;
    forall sorted | Lists(kv, d', sorted) && NewestFirst(sorted) ensures !MatchesSpec(d', sorted) {
      if sorted != [] {
        assert sorted[0] in sorted;
        assert KeyOf(sorted[0]) in OwnedKeys(kv, d');
      }
    }
  }

  lemma CopySettles(kv: Store, d: Deployment, copy: Revision)
    requires KeyOf(copy) in OwnedKeys(kv, d) && kv[KeyOf(copy)] == copy && d.spec.app == copy.app
    requires forall k | k in kv && k != KeyOf(copy) :: kv[k].timestamp < copy.timestamp
    ensures Settled(kv, d, KeyOf(copy))
  {
    hide Owns;
    RevisionComparesToItself(copy);
  }
}
