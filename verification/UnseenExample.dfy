/** Two workers that quit while one of their containers runs. In the first run a deployment with
    two revisions and a revision limit of one is rolled back to the older one by name, which
    deletes both, and is then stopped; its next pass looks only for containers of the copy. In
    the second a deployment of the indirect mode is stopped while no node is listed. */
module UnseenExample {
  import opened Domain
  import opened Runtime
  import opened RollSpec
  import opened Deployments
  import opened Revisions
  import opened Rollback
  import opened RollbackHistory
  import opened Reconciles
  import opened Persistence
  import opened SerialRuns
  import opened Tracking

  function LabelsOf(name: string): Labels {
    map["app" := "x", "deployment" := "d", "revision" := name]
  }

  function AppWith(labels: Labels): AppSpec {
    AppSpec("app", "ns", "org", labels, map[], SeccompProfile("", "", []), "")
  }

  function RevisionAt(name: string, time: int): Revision {
    Revision(name, "ns", "org", time, map[], LabelsOf(name), AppWith(LabelsOf(name)))
  }

  const NEWER := RevisionAt("a", 2)
  const OLDER := RevisionAt("b", 1)
  const COPY := CopyOf(OLDER, "c", 3)

  const SELECTOR: Labels := map["app" := "x", "deployment" := "d"]

  function SpecIn(mode: string): Spec {
    Spec(SELECTOR, 1, Some(1), map[], Strategy("", Some(RollingUpdate(Some(1), Some(1)))), AppWith(SELECTOR),
         0, 100, false, mode, Some(1))
  }

  /** The deployment as it is stored at first, after the rollback, and after the stop. */
  function D0(mode: string): Deployment {
    Persisted(Deployment("d", "ns", "org", map[], SpecIn(mode), NewStatus(0)))
  }

  function D1(mode: string): Deployment {
    Persisted(AfterRollback(D0(mode), COPY))
  }

  function D2(mode: string): Deployment {
    Persisted(D1(mode).(status := D1(mode).status.(stopped := true)))
  }

  const KV0: Store := map[KeyOf(NEWER) := NEWER, KeyOf(OLDER) := OLDER]
  const KV1: Store := map[KeyOf(COPY) := COPY]

  /** One container of the newer revision, or of the copy. */
  const OLD := World(map[ContainerName("a", 0) := LabelsOf("a")], 1)
  const NEW := World(map[ContainerName("c", 0) := LabelsOf("c")], 1)

  const ROLLED := Rolled(false, "z", [NEWER, OLDER], NEWER, [OLDER, NEWER], OLDER, COPY)
  const PASS := Pass([], [], [], 10, "e", "f", "g", true, Some(COPY), [], [COPY], None)

  const E0 := Event(3, RollbackTask("c", ROLLED))
  const E1 := Event(4, StopTask)
  const E2 := Event(5, PassOf(PASS, [], []))

  function S0(mode: string, w: World): System {
    System(Some(D0(mode)), KV0, w, 0, 2)
  }

  function S1(mode: string, w: World): System {
    System(Some(D1(mode)), KV1, w, 3, 3)
  }

  function S2(mode: string, w: World): System {
    System(Some(D2(mode)), KV1, w, 3, 4)
  }

  function S3(mode: string, w: World): System {
    System(Some(D2(mode)), KV1, w, 3, 5)
  }

  lemma NamesDiffer()
    ensures KeyOf(NEWER) != KeyOf(OLDER) && KeyOf(COPY) != KeyOf(NEWER) && KeyOf(COPY) != KeyOf(OLDER)
    ensures KeyOf(COPY) == Key("org", "ns", "c") && KeyOf(NEWER) == Key("org", "ns", "a")
    ensures KeyOf(OLDER) == Key("org", "ns", "b")
  {
    assert "a" != "b" && "b" != "c" && "a" != "c" by {
      assert "a"[0] != "b"[0] && "b"[0] != "c"[0] && "a"[0] != "c"[0];
    }
  }

  lemma AllOwned(mode: string)
    ensures Owns(D0(mode), NEWER) && Owns(D0(mode), OLDER) && Owns(D1(mode), COPY) && Owns(D2(mode), COPY)
  {}

  lemma ListsBoth(mode: string)
    ensures Lists(KV0, D0(mode), [NEWER, OLDER]) && NewestFirst([NEWER, OLDER])
  {
    hide Owns;
    var sorted := [NEWER, OLDER];
    NamesDiffer();
    AllOwned(mode);
    assert KeysOf(sorted) == {KeyOf(NEWER), KeyOf(OLDER)} by {
      assert sorted[0] == NEWER && sorted[1] == OLDER;
      assert NEWER in sorted && OLDER in sorted;
    }
    assert OwnedKeys(KV0, D0(mode)) == {KeyOf(NEWER), KeyOf(OLDER)};
  }

  lemma NewerMatches(mode: string)
    ensures CompareAppSpecs(D0(mode).spec.app, NEWER.app)
  {}

  lemma ChoosesBoth(mode: string)
    ensures ChoosesFrom(KV0, D0(mode), 3, ROLLED)
  {
    hide Lists, NewestFirst, CompareAppSpecs, CompareRevisions, Others;
    var sorted := [NEWER, OLDER];
    ListsBoth(mode);
    NewerMatches(mode);
    NewestOthers(KV0, D0(mode), sorted);
    assert sorted[1..] == [OLDER];
  }

  lemma DeletesBoth(mode: string)
    ensures RolledBack(KV0, KV1, D0(mode), AfterRollback(D0(mode), COPY), ROLLED)
  {
    NamesDiffer();
    var all := [OLDER, NEWER];
    assert PrunedSlots(all, 1) == all;
    assert KeysOf(all) == {KeyOf(NEWER), KeyOf(OLDER)} by {
      assert all[0] == OLDER && all[1] == NEWER;
      assert NEWER in all && OLDER in all;
    }
    assert Key("org", "ns", "b") in KV0 && KV0[Key("org", "ns", "b")] == OLDER;
    assert KV1 == KV0[KeyOf(COPY) := COPY] - KeysOf(all);
  }

  lemma RollsBackByName(env: Env, template: Deployment, mode: string, w: World)
    ensures Steps(env, S0(mode, w), E0, S1(mode, w), template)
  {
    hide ChoosesFrom, RolledBack;
    ChoosesBoth(mode);
    DeletesBoth(mode);
    NamesDiffer();
    assert Key("org", "ns", "z") !in KV0 by { assert "z"[0] != "a"[0] && "z"[0] != "b"[0]; }
  }

  lemma ListsTheCopy(mode: string)
    ensures Lists(KV1, D2(mode), [COPY]) && NewestFirst([COPY])
  {
    hide Owns;
    AllOwned(mode);
    assert KeysOf([COPY]) == {KeyOf(COPY)} by { assert COPY in [COPY]; }
    assert OwnedKeys(KV1, D2(mode)) == {KeyOf(COPY)};
  }

  lemma CopyMatches(mode: string)
    ensures CompareAppSpecs(D2(mode).spec.app, COPY.app)
  {
    hide Inactive, RollbackStates, CompareAppSpecs;
    assert D2(mode).spec.app == COPY.app by { assert COPY.app.labels["deployment" := "d"] == COPY.app.labels; }
    RevisionComparesToItself(COPY);
  }

  lemma FindsOnlyTheCopy(mode: string)
    ensures FoundFrom(KV1, D2(mode), "e", 5, [COPY], Some(COPY), [])
  {
    hide Lists, NewestFirst, CompareAppSpecs, CompareRevisions, Others;
    ListsTheCopy(mode);
    CopyMatches(mode);
    NewestOthers(KV1, D2(mode), [COPY]);
  }

  lemma FindsNothing()
    ensures Sees(OLD, DirectDocker, [], PASS)
  {
    assert Listed(PASS) == [COPY];
    assert LabelsOf("a")["revision"] == "a" && COPY.name == "c" && "a"[0] != "c"[0];
  }

  lemma PassNamesAreNew()
    ensures GivesNewNames(KV1, PASS)
  {
    NamesDiffer();
    assert "c"[0] != "e"[0] && "c"[0] != "f"[0] && "c"[0] != "g"[0];
    assert "e"[0] != "f"[0] && "f"[0] != "g"[0] && "g"[0] != "e"[0];
  }

  lemma QuitEffect(mode: string)
    ensures HasLimits(D2(mode).spec)
    ensures var e := EffectOf(D2(mode), 5, PASS);
            e.quits && e.stops && !e.purges && !e.rolls && !e.saved
  {
    LimitsKept(mode);
    EffectFacts(D2(mode), 5, PASS);
    hide Keeping;
    assert D2(mode).status.stopped && !D2(mode).status.deleted;
  }

  lemma Passed(mode: string)
    requires HasLimits(D2(mode).spec)
    ensures Passes(KV1, KV1, D2(mode), 5, PASS, EffectOf(D2(mode), 5, PASS))
  {
    hide FoundFrom, Reconciled;
    FindsOnlyTheCopy(mode);
    QuitEffect(mode);
    assert KV1[KeyOf(COPY) := COPY] == KV1;
    assert D2(mode).status.stopped;
  }

  lemma StoppingNothing(env: Env, w: World, mode: Mode)
    ensures StopApps(env, w, mode, [], 0, []).world == w
  {}

  lemma Quits(env: Env, template: Deployment, mode: string, w: World)
    requires Sees(w, ModeOf(mode), [], PASS)
    ensures Steps(env, S2(mode, w), E2, S3(mode, w), template) && HasLimits(D2(mode).spec)
    ensures EffectOf(D2(mode), 5, PASS).quits
  {
    hide Passes, Sees, GivesNewNames, EffectOf, StopApps;
    LimitsKept(mode);
    PassNamesAreNew();
    QuitEffect(mode);
    Passed(mode);
    StoppingNothing(env, w, ModeOf(mode));
    assert D2(mode).spec.mode == mode;
    assert ActiveRevisions(Listed(PASS), []) == [];
  }

  lemma Stops(env: Env, template: Deployment, mode: string, w: World)
    ensures Steps(env, S1(mode, w), E1, S2(mode, w), template)
  {
    hide Persisted, AfterRollback;
    assert HasLimits(D1(mode).spec) by { LimitsKept(mode); }
  }

  lemma LimitsKept(mode: string)
    ensures HasLimits(D0(mode).spec) && HasLimits(D1(mode).spec) && HasLimits(D2(mode).spec)
  {}

  lemma StartsSound(mode: string, w: World)
    requires mode in MODES
    ensures Sound(S0(mode, w))
  {
    hide Inactive, IsActive, LastUpdate;
    LimitsKept(mode);
    NewStatusTime(0);
    InactiveFacts(NewStatus(0).states);
  }

  lemma StartsGood(mode: string, w: World)
    requires FreshNames(w)
    ensures Good(S0(mode, w))
  {
    NamesDiffer();
    assert SelfFound(NEWER) && SelfFound(OLDER);
  }

  lemma OldIsTracked(mode: string)
    ensures TracksAll(S0(mode, OLD))
  {
    hide Owns;
    NamesDiffer();
    AllOwned(mode);
    assert Lookable(S0(mode, OLD), NEWER) && Finds(NEWER, LabelsOf("a"));
  }

  lemma NewIsTracked(mode: string)
    ensures TracksAll(S1(mode, NEW)) && TracksAll(S2(mode, NEW))
  {
    hide Owns, D1, D2, Lookable;
    AllOwned(mode);
    LookableIn(S1(mode, NEW), D1(mode), COPY);
    LookableIn(S2(mode, NEW), D2(mode), COPY);
    assert Finds(COPY, LabelsOf("c"));
  }

  /** This is a possible run: it starts with every container tracked, and its last pass, which
      could see containers, makes the worker quit although one runs. */
  lemma QuitsWhileRunning(env: Env, template: Deployment)
    ensures var mode := "DirectDocker";
            var systems, events := [S0(mode, OLD), S1(mode, OLD), S2(mode, OLD), S3(mode, OLD)], [E0, E1, E2];
            && GoodRun(env, systems, events, template)
            && QuitsAt(systems, events, 2) && SightAt(systems, events, 2) && systems[2].world.running != map[]
  {
    hide Steps, Sound, Good, TracksAll, EffectOf, Persisted, Sees;
    var mode := "DirectDocker";
    RollsBackByName(env, template, mode, OLD);
    Stops(env, template, mode, OLD);
    FindsNothing();
    Quits(env, template, mode, OLD);
    StartsSound(mode, OLD);
    StartsGood(mode, OLD);
    OldIsTracked(mode);
    assert ContainerName("a", 0) in OLD.running;
    assert D2(mode).spec.mode == mode by { ModeKept(mode); }
  }

  lemma ModeKept(mode: string)
    ensures D2(mode).spec.mode == mode
  {}

  /** So is this one, in the indirect mode: no event drops anything, and the container that runs
      when the worker quits is one of a listed revision; its last pass saw no nodes. */
  lemma QuitsBlindly(env: Env, template: Deployment)
    ensures var mode := "IndirectStar";
            var systems, events := [S1(mode, NEW), S2(mode, NEW), S3(mode, NEW)], [E1, E2];
            && GoodRun(env, systems, events, template)
            && QuitsAt(systems, events, 1) && !SightAt(systems, events, 1)
            && systems[1].world.running != map[] && TracksAll(systems[1])
  {
    hide Steps, Sound, Good, TracksAll, EffectOf, Persisted, Sees;
    var mode := "IndirectStar";
    RollsBackByName(env, template, mode, NEW);
    StartsSound(mode, NEW);
    StartsGood(mode, NEW);
    StepIsSound(env, S0(mode, NEW), E0, S1(mode, NEW), template);
    StepIsGood(env, S0(mode, NEW), E0, S1(mode, NEW), template);
    Stops(env, template, mode, NEW);
    assert Sees(NEW, IndirectStar, [], PASS) by { SeesNoNodes(); }
    Quits(env, template, mode, NEW);
    NewIsTracked(mode);
    assert ContainerName("c", 0) in NEW.running;
    assert D2(mode).spec.mode == mode by { ModeKept(mode); }
  }

  lemma SeesNoNodes()
    ensures Sees(NEW, IndirectStar, [], PASS)
  {}
}
