/** Serial runs of a worker: tasks, reconcile passes and crashes, one after the other, with
    a clock that never goes back and no rolling step in flight when a snapshot is taken. The
    state is the stored record, the stored revisions and the running containers. */
module SerialRuns {
  import opened Domain
  import opened Runtime
  import opened RollSpec
  import opened RollSafety
  import opened Deployments
  import opened Revisions
  import opened Rollback
  import opened Reconciles
  import opened Persistence
  import RollbackHistory

  /** Tasks carry what their handlers get; a pass carries the lists it saw, the nodes, and its
      active revisions in the order it sorted them. */
  datatype Kind =
    | PauseTask | UnpauseTask | StopTask | DeleteTask
    | RollbackTask(copyName: string, rolled: Rolled)
    | PutTask(labels: Labels, spec: Spec)
    | PassOf(pass: Pass, nodes: seq<string>, active: seq<Revision>)
    | Crash

  datatype Event = Event(at: int, kind: Kind)

  /** `reset` is the time of the last put or rollback. */
  datatype System = System(record: Option<Deployment>, kv: Store, world: World, reset: int, clock: int)

  function Touch(states: States, kind: StateType, now: int): States {
    states[kind := State(kind, IsActive(states, kind), MessageOf(states, kind), now, now)]
  }

  /** A put keeps the pause mark and the messages of the stored record, restarts the times
      and takes back the stop and delete marks. */
  function PutStatus(s: Status, now: int): Status {
    s.(states := Touch(Touch(Touch(s.states, Available, now), Progress, now), Failure, now),
       stopped := false, deleted := false)
  }

  function NewStatus(now: int): Status {
    Status(0, 0, 0, 0, 0,
           map[Progress := State(Progress, true, "Deployment started", now, now),
               Available := State(Available, false, "Deployment not available yetr", now, now),
               Failure := State(Failure, false, "Deployment has not failed", now, now)],
           false, false, false)
  }

  // ---------- tasks ----------

  predicate IsTask(kind: Kind) {
    !kind.PassOf? && !kind.Crash?
  }

  predicate Resets(kind: Kind) {
    kind.PutTask? || kind.RollbackTask?
  }

  /** The deployment a task handler saves. */
  function Handled(d: Deployment, e: Event): Deployment
    requires IsTask(e.kind)
  {
    match e.kind
    case PauseTask => d.(status := d.status.(paused := true))
    case UnpauseTask => d.(status := d.status.(paused := false))
    case StopTask => d.(status := d.status.(stopped := true))
    case DeleteTask => d.(status := d.status.(stopped := true, deleted := true))
    case RollbackTask(_, r) => AfterRollback(d, r.copy)
    case PutTask(labels, spec) => d.(labels := labels, spec := spec, status := PutStatus(d.status, e.at))
  }

  ghost predicate TaskSteps(s: System, e: Event, s': System, d: Deployment)
    requires IsTask(e.kind)
  {
    && (e.kind.PutTask? ==> Savable(Handled(d, e)))
    && (if e.kind.RollbackTask?
        then var r := e.kind.rolled;
          && RollsTo(s.kv, s'.kv, d, AfterRollback(d, r.copy), e.at, e.kind.copyName, r)
          && RollbackHistory.NewNamed(s.kv, d, r)
        else s'.kv == s.kv)
    && s' == System(Some(Persisted(Handled(d, e))), s'.kv, s.world, if Resets(e.kind) then e.at else s.reset, e.at)
  }

  /** A put for a deployment that is not stored creates it from `template`. */
  ghost predicate CreationSteps(s: System, e: Event, s': System, template: Deployment)
    requires e.kind.PutTask?
  {
    && Savable(Created(template, e))
    && s' == s.(record := Some(Persisted(Created(template, e))), reset := e.at, clock := e.at)
  }

  function Created(template: Deployment, e: Event): Deployment
    requires e.kind.PutTask?
  {
    template.(labels := e.kind.labels, spec := e.kind.spec, status := NewStatus(e.at))
  }

  // ---------- passes ----------

  /** The label filters of the query for a revision's containers. */
  predicate Finds(r: Revision, labels: Labels) {
    "revision" in labels && labels["revision"] == r.name && MatchLabels(labels, r.selector)
  }

  /** A container is found exactly if overlaying its labels with the filters changes nothing. */
  lemma FindsExactlyWhen(r: Revision, labels: Labels)
    ensures Finds(r, labels) <==> labels["revision" := r.name] == labels && labels + r.selector == labels
  {
    if labels + r.selector == labels {
      assert forall k | k in r.selector :: (labels + r.selector)[k] == r.selector[k];
    }
    if Finds(r, labels) {
      assert (labels + r.selector).Keys == labels.Keys;
    }
  }

  ghost predicate FoundBy(revs: seq<Revision>, labels: Labels) {
    exists r | r in revs :: Finds(r, labels)
  }

  /** The queries for these revisions list exactly the running containers they find. */
  ghost predicate Queried(w: World, revs: seq<Revision>, total: seq<App>) {
    && (forall k :: k in Names(total) <==> k in w.running && FoundBy(revs, w.running[k]))
    && (forall a | a in total :: a.name in w.running && w.running[a.name] == a.labels)
  }

  /** The pass has somewhere to look for containers: the docker daemon, or a node. */
  predicate HasSight(mode: Mode, nodes: seq<string>) {
    mode.DirectDocker? || (!mode.OtherMode? && nodes != [])
  }

  /** What a pass that queries containers gets. Without nodes the direct node mode ends in an
      error, but the indirect mode goes on with empty lists, as an unknown mode does. */
  ghost predicate Sees(w: World, mode: Mode, nodes: seq<string>, p: Pass)
    requires p.newRev.Some?
  {
    if HasSight(mode, nodes) then Queried(w, Listed(p), p.total)
    else !mode.DirectStar? && p.total == [] && p.ready == [] && p.available == []
  }

  /** The revisions a pass queries. */
  function Listed(p: Pass): seq<Revision>
    requires p.newRev.Some?
  {
    p.oldRevs + [p.newRev.value]
  }

  function EffectOf(d: Deployment, at: int, p: Pass): Reconciles.Effect
    requires HasLimits(d.spec)
  {
    if p.newRev.None? then Nothing(d) else Reconciled(d, ObservationOf(p), at, p.cut, AppOf(p.rolled))
  }

  function SnapshotOf(p: Pass, nodes: seq<string>, active: seq<Revision>): Snapshot
    requires p.newRev.Some?
  {
    Snapshot(p.newRev.value, p.oldRevs, active, ActiveCounts(Listed(p), p.total), p.total, p.available, nodes)
  }

  /** A pass that stops its deployment stops the listed apps; one that launches a rolling step
      performs it on its snapshot. */
  function WorldAfter(env: Env, w: World, d: Deployment, e: Event): World
    requires e.kind.PassOf? && HasLimits(d.spec)
  {
    var p, nodes := e.kind.pass, e.kind.nodes;
    var effect := EffectOf(d, e.at, p);
    if effect.stops then StopApps(env, w, ModeOf(d.spec.mode), nodes, |p.total|, p.total).world
    else if effect.rolls && p.newRev.Some?
    then Roll(env, w, LimitsOf(d.spec), SnapshotOf(p, nodes, e.kind.active)).world
    else w
  }

  function RecordAfter(s: System, d: Deployment, effect: Reconciles.Effect): Option<Deployment> {
    if effect.purges then None
    else if effect.saved then Some(Persisted(effect.d))
    else s.record
  }

  /** The pass finds the deployment failed, rolls it back and saves it. */
  predicate SavesRollback(d: Deployment, e: Event)
    requires e.kind.PassOf? && HasLimits(d.spec)
  {
    var p := e.kind.pass;
    && EffectOf(d, e.at, p).saved && p.newRev.Some?
    && RollsBack(d, ObservationOf(p), e.at, AppOf(p.rolled))
  }

  /** The names a pass gives out are new and different. */
  ghost predicate GivesNewNames(kv: Store, p: Pass) {
    && p.builtName != p.rollbackName && p.rollbackName != p.copyName && p.copyName != p.builtName
    && forall k | k in kv :: k.name != p.builtName && k.name != p.rollbackName && k.name != p.copyName
  }

  ghost predicate PassSteps(env: Env, s: System, e: Event, s': System, d: Deployment)
    requires e.kind.PassOf?
  {
    var p := e.kind.pass;
    && HasLimits(d.spec)
    && Passes(s.kv, s'.kv, d, e.at, p, EffectOf(d, e.at, p))
    && GivesNewNames(s.kv, p)
    && (p.newRev.Some? && p.cut > 3 ==>
          && Sees(s.world, ModeOf(d.spec.mode), e.kind.nodes, p)
          && multiset(e.kind.active) == multiset(ActiveRevisions(Listed(p), p.total)))
    && s' == System(RecordAfter(s, d, EffectOf(d, e.at, p)), s'.kv, WorldAfter(env, s.world, d, e),
                    if SavesRollback(d, e) then e.at else s.reset, e.at)
  }

  // ---------- runs ----------

  /** One event; with no record stored, only a put has an effect, and a crash. */
  ghost predicate Steps(env: Env, s: System, e: Event, s': System, template: Deployment) {
    && e.at >= s.clock
    && if e.kind.Crash?
       then s' == s.(world := s'.world, clock := e.at) && Loses(s.world, s'.world, s.world.running.Keys)
       else match s.record
         case None => if e.kind.PutTask? then CreationSteps(s, e, s', template) else s' == s.(clock := e.at)
         case Some(d) => if e.kind.PassOf? then PassSteps(env, s, e, s', d) else TaskSteps(s, e, s', d)
  }

  ghost predicate Run(env: Env, systems: seq<System>, events: seq<Event>, template: Deployment) {
    && |systems| == |events| + 1
    && forall i | 0 <= i < |events| :: Steps(env, systems[i], events[i], systems[i + 1], template)
  }

  // ---------- the invariant of every serial run ----------

  /** The record can be saved again, a deleted deployment is stopped, no stored state is active,
      and the progress state was last updated at the last put or rollback. */
  ghost predicate Sound(s: System) {
    s.record.Some? ==>
      var status := s.record.value.status;
      && Savable(s.record.value)
      && (status.deleted ==> status.stopped)
      && (forall k: StateType :: !IsActive(status.states, k))
      && LastUpdate(status.states, Progress) == s.reset <= s.clock
  }

  /** A saved record is sound. */
  lemma SavedIsSound(s: System, d: Deployment)
    requires s.record == Some(Persisted(d))
    requires Savable(d) && (d.status.deleted ==> d.status.stopped)
    requires LastUpdate(d.status.states, Progress) == s.reset <= s.clock
    ensures Sound(s)
  {
    hide IsActive, LastUpdate, Inactive;
    InactiveFacts(d.status.states);
  }

  lemma TaskIsSound(s: System, e: Event, s': System, d: Deployment)
    requires IsTask(e.kind) && e.at >= s.clock && s.record == Some(d) && Sound(s) && TaskSteps(s, e, s', d)
    ensures Sound(s')
  {
    assert Savable(Handled(d, e)) && (Handled(d, e).status.deleted ==> Handled(d, e).status.stopped)
           && LastUpdate(Handled(d, e).status.states, Progress) == s'.reset <= s'.clock by {
      hide Persisted, RollsTo, IsActive, MessageOf, RollbackHistory.NewNamed;
      HandledTimes(d, e);
      assert e.kind.RollbackTask? ==> e.kind.rolled.copy.timestamp == e.at by {
        if e.kind.RollbackTask? {
          RollTime(s.kv, s'.kv, d, AfterRollback(d, e.kind.rolled.copy), e.at, e.kind.copyName, e.kind.rolled);
        }
      }
    }
    hide Persisted, RollsTo, Sound, Handled, RollbackHistory.NewNamed;
    SavedIsSound(s', Handled(d, e));
  }

  lemma RollTime(kv: Store, kv': Store, d: Deployment, d': Deployment, now: int, copyName: string, r: Rolled)
    requires RollsTo(kv, kv', d, d', now, copyName, r)
    ensures r.copy.timestamp == now
  {}

  lemma HandledTimes(d: Deployment, e: Event)
    requires IsTask(e.kind)
    ensures LastUpdate(Handled(d, e).status.states, Progress)
         == match e.kind
            case PutTask(_, _) => e.at
            case RollbackTask(_, r) => r.copy.timestamp
            case _ => LastUpdate(d.status.states, Progress)
  {}

  lemma PassIsSound(env: Env, s: System, e: Event, s': System, d: Deployment)
    requires e.kind.PassOf? && e.at >= s.clock && s.record == Some(d) && Sound(s) && PassSteps(env, s, e, s', d)
    ensures Sound(s')
  {
    hide Reconciled, Persisted, IsActive, LastUpdate, RollsBack, Passes, Sees, GivesNewNames, WorldAfter;
    var p := e.kind.pass;
    var effect := EffectOf(d, e.at, p);
    if effect.saved && !effect.purges {
      SavesOnlyKept(d, ObservationOf(p), e.at, p.cut, AppOf(p.rolled));
      SavedIsSound(s', effect.d);
    }
  }

  lemma StepIsSound(env: Env, s: System, e: Event, s': System, template: Deployment)
    requires Steps(env, s, e, s', template) && Sound(s)
    ensures Sound(s')
  {
    hide Persisted, TaskSteps, PassSteps, IsActive, LastUpdate, Loses;
    if !e.kind.Crash? {
      if s.record.None? {
        if e.kind.PutTask? {
          NewStatusTime(e.at);
          SavedIsSound(s', Created(template, e));
        }
      } else if e.kind.PassOf? {
        PassIsSound(env, s, e, s', s.record.value);
      } else {
        TaskIsSound(s, e, s', s.record.value);
      }
    }
  }

  lemma NewStatusTime(now: int)
    ensures LastUpdate(NewStatus(now).states, Progress) == now
  {}

  /** In every serial run the stored record stays sound: in particular a deleted deployment
      is always a stopped one. */
  lemma {:induction false} AlwaysSound(env: Env, systems: seq<System>, events: seq<Event>, template: Deployment, i: nat)
    requires Run(env, systems, events, template) && Sound(systems[0]) && i <= |events|
    ensures Sound(systems[i])
  {
    hide Sound, Steps;
    if i > 0 {
      AlwaysSound(env, systems, events, template, i - 1);
      StepIsSound(env, systems[i - 1], events[i - 1], systems[i], template);
    }
  }

  // ---------- rolling only in time ----------

  /** The pass at index `i` launches a rolling step. */
  ghost predicate RollsAt(systems: seq<System>, events: seq<Event>, i: nat)
    requires i < |events| && i < |systems|
  {
    && events[i].kind.PassOf? && systems[i].record.Some? && HasLimits(systems[i].record.value.spec)
    && EffectOf(systems[i].record.value, events[i].at, events[i].kind.pass).rolls
  }

  /** In every serial run a pass launches a rolling step only for a deployment that is not
      paused, stopped or deleted, and no later than its deadline after the last put or
      rollback, unless it has just rolled back automatically. */
  lemma RollsOnlyInTime(env: Env, systems: seq<System>, events: seq<Event>, template: Deployment, i: nat)
    requires Run(env, systems, events, template) && Sound(systems[0]) && i < |events|
    requires RollsAt(systems, events, i)
    ensures var d := systems[i].record.value;
            && !d.status.paused && !d.status.stopped && !d.status.deleted
            && (events[i].at <= systems[i].reset + d.spec.deadline
                || (d.spec.automaticRollback && events[i].kind.pass.rolled.Some?))
  {
    hide Reconciled, IsActive, LastUpdate, Steps;
    AlwaysSound(env, systems, events, template, i);
    var p := events[i].kind.pass;
    RollsExactlyWhen(systems[i].record.value, ObservationOf(p), events[i].at, p.cut, AppOf(p.rolled));
  }

  /** No spurious failure: the status update of a pass raises Failure exactly when the
      rollout is not complete, the deployment is not paused, and more than the deadline has
      passed since the last put or rollback. */
  lemma FailsExactlyWhen(env: Env, systems: seq<System>, events: seq<Event>, template: Deployment, i: nat,
                         newCount: int, status: Status)
    requires Run(env, systems, events, template) && Sound(systems[0]) && i <= |events|
    requires systems[i].record.Some? && HasLimits(systems[i].record.value.spec)
    requires status.states == systems[i].record.value.status.states
    requires status.paused == systems[i].record.value.status.paused
    ensures forall now ::
              IsActive(UpdatedStates(systems[i].record.value.spec, status, newCount, now), Failure)
              <==> && !Completed(systems[i].record.value.spec, status, newCount) && !status.paused
                   && now > systems[i].reset + systems[i].record.value.spec.deadline
  {
    hide UpdatedStates, Completed, IsActive, LastUpdate, Steps;
    AlwaysSound(env, systems, events, template, i);
    var spec := systems[i].record.value.spec;
    forall now
      ensures IsActive(UpdatedStates(spec, status, newCount, now), Failure)
         <==> !Completed(spec, status, newCount) && !status.paused && now > systems[i].reset + spec.deadline
    {
      FlagsAfterUpdate(spec, status, newCount, now);
    }
  }

  /** A failed deployment without automatic rollback: its deadline has passed. */
  ghost predicate Expired(s: System) {
    s.record.Some? ==>
      && HasLimits(s.record.value.spec)
      && !s.record.value.spec.automaticRollback
      && s.clock > s.reset + s.record.value.spec.deadline
  }

  lemma ExpiredPass(env: Env, s: System, e: Event, s': System, d: Deployment)
    requires e.kind.PassOf? && e.at >= s.clock && s.record == Some(d) && PassSteps(env, s, e, s', d)
    requires Sound(s) && Expired(s)
    ensures Expired(s') && !EffectOf(d, e.at, e.kind.pass).rolls
  {
    hide Reconciled, IsActive, LastUpdate, MaxSurge, Inactive, Passes, Sees, GivesNewNames, WorldAfter;
    var p := e.kind.pass;
    if p.newRev.Some? {
      RollsExactlyWhen(d, ObservationOf(p), e.at, p.cut, AppOf(p.rolled));
      if EffectOf(d, e.at, p).saved {
        SavesOnlyKept(d, ObservationOf(p), e.at, p.cut, AppOf(p.rolled));
      }
    }
  }

  lemma ExpiredStep(env: Env, s: System, e: Event, s': System, template: Deployment)
    requires Steps(env, s, e, s', template) && Sound(s) && Expired(s) && !Resets(e.kind)
    ensures Expired(s')
    ensures e.kind.PassOf? && s.record.Some? ==> !EffectOf(s.record.value, e.at, e.kind.pass).rolls
  {
    hide PassSteps, Sound, Loses, RollsTo, EffectOf, Inactive;
    if e.kind.PassOf? && s.record.Some? {
      ExpiredPass(env, s, e, s', s.record.value);
    }
  }

  /** Once the deadline of a deployment without automatic rollback has passed, no pass of any
      continuation launches a rolling step until a put or a rollback; unpausing it does not
      help. */
  lemma {:induction false} ExpiredNeverRolls(env: Env, systems: seq<System>, events: seq<Event>,
                                             template: Deployment, i: nat)
    requires Run(env, systems, events, template) && Sound(systems[0]) && Expired(systems[0]) && i <= |events|
    requires forall j | 0 <= j < |events| :: !Resets(events[j].kind)
    ensures Expired(systems[i])
    ensures i < |events| ==> !RollsAt(systems, events, i)
  {
    hide Sound, Steps, Expired, EffectOf, Resets;
    if i > 0 {
      ExpiredNeverRolls(env, systems, events, template, i - 1);
      AlwaysSound(env, systems, events, template, i - 1);
      ExpiredStep(env, systems[i - 1], events[i - 1], systems[i], template);
    }
    if i < |events| {
      AlwaysSound(env, systems, events, template, i);
      ExpiredStep(env, systems[i], events[i], systems[i + 1], template);
    }
  }

  /** In a serial run a saving pass stores the deployment paused exactly if it was, or if it
      fails without automatic rollback: incomplete, and later than its deadline after the last
      put or rollback. */
  lemma PausedAlongRuns(env: Env, systems: seq<System>, events: seq<Event>, template: Deployment, i: nat)
    requires Run(env, systems, events, template) && Sound(systems[0]) && i < |events|
    requires events[i].kind.PassOf? && systems[i].record.Some? && HasLimits(systems[i].record.value.spec)
    requires EffectOf(systems[i].record.value, events[i].at, events[i].kind.pass).saved
    ensures systems[i + 1].record.Some?
    ensures var d, p := systems[i].record.value, events[i].kind.pass;
            && p.newRev.Some?
            && var o := ObservationOf(p);
               var late := events[i].at > systems[i].reset + d.spec.deadline;
               systems[i + 1].record.value.status.paused
               <==> || d.status.paused
                    || (!d.spec.automaticRollback && late && !Completed(d.spec, WithCounts(d, o).status, o.newCount))
  {
    var d, e, p := systems[i].record.value, events[i], events[i].kind.pass;
    AlwaysSound(env, systems, events, template, i);
    assert PassSteps(env, systems[i], e, systems[i + 1], d) by {
      assert Steps(env, systems[i], e, systems[i + 1], template);
    }
    SavingFacts(d, e.at, p);
    assert !IsActive(d.status.states, Failure);
    hide Reconciled, Passes, Sees, GivesNewNames, WorldAfter, Completed, LastUpdate, Inactive, SavesRollback;
    PausedExactlyWhen(d, ObservationOf(p), e.at, p.cut, AppOf(p.rolled));
  }

  lemma SavingFacts(d: Deployment, at: int, p: Pass)
    requires HasLimits(d.spec) && EffectOf(d, at, p).saved
    ensures p.newRev.Some? && p.cut >= 10 && !d.status.stopped && !d.status.deleted
    ensures !EffectOf(d, at, p).purges
  {
    hide UpdatedStates, AfterFailure, MayRoll;
  }

  /** A deployment that a put creates is to be rolled out: nothing is paused, stopped or deleted,
      no state is active once stored, no app is counted, and its deadline starts now. */
  lemma CreatedIsToRoll(s: System, e: Event, s': System, template: Deployment)
    requires e.kind.PutTask? && CreationSteps(s, e, s', template)
    ensures s'.record.Some? && s'.kv == s.kv && s'.world == s.world
    ensures var d := s'.record.value;
            && !d.status.paused && !d.status.stopped && !d.status.deleted
            && d.status.total == d.status.updated == d.status.ready == d.status.available == d.status.unavailable == 0
            && d.spec == e.kind.spec.(app := d.spec.app) && d.labels == e.kind.labels
            && d.name == template.name && d.namespace == template.namespace && d.orgId == template.orgId
            && d.status.states.Keys == {Available, Progress, Failure}
            && (forall k | k in d.status.states ::
                  d.status.states[k].kind == k && !d.status.states[k].active
                  && d.status.states[k].update == e.at && d.status.states[k].transition == e.at)
  {}

  /** A put on a stored deployment takes back a stop and a deletion, but not a pause, keeps the
      counts, flags and messages, and starts all its times anew. */
  lemma PutRestarts(status: Status, now: int)
    ensures var t := PutStatus(status, now);
            && t == status.(states := t.states, stopped := false, deleted := false)
            && t.states.Keys == {Available, Progress, Failure}
            && (forall k: StateType ::
                  && (IsActive(t.states, k) <==> IsActive(status.states, k))
                  && MessageOf(t.states, k) == MessageOf(status.states, k))
            && (forall k | k in t.states ::
                  t.states[k].kind == k && t.states[k].update == now && t.states[k].transition == now)
  {
    OnlyKinds(PutStatus(status, now).states.Keys);
  }

  // ---------- draining ----------

  ghost predicate Stopping(s: System) {
    s.record.Some? ==> s.record.value.status.stopped && HasLimits(s.record.value.spec)
  }

  /** Containers only went away. */
  ghost predicate Shrinks(w: World, w': World) {
    Loses(w, w', w.running.Keys)
  }

  lemma LosesShrinks(w: World, w': World, names: set<ContainerName>)
    requires Loses(w, w', names)
    ensures Shrinks(w, w')
  {}

  lemma ShrinksComposes(w: World, w1: World, w2: World)
    requires Shrinks(w, w1) && Shrinks(w1, w2)
    ensures Shrinks(w, w2)
  {
    LosesFewer(w1, w2, w1.running.Keys, w.running.Keys);
    LosesComposes(w, w1, w2, w.running.Keys);
  }

  lemma StoppingPass(env: Env, s: System, e: Event, s': System, d: Deployment)
    requires e.kind.PassOf? && s.record == Some(d) && PassSteps(env, s, e, s', d) && Stopping(s)
    ensures Stopping(s') && Shrinks(s.world, s'.world)
    ensures !EffectOf(d, e.at, e.kind.pass).rolls
  {
    hide Keeping, Passes, Sees, GivesNewNames, StopApps, Loses, MaxSurge, Roll, RollsBack;
    var p := e.kind.pass;
    StopAppsLoses(env, s.world, ModeOf(d.spec.mode), e.kind.nodes, |p.total|, p.total);
    LosesShrinks(s.world, StopApps(env, s.world, ModeOf(d.spec.mode), e.kind.nodes, |p.total|, p.total).world,
                 Names(Tail(p.total, |p.total|)));
    NothingShrinks(s.world);
  }

  lemma NothingShrinks(w: World)
    ensures Shrinks(w, w)
  {}

  lemma StoppingStep(env: Env, s: System, e: Event, s': System, template: Deployment)
    requires Steps(env, s, e, s', template) && Stopping(s) && !e.kind.PutTask?
    ensures Stopping(s') && Shrinks(s.world, s'.world)
    ensures e.kind.PassOf? && s.record.Some? ==> !EffectOf(s.record.value, e.at, e.kind.pass).rolls
  {
    hide PassSteps, Loses, RollsTo, EffectOf, Inactive, RollbackStates, RollbackHistory.NewNamed;
    NothingShrinks(s.world);
    if e.kind.PassOf? && s.record.Some? {
      StoppingPass(env, s, e, s', s.record.value);
    }
  }

  /** While a deployment is stopped, until the next put, no pass launches a rolling step, and
      containers only go away: none is started, and none is relabelled. */
  lemma {:induction false} StoppedDrains(env: Env, systems: seq<System>, events: seq<Event>, template: Deployment,
                                         i: nat)
    requires Run(env, systems, events, template) && Stopping(systems[0]) && i <= |events|
    requires forall j | 0 <= j < |events| :: !events[j].kind.PutTask?
    ensures Stopping(systems[i]) && Shrinks(systems[0].world, systems[i].world)
    ensures |systems[i].world.running| <= |systems[0].world.running|
    ensures i < |events| ==> !RollsAt(systems, events, i)
  {
    hide Steps, Stopping, EffectOf, Shrinks;
    if i == 0 {
      NothingShrinks(systems[0].world);
    } else {
      StoppedDrains(env, systems, events, template, i - 1);
      StoppingStep(env, systems[i - 1], events[i - 1], systems[i], template);
      ShrinksComposes(systems[0].world, systems[i - 1].world, systems[i].world);
    }
    ShrinksCount(systems[0].world, systems[i].world);
    if i < |events| {
      StoppingStep(env, systems[i], events[i], systems[i + 1], template);
    }
  }

  lemma ShrinksCount(w: World, w': World)
    requires Shrinks(w, w')
    ensures |w'.running| <= |w.running|
  {
    SubsetSize(w'.running.Keys, w.running.Keys);
    assert |w'.running| == |w'.running.Keys| && |w.running| == |w.running.Keys|;
  }
}
