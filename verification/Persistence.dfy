/** Mapping a deployment to its stored form and back, record to record. */
module Persistence {
  import opened Domain
  import opened Deployments
  import opened RollbackHistory

  datatype StoredState = StoredState(kind: StateType, active: bool, message: string, update: int, transition: int)

  datatype StoredStatus = StoredStatus(
    total: int, updated: int, ready: int, available: int, unavailable: int,
    states: map<StateType, StoredState>, paused: bool, stopped: bool, deleted: bool)

  datatype StoredSpec = StoredSpec(
    selector: Labels, appCount: int, revisionLimit: int, resourceQuotas: map<string, real>,
    strategy: Strategy, app: AppSpec, minReadySeconds: int, deadline: int, automaticRollback: bool,
    mode: string, reconcilePeriod: int)

  datatype StoredDeployment = StoredDeployment(
    name: string, namespace: string, orgId: string, labels: Labels, spec: StoredSpec, status: StoredStatus)

  /** A mapping yields a record, reports an error, or dereferences nil. */
  datatype Mapped<+T> = Mapped(value: T) | Invalid | Crashed

  const MODES := {"DirectDocker", "DirectStar", "IndirectStar"}

  ghost predicate KeyedByType(states: States) {
    forall k | k in states :: states[k].kind == k
  }

  ghost predicate StoredByType(stored: map<StateType, StoredState>) {
    forall k | k in stored :: stored[k].kind == k
  }

  /** The mapper to the stored form leaves the active flag out. */
  function StateFromDomain(s: State): StoredState {
    StoredState(s.kind, false, s.message, s.update, s.transition)
  }

  function StatesFromDomain(states: States): map<StateType, StoredState>
    requires KeyedByType(states)
  {
    map k | k in states :: StateFromDomain(states[k])
  }

  function StateToDomain(s: StoredState): State {
    State(s.kind, s.active, s.message, s.update, s.transition)
  }

  function StatesToDomain(stored: map<StateType, StoredState>): States
    requires StoredByType(stored)
  {
    map k | k in stored :: StateToDomain(stored[k])
  }

  method MapStatesOut(states: States) returns (stored: map<StateType, StoredState>)
    requires KeyedByType(states)
    ensures stored == StatesFromDomain(states)
  {
    stored := map[];
    var rest := states.Keys;
    while rest != {}
      invariant rest <= states.Keys
      invariant stored.Keys == states.Keys - rest
      invariant forall k | k in stored :: stored[k] == StateFromDomain(states[k])
      decreases rest
    {
      var k :| k in rest;
      rest := rest - {k};
      stored := stored[states[k].kind := StateFromDomain(states[k])];
    }
  }

  /** The checks both directions make before building the spec. */
  function CheckSpec(strategy: Strategy, mode: string): Mapped<()> {
    if strategy.rollingUpdate.None? || strategy.rollingUpdate.value.maxSurge.None?
       || strategy.rollingUpdate.value.maxUnavailable.None?
    then Crashed
    else if mode !in MODES then Invalid
    else Mapped(())
  }

  function SpecFromDomain(s: Spec): Mapped<StoredSpec> {
    match CheckSpec(s.strategy, s.mode)
    case Invalid => Invalid
    case Crashed => Crashed
    case Mapped(_) =>
      if s.revisionLimit.None? || s.reconcilePeriod.None? then Crashed
      else Mapped(StoredSpec(s.selector, s.appCount, s.revisionLimit.value, s.resourceQuotas, s.strategy, s.app,
                             s.minReadySeconds, s.deadline, s.automaticRollback, s.mode, s.reconcilePeriod.value))
  }

  function SpecToDomain(s: StoredSpec): Mapped<Spec> {
    if !(s.app.quotas.Keys <= SUPPORTED) then Invalid
    else
      match CheckSpec(s.strategy, s.mode)
      case Invalid => Invalid
      case Crashed => Crashed
      case Mapped(_) =>
        Mapped(Spec(s.selector, s.appCount, Some(s.revisionLimit), s.resourceQuotas, s.strategy, s.app,
                    s.minReadySeconds, s.deadline, s.automaticRollback, s.mode, Some(s.reconcilePeriod)))
  }

  function FromDomain(d: Deployment): Mapped<StoredDeployment>
    requires KeyedByType(d.status.states)
  {
    match SpecFromDomain(d.spec)
    case Invalid => Invalid
    case Crashed => Crashed
    case Mapped(spec) =>
      var t := d.status;
      Mapped(StoredDeployment(
               d.name, d.namespace, d.orgId, d.labels,
               spec.(app := spec.app.(labels := spec.app.labels["deployment" := d.name])),
               StoredStatus(t.total, t.updated, t.ready, t.available, t.unavailable, StatesFromDomain(t.states),
                            t.paused, t.stopped, t.deleted)))
  }

  function ToDomain(p: StoredDeployment): Mapped<Deployment>
    requires StoredByType(p.status.states)
  {
    match SpecToDomain(p.spec)
    case Invalid => Invalid
    case Crashed => Crashed
    case Mapped(spec) =>
      var t := p.status;
      Mapped(Deployment(
               p.name, p.namespace, p.orgId, p.labels,
               spec.(app := spec.app.(labels := spec.app.labels["deployment" := p.name])),
               Status(t.total, t.updated, t.ready, t.available, t.unavailable, StatesToDomain(t.states),
                      t.paused, t.stopped, t.deleted)))
  }

  // ---------- the round trip ----------

  function Inactive(states: States): States {
    map k | k in states :: states[k].(active := false)
  }

  /** What is read back after saving `d`: the same deployment, with every state inactive and
      its own name among the labels of its app spec. */
  function Persisted(d: Deployment): Deployment {
    Saved(d).(status := d.status.(states := Inactive(d.status.states)))
  }

  ghost predicate Savable(d: Deployment) {
    HasLimits(d.spec) && d.spec.mode in MODES && d.spec.revisionLimit.Some? && d.spec.reconcilePeriod.Some?
  }

  lemma StatesRoundTrip(states: States)
    requires KeyedByType(states)
    ensures StoredByType(StatesFromDomain(states))
    ensures StatesToDomain(StatesFromDomain(states)) == Inactive(states)
  {}

  lemma NamedTwice(labels: Labels, name: string)
    ensures labels["deployment" := name]["deployment" := name] == labels["deployment" := name]
  {}

  /** Round trip: a deployment can be saved exactly when its limits, revision limit and
      period are present and its mode is known; it can then be read back exactly when its
      quotas are supported, and what is read back is the same up to the active flags and the
      name label. */
  lemma RoundTrip(d: Deployment)
    requires KeyedByType(d.status.states)
    ensures FromDomain(d).Mapped? <==> Savable(d)
    ensures Savable(d) ==>
              var p := FromDomain(d).value;
              && StoredByType(p.status.states)
              && ToDomain(p) == if d.spec.app.quotas.Keys <= SUPPORTED then Mapped(Persisted(d)) else Invalid
  {
    hide StatesFromDomain, StatesToDomain, Inactive, KeyedByType, StoredByType;
    StatesRoundTrip(d.status.states);
    NamedTwice(d.spec.app.labels, d.name);
  }

  /** Why a deployment cannot be saved: a missing rolling limit is dereferenced before the mode
      is looked at, a missing revision limit or period only after it. */
  lemma SaveFailsExactlyWhen(d: Deployment)
    requires KeyedByType(d.status.states)
    ensures FromDomain(d).Crashed?
       <==> !HasLimits(d.spec)
            || (d.spec.mode in {"DirectDocker", "DirectStar", "IndirectStar"}
                && (d.spec.revisionLimit.None? || d.spec.reconcilePeriod.None?))
    ensures FromDomain(d).Invalid?
       <==> HasLimits(d.spec) && d.spec.mode !in {"DirectDocker", "DirectStar", "IndirectStar"}
  {
    hide StatesFromDomain;
  }

  /** Why a stored one cannot be read: its quotas are looked at first. */
  lemma ReadFailsExactlyWhen(p: StoredDeployment)
    requires StoredByType(p.status.states)
    ensures ToDomain(p).Crashed?
       <==> && (forall q | q in p.spec.app.quotas :: q in {"mem", "cpu", "disk"})
            && (p.spec.strategy.rollingUpdate.None? || p.spec.strategy.rollingUpdate.value.maxSurge.None?
                || p.spec.strategy.rollingUpdate.value.maxUnavailable.None?)
    ensures ToDomain(p).Invalid?
       <==> || (exists q :: q in p.spec.app.quotas && q !in {"mem", "cpu", "disk"})
            || (!ToDomain(p).Crashed? && p.spec.mode !in {"DirectDocker", "DirectStar", "IndirectStar"})
  {
    hide StatesToDomain;
    assert p.spec.app.quotas.Keys <= SUPPORTED <==> forall q | q in p.spec.app.quotas :: q in SUPPORTED;
  }

  /** Saving what was read back changes nothing more. */
  lemma PersistedOnce(d: Deployment)
    ensures Persisted(Persisted(d)) == Persisted(d)
  {
    NamedTwice(d.spec.app.labels, d.name);
    assert Inactive(Inactive(d.status.states)) == Inactive(d.status.states);
  }

  predicate SameFlags(a: States, b: States) {
    && (IsActive(a, Available) <==> IsActive(b, Available))
    && (IsActive(a, Progress) <==> IsActive(b, Progress))
    && (IsActive(a, Failure) <==> IsActive(b, Failure))
  }

  /** Persistence keeps the decisions: the status update reaches the same flags with and
      without the round trip, exactly unless the rollout is complete while Failure is active,
      the one case in which the update leaves a flag as it was. */
  lemma PersistenceKeepsDecisions(d: Deployment, newCount: int, now: int)
    requires HasLimits(d.spec)
    ensures SameFlags(UpdatedStates(d.spec, d.status, newCount, now),
                      UpdatedStates(Persisted(d).spec, Persisted(d).status, newCount, now))
       <==> !(Completed(d.spec, d.status, newCount) && IsActive(d.status.states, Failure))
  {
    hide UpdatedStates, Completed;
    var p := Persisted(d);
    FlagsAfterUpdate(d.spec, d.status, newCount, now);
    FlagsAfterUpdate(p.spec, p.status, newCount, now);
    InactiveFacts(d.status.states);
    assert Completed(p.spec, p.status, newCount) == Completed(d.spec, d.status, newCount) by {
      CompletionIgnoresStates(d, newCount);
    }
  }

  lemma CompletionIgnoresStates(d: Deployment, newCount: int)
    requires HasLimits(d.spec)
    ensures Completed(Persisted(d).spec, Persisted(d).status, newCount) == Completed(d.spec, d.status, newCount)
  {}

  lemma InactiveFacts(states: States)
    ensures forall k: StateType ::
              !IsActive(Inactive(states), k) && LastUpdate(Inactive(states), k) == LastUpdate(states, k)
  {}
}
