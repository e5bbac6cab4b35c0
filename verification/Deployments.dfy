/** Deployments, their status, and the status update at the end of a reconcile. */
module Deployments {
  import opened Domain
  import opened Runtime
  import opened RollSpec
  import opened Snapshots
  import opened RollSafety
  import opened RollConvergence

  datatype StateType = Available | Progress | Failure

  datatype State = State(kind: StateType, active: bool, message: string, update: int, transition: int)

  type States = map<StateType, State>

  datatype Status = Status(
    total: int,
    updated: int,
    ready: int,
    available: int,
    unavailable: int,
    states: States,
    paused: bool,
    stopped: bool,
    deleted: bool)

  datatype RollingUpdate = RollingUpdate(maxUnavailable: Option<int>, maxSurge: Option<int>)

  datatype Strategy = Strategy(kind: string, rollingUpdate: Option<RollingUpdate>)

  datatype Spec = Spec(
    selector: Labels,
    appCount: int,
    revisionLimit: Option<int>,
    resourceQuotas: map<string, real>,
    strategy: Strategy,
    app: AppSpec,
    minReadySeconds: int,
    deadline: int,
    automaticRollback: bool,
    mode: string,
    reconcilePeriod: Option<int>)

  datatype Deployment = Deployment(
    name: string,
    namespace: string,
    orgId: string,
    labels: Labels,
    spec: Spec,
    status: Status)

  /** The rolling limits are present; the handlers dereference them without a check. */
  predicate HasLimits(spec: Spec) {
    && spec.strategy.rollingUpdate.Some?
    && spec.strategy.rollingUpdate.value.maxUnavailable.Some?
    && spec.strategy.rollingUpdate.value.maxSurge.Some?
  }

  function MaxUnavailable(spec: Spec): int
    requires HasLimits(spec)
  {
    spec.strategy.rollingUpdate.value.maxUnavailable.value
  }

  function MaxSurge(spec: Spec): int
    requires HasLimits(spec)
  {
    spec.strategy.rollingUpdate.value.maxSurge.value
  }

  function ModeOf(mode: string): Mode {
    if mode == "DirectDocker" then DirectDocker
    else if mode == "DirectStar" then DirectStar
    else if mode == "IndirectStar" then IndirectStar
    else OtherMode
  }

  function LimitsOf(spec: Spec): Limits
    requires HasLimits(spec)
  {
    Limits(spec.appCount, MaxSurge(spec), MaxUnavailable(spec), ModeOf(spec.mode))
  }

  // ---------- reading and setting states ----------

  function LastUpdate(states: States, kind: StateType): int {
    if kind in states then states[kind].update else 0
  }

  predicate IsActive(states: States, kind: StateType) {
    kind in states && states[kind].active
  }

  function MessageOf(states: States, kind: StateType): string {
    if kind in states then states[kind].message else ""
  }

  /** A state's flag and message change; it keeps the time of its last update. */
  function SetState(states: States, kind: StateType, active: bool, message: string, now: int): States {
    states[kind := State(kind, active, message, LastUpdate(states, kind), now)]
  }

  lemma SetTwice(states: States, kind: StateType, active: bool, first: string, second: string, now: int)
    ensures SetState(SetState(states, kind, active, first, now), kind, active, second, now)
         == SetState(states, kind, active, second, now)
  {}

  // ---------- the status update ----------

  predicate Enough(spec: Spec, status: Status)
    requires HasLimits(spec)
  {
    status.available >= spec.appCount - MaxUnavailable(spec) && status.available > 0
  }

  predicate Completed(spec: Spec, status: Status, newCount: int)
    requires HasLimits(spec)
  {
    Enough(spec, status) && status.available == newCount == status.total && spec.appCount == newCount
  }

  /** The deadline runs from the last time the progress state was updated. */
  predicate Overdue(spec: Spec, status: Status, now: int) {
    now > spec.deadline + LastUpdate(status.states, Progress) && !status.paused
  }

  /** First half: is the deployment available, and is the rollout complete. */
  function ProgressStates(spec: Spec, status: Status, newCount: int, now: int): States
    requires HasLimits(spec)
  {
    var enough := Enough(spec, status);
    var complete := Completed(spec, status, newCount);
    SetState(
      SetState(status.states, Available, enough,
               if enough then "Deployment available" else "Deployment not available", now),
      Progress, !complete, if complete then "Deployment rollout completed" else "Deployment in progress", now)
  }

  /** Second half: a rollout in progress fails when its deadline has passed. */
  function DeadlineStates(spec: Spec, status: Status, now: int): States {
    if !IsActive(status.states, Progress) then status.states
    else if Overdue(spec, status, now) then
      SetState(
        SetState(status.states, Progress, false,
                 if spec.appCount == 0
                 then "Deadline exceeded, appCount is currently set to 0 in deployment spec"
                 else "Deadline exceeded", now),
        Failure, true, "Deadline exceeded, failed", now)
    else
      SetState(status.states, Failure, false, "Deployment has not failed", now)
  }

  function UpdatedStates(spec: Spec, status: Status, newCount: int, now: int): States
    requires HasLimits(spec)
  {
    DeadlineStates(spec, status.(states := ProgressStates(spec, status, newCount, now)), now)
  }

  /** The deployment a handler holds in memory. */
  class Record {
    const name: string
    const namespace: string
    const orgId: string
    const labels: Labels
    var spec: Spec
    var status: Status

    constructor (d: Deployment)
      ensures Value() == d
    {
      name, namespace, orgId, labels := d.name, d.namespace, d.orgId, d.labels;
      spec, status := d.spec, d.status;
    }

    function Value(): Deployment
      reads this
    {
      Deployment(name, namespace, orgId, labels, spec, status)
    }

    method NewState(kind: StateType, active: bool, message: string, now: int)
      modifies this`status
      ensures status == old(status).(states := SetState(old(status).states, kind, active, message, now))
    {
      var state := State(kind, active, message, LastUpdate(status.states, kind), now);
      status := status.(states := status.states[kind := state]);
    }

    method UpdateProgress(newCount: int, now: int)
      requires HasLimits(spec)
      modifies this`status
      ensures status == old(status).(states := ProgressStates(spec, old(status), newCount, now))
    {
      hide SetState;
      if status.available >= spec.appCount - MaxUnavailable(spec) && status.available > 0 {
        NewState(Available, true, "Deployment available", now);
        if status.available == newCount && status.total == newCount && spec.appCount == newCount {
          NewState(Progress, false, "Deployment rollout completed", now);
        } else {
          NewState(Progress, true, "Deployment in progress", now);
        }
      } else {
        NewState(Available, false, "Deployment not available", now);
        NewState(Progress, true, "Deployment in progress", now);
      }
    }

    method CheckDeadline(now: int)
      modifies this`status
      ensures status == old(status).(states := DeadlineStates(spec, old(status), now))
    {
      hide SetState, IsActive, LastUpdate;
      if IsActive(status.states, Progress) {
        if now > spec.deadline + LastUpdate(status.states, Progress) && !status.paused {
          NewState(Progress, false, "Deadline exceeded", now);
          if spec.appCount == 0 {
            SetTwice(old(status).states, Progress, false, "Deadline exceeded",
                     "Deadline exceeded, appCount is currently set to 0 in deployment spec", now);
            NewState(Progress, false, "Deadline exceeded, appCount is currently set to 0 in deployment spec", now);
          }
          NewState(Failure, true, "Deadline exceeded, failed", now);
        } else {
          NewState(Failure, false, "Deployment has not failed", now);
        }
      }
    }

    method UpdateStatusStates(newCount: int, now: int)
      requires HasLimits(spec)
      modifies this`status
      ensures status == old(status).(states := UpdatedStates(spec, old(status), newCount, now))
    {
      hide ProgressStates, DeadlineStates;
      UpdateProgress(newCount, now);
      CheckDeadline(now);
    }
  }

  // ---------- what the status says ----------

  /** The update keeps every state's time of last update, so the deadline keeps running. */
  lemma UpdateKeepsDeadline(spec: Spec, status: Status, newCount: int, now: int, kind: StateType)
    requires HasLimits(spec)
    ensures LastUpdate(UpdatedStates(spec, status, newCount, now), kind) == LastUpdate(status.states, kind)
  {}

  /** What the three flags are after an update. */
  lemma FlagsAfterUpdate(spec: Spec, status: Status, newCount: int, now: int)
    requires HasLimits(spec)
    ensures var s := UpdatedStates(spec, status, newCount, now);
            var complete := Completed(spec, status, newCount);
            && (IsActive(s, Available) <==> Enough(spec, status))
            && (IsActive(s, Progress) <==> !complete && !Overdue(spec, status, now))
            && (IsActive(s, Failure)
                <==> if complete then IsActive(status.states, Failure) else Overdue(spec, status, now))
  {}

  /** What a user reads after an update: each state's flag and message, and that it changed
      now; a failure already raised stays as it was on a complete rollout. */
  lemma StatesAfterUpdate(spec: Spec, status: Status, newCount: int, now: int)
    requires HasLimits(spec)
    ensures var s := UpdatedStates(spec, status, newCount, now);
            var enough := && status.available > 0
                          && status.available + spec.strategy.rollingUpdate.value.maxUnavailable.value >= spec.appCount;
            var complete := enough && status.available == status.total == spec.appCount == newCount;
            var since := if Progress in status.states then status.states[Progress].update else 0;
            var late := !status.paused && now > spec.deadline + since;
            && Shows(s, Available, enough, if enough then "Deployment available" else "Deployment not available", now)
            && (complete ==>
                  && Shows(s, Progress, false, "Deployment rollout completed", now)
                  && s.Keys == status.states.Keys + {Available, Progress}
                  && (Failure in status.states ==> s[Failure] == status.states[Failure]))
            && (!complete && late ==>
                  && Shows(s, Failure, true, "Deadline exceeded, failed", now)
                  && Shows(s, Progress, false,
                           if spec.appCount == 0
                           then "Deadline exceeded, appCount is currently set to 0 in deployment spec"
                           else "Deadline exceeded", now))
            && (!complete && !late ==>
                  && Shows(s, Progress, true, "Deployment in progress", now)
                  && Shows(s, Failure, false, "Deployment has not failed", now))
  {
    hide DeadlineStates;
    var first := status.(states := ProgressStates(spec, status, newCount, now));
    DeadlineAfter(spec, first, now);
  }

  /** What the second half of an update does to the states of the first. */
  lemma DeadlineAfter(spec: Spec, status: Status, now: int)
    ensures var s := DeadlineStates(spec, status, now);
            && (Available in status.states ==> Available in s && s[Available] == status.states[Available])
            && (!IsActive(status.states, Progress) ==> s == status.states)
            && (IsActive(status.states, Progress) && Overdue(spec, status, now) ==>
                  && Shows(s, Failure, true, "Deadline exceeded, failed", now)
                  && Shows(s, Progress, false,
                           if spec.appCount == 0
                           then "Deadline exceeded, appCount is currently set to 0 in deployment spec"
                           else "Deadline exceeded", now))
            && (IsActive(status.states, Progress) && !Overdue(spec, status, now) ==>
                  && Progress in s && s[Progress] == status.states[Progress]
                  && Shows(s, Failure, false, "Deployment has not failed", now))
  {}

  /** The state is there under its own kind, with this flag and message, and changed at `now`. */
  predicate Shows(states: States, kind: StateType, active: bool, message: string, now: int) {
    && kind in states && states[kind].kind == kind && states[kind].active == active
    && states[kind].message == message && states[kind].transition == now
  }

  lemma OnlyKinds(kinds: set<StateType>)
    ensures kinds <= {Available, Progress, Failure}
  {
    forall k | k in kinds ensures k in {Available, Progress, Failure} {
      match k
      case Available =>
      case Progress =>
      case Failure =>
    }
  }

  /** The modes that can be stored are the ones with a way to run containers, each its own. */
  lemma KnownModes(mode: string, other: string)
    ensures !ModeOf(mode).OtherMode? <==> mode in {"DirectDocker", "DirectStar", "IndirectStar"}
    ensures !ModeOf(mode).OtherMode? && ModeOf(mode) == ModeOf(other) ==> mode == other
    ensures ModeOf(mode).DirectDocker? ==> mode == "DirectDocker"
    ensures ModeOf(mode).IndirectStar? ==> mode == "IndirectStar"
  {}

  /** The status of a reconcile with this snapshot. */
  function Observed(status: Status, snap: Snapshot): Status {
    status.(total := |snap.total|, available := |snap.available|)
  }

  /** Completion means done: the update reports a completed rollout exactly when something is
      asked for, the unavailability limit is not negative, and the snapshot holds appCount
      apps of the new revision, all of them available, and none of an old one. */
  lemma CompletionMeansDone(spec: Spec, status: Status, w: World, snap: Snapshot, limits: Limits)
    requires HasLimits(spec) && Faithful(w, snap) && limits.appCount == spec.appCount
    ensures Completed(spec, Observed(status, snap), CountOf(snap.counts, snap.newRev.name))
       <==> && spec.appCount > 0 && MaxUnavailable(spec) >= 0
            && AtTarget(w, limits, snap.newRev) && Names(snap.available) == Names(snap.total)
  {
    hide Faithful, RunningOf, Names;
    FaithfulCounts(w, snap);
    AllAvailableIff(w, snap);
  }

  lemma AllAvailableIff(w: World, snap: Snapshot)
    requires Faithful(w, snap)
    ensures |snap.available| == |snap.total| <==> Names(snap.available) == Names(snap.total)
  {
    hide AllCarried, ActiveRevisions, ActiveCounts;
    NamesBound(snap.available);
    NamesBound(snap.total);
    assert Names(snap.available) <= Names(snap.total);
    if |snap.available| == |snap.total| {
      SubsetOfSameSize(Names(snap.available), Names(snap.total));
    }
  }

  /** In a completed rollout a rolling step starts and stops nothing. */
  lemma CompletedIsLeftAlone(env: Env, spec: Spec, status: Status, w: World, snap: Snapshot, limits: Limits)
    requires HasLimits(spec) && Faithful(w, snap) && limits.appCount == spec.appCount
    requires Completed(spec, Observed(status, snap), CountOf(snap.counts, snap.newRev.name))
    ensures Roll(env, w, limits, snap).world == w
  {
    hide Faithful, AtTarget, Completed, Roll;
    CompletionMeansDone(spec, status, w, snap, limits);
    FinishedIsLeftAlone(env, w, limits, snap);
  }
}
