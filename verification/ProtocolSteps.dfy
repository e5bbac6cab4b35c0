/** The worker protocol's records are the paused, stopped and deleted marks and the spec of
    stored deployments: its task handlers, saves and purges are those of the full model. */
module ProtocolSteps {
  import opened Domain
  import opened Deployments
  import opened Rollback
  import opened RollbackHistory
  import opened Reconciles
  import opened Persistence
  import opened SerialRuns
  import WorkerProtocol

  /** The protocol tells specs apart by numbers; `code` may be any numbering. */
  function MarksOf(d: Deployment, code: Spec -> int): WorkerProtocol.Rec {
    WorkerProtocol.Rec(d.status.paused, d.status.stopped, d.status.deleted, code(d.spec))
  }

  function TaskOf(kind: Kind, d: Deployment, code: Spec -> int): WorkerProtocol.Task
    requires IsTask(kind)
  {
    match kind
    case PauseTask => WorkerProtocol.Pause
    case UnpauseTask => WorkerProtocol.Unpause
    case StopTask => WorkerProtocol.StopTask
    case DeleteTask => WorkerProtocol.DeleteTask
    case RollbackTask(_, r) => WorkerProtocol.Rollback(code(Saved(AfterRollback(d, r.copy)).spec))
    case PutTask(_, spec) =>
      WorkerProtocol.Put(WorkerProtocol.Rec(d.status.paused, false, false, code(Saved(d.(spec := spec)).spec)))
  }

  /** Handling a task on a stored deployment and saving the result does to its marks and spec
      what the protocol's handler does. */
  lemma TasksFollowProtocol(d: Deployment, e: Event, code: Spec -> int)
    requires IsTask(e.kind) && Persisted(d) == d
    ensures MarksOf(Persisted(Handled(d, e)), code)
         == WorkerProtocol.Handle(TaskOf(e.kind, d, code), MarksOf(d, code))
  {
    hide RollbackStates, PutStatus, Inactive, Saved, Persisted;
    PersistedMarks(d, d, code);
    match e.kind
    case PauseTask => PersistedMarks(d, d.(status := d.status.(paused := true)), code);
    case UnpauseTask => PersistedMarks(d, d.(status := d.status.(paused := false)), code);
    case StopTask => PersistedMarks(d, d.(status := d.status.(stopped := true)), code);
    case DeleteTask => PersistedMarks(d, d.(status := d.status.(stopped := true, deleted := true)), code);
    case RollbackTask(_, r) => PersistedMarks(AfterRollback(d, r.copy), AfterRollback(d, r.copy), code);
    case PutTask(labels, spec) =>
      PersistedMarks(d.(spec := spec), d.(labels := labels, spec := spec, status := PutStatus(d.status, e.at)), code);
      PutMarks(d.status, e.at);
  }

  lemma PersistedMarks(d: Deployment, d': Deployment, code: Spec -> int)
    requires d'.name == d.name && d'.spec == d.spec
    ensures MarksOf(Persisted(d'), code)
         == WorkerProtocol.Rec(d'.status.paused, d'.status.stopped, d'.status.deleted, code(Saved(d).spec))
    ensures Persisted(d) == d ==> Saved(d).spec == d.spec
  {
    assert Persisted(d).spec == Saved(d).spec;
  }

  lemma PutMarks(status: Status, now: int)
    ensures var t := PutStatus(status, now);
            !t.stopped && !t.deleted && t.paused == status.paused
  {}

  /** The main loop is draining, or saving, on this record. */
  predicate DrainsOn(s: WorkerProtocol.State, base: WorkerProtocol.Rec) {
    s.main.MDrain? && s.main.base == base
  }

  predicate SavesOn(s: WorkerProtocol.State, base: WorkerProtocol.Rec) {
    s.main.MSave? && s.main.base == base
  }

  /** A pass saves exactly when it reaches the protocol's save step, behind the last
      checkpoint, on a deployment to be kept; it stops apps, quits and purges only when it has
      reached the protocol's draining step; and each is a step that the protocol allows there. */
  lemma PassesFollowProtocol(d: Deployment, o: Observation, now: int, cut: nat, rolled: Option<AppSpec>,
                             code: Spec -> int)
    requires HasLimits(d.spec)
    ensures var e := Reconciled(d, o, now, cut, rolled);
            && (e.saved <==> cut > WorkerProtocol.LAST_CHECK && !d.status.stopped && !d.status.deleted)
            && (e.stops || e.quits || e.purges
                ==> cut > WorkerProtocol.DRAIN_CHECK && (d.status.stopped || d.status.deleted))
            && (forall s | SavesOn(s, MarksOf(d, code)) && e.saved ::
                  WorkerProtocol.Enabled(s, WorkerProtocol.Save(MarksOf(Persisted(e.d), code))))
            && (forall s | DrainsOn(s, MarksOf(d, code)) && e.purges ::
                  WorkerProtocol.Enabled(s, WorkerProtocol.Purge))
            && (forall s | DrainsOn(s, MarksOf(d, code)) && e.quits ::
                  WorkerProtocol.Enabled(s, WorkerProtocol.RaiseStop))
  {
    hide UpdatedStates, Inactive, RollbackStates;
    if Reconciled(d, o, now, cut, rolled).saved {
      SavesOnlyKept(d, o, now, cut, rolled);
    }
  }
}
