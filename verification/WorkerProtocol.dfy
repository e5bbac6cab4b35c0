/** The two goroutines of a worker as interleaved steps over the stored record: the helper,
    which handles tasks and triggers reconciles, and the main loop, which reconciles and
    checks the interrupt channel on its way. */
module WorkerProtocol {
  import opened Domain

  datatype Rec = Rec(paused: bool, stopped: bool, deleted: bool, spec: int)

  datatype Task = Pause | Unpause | StopTask | DeleteTask | Rollback(spec: int) | Put(rec: Rec)

  function Handle(t: Task, r: Rec): Rec {
    match t
    case Pause => r.(paused := true)
    case Unpause => r.(paused := false)
    case StopTask => r.(stopped := true)
    case DeleteTask => r.(stopped := true, deleted := true)
    case Rollback(spec) => r.(spec := spec)
    case Put(rec) => rec
  }

  const CAPACITY := 10
  const LAST_CHECK := 9

  /** The last checkpoint before a stopped or deleted deployment is drained. */
  const DRAIN_CHECK := 5

  /** The helper: waiting; holding a task whose token it must push; about to read the record
      and about to write it back; about to close the reconcile channel and to replace it. */
  datatype Helper = HIdle | HPush(task: Task) | HGet(task: Task) | HSave(task: Task, base: Rec)
                  | HClose | HReplace | HDone

  /** The main loop: about to select, waiting on the channel of one generation, about to load
      the record, at one of its ten checkpoints, draining a stopped or deleted deployment, past
      the last checkpoint, or stopped. */
  datatype MainLoop = MSelect | MBlocked(gen: nat) | MLoad | MCheck(k: nat, base: Rec, id: nat)
                    | MDrain(base: Rec, id: nat) | MSave(base: Rec, id: nat) | MDone

  /** `cur` is the generation of the reconcile channel, generations below `closed` are
      closed; `loads` counts the records loaded and so identifies reconciles. The record is
      gone once a reconcile has purged the deployment. */
  datatype State = State(rec: Option<Rec>, tokens: nat, cur: nat, closed: nat, loads: nat, stops: nat,
                         helper: Helper, main: MainLoop)

  datatype Action =
    | Receive(task: Task) | Push | GetOk | GetFails | SaveOk | SaveFails
    | Cooldown | Close | Replace | HelperQuit
    | Wait | Wake | Load | LoadFails | Check | GiveUp | RaiseStop | Purge | Save(result: Rec) | SaveError | Quit

  predicate Initial(s: State) {
    s.rec.Some? && s.tokens == s.cur == s.closed == s.loads == s.stops == 0 && s.helper.HIdle? && s.main.MSelect?
  }

  predicate Enabled(s: State, a: Action) {
    match a
    case Receive(_) => s.helper.HIdle?
    case Push => s.helper.HPush? && s.tokens < CAPACITY
    case GetOk => s.helper.HGet? && s.rec.Some?
    case GetFails => s.helper.HGet?
    case SaveOk => s.helper.HSave?
    case SaveFails => s.helper.HSave?
    case Cooldown => s.helper.HIdle?
    case Close => s.helper.HClose?
    case Replace => s.helper.HReplace?
    case HelperQuit => s.helper.HIdle? && s.main.MDone?
    case Wait => s.main.MSelect?
    case Wake => s.main.MBlocked? && s.main.gen < s.closed
    case Load => s.main.MLoad? && s.rec.Some?
    case LoadFails => s.main.MLoad?
    case Check => s.main.MCheck?
    case GiveUp => s.main.MCheck? || s.main.MDrain?
    case RaiseStop => s.main.MDrain?
    case Purge => s.main.MDrain? && s.main.base.deleted
    case Save(r) => s.main.MSave? && !r.stopped && !r.deleted
    case SaveError => s.main.MSave?
    case Quit => s.main.MBlocked? && s.stops > 0
  }

  function Apply(s: State, a: Action): State
    requires Enabled(s, a)
  {
    match a
    case Receive(t) => s.(helper := HPush(t))
    case Push => s.(tokens := s.tokens + 1, helper := HGet(s.helper.task))
    case GetOk => s.(helper := HSave(s.helper.task, s.rec.value))
    case GetFails => s.(helper := HIdle)
    case SaveOk => s.(rec := Some(Handle(s.helper.task, s.helper.base)), helper := HIdle)
    case SaveFails => s.(helper := HIdle)
    case Cooldown => s.(helper := HClose)
    case Close => s.(closed := s.cur + 1, helper := HReplace)
    case Replace => s.(cur := s.cur + 1, helper := HIdle)
    case HelperQuit => s.(helper := HDone)
    case Wait => s.(main := MBlocked(s.cur))
    case Wake => s.(main := MLoad)
    case Load => s.(loads := s.loads + 1, main := MCheck(0, s.rec.value, s.loads + 1))
    case LoadFails => s.(main := MSelect)
    case Check =>
      if s.tokens > 0 then s.(tokens := s.tokens - 1, main := MSelect)
      else if s.main.k == DRAIN_CHECK && (s.main.base.stopped || s.main.base.deleted)
      then s.(main := MDrain(s.main.base, s.main.id))
      else if s.main.k < LAST_CHECK then s.(main := MCheck(s.main.k + 1, s.main.base, s.main.id))
      else s.(main := MSave(s.main.base, s.main.id))
    case GiveUp => s.(main := MSelect)
    case RaiseStop => s.(stops := s.stops + 1, main := MSelect)
    case Purge => s.(rec := None, stops := s.stops + 1, main := MSelect)
    case Save(r) => s.(rec := Some(r), main := MSelect)
    case SaveError => s.(main := MSelect)
    case Quit => s.(stops := s.stops - 1, main := MDone)
  }

  // ---------- interleavings ----------

  ghost predicate Legal(s: State, acts: seq<Action>) {
    acts == [] || (Legal(s, acts[..|acts| - 1]) && Enabled(Final(s, acts[..|acts| - 1]), acts[|acts| - 1]))
  }

  function Final(s: State, acts: seq<Action>): State {
    if acts == [] then s
    else
      var before := Final(s, acts[..|acts| - 1]);
      if Enabled(before, acts[|acts| - 1]) then Apply(before, acts[|acts| - 1]) else before
  }

  /** The state before the action at index `i`. */
  function At(s: State, acts: seq<Action>, i: nat): State
    requires i <= |acts|
  {
    Final(s, acts[..i])
  }

  lemma {:induction false} LegalStep(s: State, acts: seq<Action>, i: nat)
    requires Legal(s, acts) && i < |acts|
    ensures Enabled(At(s, acts, i), acts[i]) && At(s, acts, i + 1) == Apply(At(s, acts, i), acts[i])
    decreases |acts|
  {
    hide Enabled, Apply;
    assert acts[..i + 1][..i] == acts[..i];
    if i == |acts| - 1 {
      assert acts[..i + 1] == acts;
    } else {
      LegalStep(s, acts[..|acts| - 1], i);
      assert acts[..|acts| - 1][..i] == acts[..i];
      assert acts[..|acts| - 1][..i + 1] == acts[..i + 1];
    }
  }

  /** A reconcile is running. */
  predicate Running(m: MainLoop) {
    m.MCheck? || m.MDrain? || m.MSave?
  }

  /** The reconcile channel is open except between its closing and its replacement; a running
      reconcile has a record, and only a deployment to be kept gets past the draining. */
  ghost predicate Invariant(s: State) {
    && s.closed == (if s.helper.HReplace? then s.cur + 1 else s.cur)
    && (s.main.MBlocked? ==> s.main.gen <= s.cur)
    && (Running(s.main) ==> s.main.id <= s.loads && s.rec.Some?)
    && (s.main.MCheck? ==> s.main.k <= LAST_CHECK)
    && (s.main.MDrain? ==> s.main.base.stopped || s.main.base.deleted)
    && (s.main.MSave? || (s.main.MCheck? && s.main.k > DRAIN_CHECK) ==> !s.main.base.stopped && !s.main.base.deleted)
    && s.tokens <= CAPACITY
  }

  lemma InvariantStep(s: State, a: Action)
    requires Invariant(s) && Enabled(s, a)
    ensures Invariant(Apply(s, a))
  {}

  /** The invariant holds along every interleaving; initially it holds by InitialHolds. */
  lemma {:induction false} InvariantAlways(s: State, acts: seq<Action>, i: nat)
    requires Invariant(s) && Legal(s, acts) && i <= |acts|
    ensures Invariant(At(s, acts, i))
  {
    hide Invariant, Enabled, Apply, Legal;
    if i > 0 {
      InvariantAlways(s, acts, i - 1);
      LegalStep(s, acts, i - 1);
      InvariantStep(At(s, acts, i - 1), acts[i - 1]);
    }
  }

  lemma InitialHolds(s: State)
    requires Initial(s)
    ensures Invariant(s)
  {}

  // ---------- an interrupted reconcile never saves ----------

  /** The next step of this reconcile may write or delete the stored record without another
      checkpoint. */
  predicate Destroyer(m: MainLoop) {
    m.MSave? || (m.MDrain? && m.base.deleted)
  }

  /** A step that destroys what is stored: a reconcile's save, or its purge. */
  predicate Destroying(a: Action) {
    a.Save? || a.Purge?
  }

  /** No reconcile up to number `id` is going to save or purge: if one is still running, it
      is at a checkpoint with a token pending, or drains without deleting. */
  ghost predicate Cancelled(s: State, id: nat) {
    && id <= s.loads
    && (s.main.MCheck? && s.main.id <= id ==> s.tokens > 0)
    && (Destroyer(s.main) ==> s.main.id > id)
  }

  lemma CancelledStep(s: State, a: Action, id: nat)
    requires Cancelled(s, id) && Enabled(s, a)
    ensures Cancelled(Apply(s, a), id)
  {}

  lemma {:induction false} CancelledForEver(s: State, acts: seq<Action>, i: nat, j: nat, id: nat)
    requires Legal(s, acts) && i <= j <= |acts| && Cancelled(At(s, acts, i), id)
    ensures Cancelled(At(s, acts, j), id)
    decreases j
  {
    hide Cancelled, Enabled, Apply, Legal;
    if i < j {
      CancelledForEver(s, acts, i, j - 1, id);
      LegalStep(s, acts, j - 1);
      CancelledStep(At(s, acts, j - 1), acts[j - 1], id);
    }
  }

  lemma DestroyingIsDestroyer(s: State, a: Action)
    requires Enabled(s, a) && Destroying(a)
    ensures Destroyer(s.main)
  {}

  /** In every interleaving, a reconcile that is at a checkpoint while a token is pending
      neither saves nor purges; a later save or purge is a later reconcile's. */
  lemma InterruptedNeverSaves(s: State, acts: seq<Action>, i: nat, j: nat)
    requires Invariant(s) && Legal(s, acts) && i <= j < |acts|
    requires At(s, acts, i).main.MCheck? && At(s, acts, i).tokens > 0
    requires Destroying(acts[j])
    ensures Destroyer(At(s, acts, j).main) && At(s, acts, j).main.id > At(s, acts, i).main.id
  {
    hide Legal, Final, Enabled;
    InvariantAlways(s, acts, i);
    CancelledForEver(s, acts, i, j, At(s, acts, i).main.id);
    LegalStep(s, acts, j);
    DestroyingIsDestroyer(At(s, acts, j), acts[j]);
  }

  // ---------- what a task can lose ----------

  predicate Handling(h: Helper) {
    h.HGet? || h.HSave?
  }

  predicate Resting(s: State) {
    s.main.MSelect? || (s.main.MBlocked? && s.main.gen >= s.closed) || s.main.MDone?
  }

  /** While the helper handles a task: the main loop rests and cannot be woken, or it has a
      token still to consume and cannot destroy the record before it does. */
  ghost predicate Held(s: State) {
    Handling(s.helper) ==> Resting(s) || (s.tokens > 0 && !Destroyer(s.main))
  }

  lemma HeldStep(s: State, a: Action)
    requires Invariant(s) && Held(s) && Enabled(s, a) && !a.Push?
    ensures Held(Apply(s, a))
  {}

  lemma PushHolds(s: State)
    requires Enabled(s, Push) && !Destroyer(s.main)
    ensures Held(Apply(s, Push))
  {}

  lemma {:induction false} HeldUntilSaved(s: State, acts: seq<Action>, p: nat, t: nat)
    requires Invariant(s) && Legal(s, acts) && p < t <= |acts|
    requires acts[p].Push? && forall i | p < i < t :: !acts[i].Push?
    requires !Destroyer(At(s, acts, p).main)
    ensures Held(At(s, acts, t))
    decreases t
  {
    hide Legal, Final, Invariant, Held, Enabled, Apply, Destroyer;
    LegalStep(s, acts, t - 1);
    if t > p + 1 {
      HeldUntilSaved(s, acts, p, t - 1);
      InvariantAlways(s, acts, t - 1);
      HeldStep(At(s, acts, t - 1), acts[t - 1]);
    } else {
      PushHolds(At(s, acts, p));
    }
  }

  lemma HeldCancels(s: State, a: Action)
    requires Held(s) && Invariant(s) && a.SaveOk? && Enabled(s, a)
    ensures Cancelled(Apply(s, a), Apply(s, a).loads)
  {}

  /** In every interleaving, a reconcile that loaded the record before a handled task saved
      it can save over it or delete it only if, when the task's token was pushed, it was past
      its last checkpoint, or past the one before the draining with a record marked for
      deletion. Here `p` pushes the token, `t` is that task's save, `q` is the reconcile's
      step. */
  lemma DestroyedOnlyFromTheTail(s: State, acts: seq<Action>, p: nat, t: nat, q: nat)
    requires Invariant(s) && Legal(s, acts) && p < t < q < |acts|
    requires acts[p].Push? && acts[t].SaveOk? && forall i | p < i < t :: !acts[i].Push?
    requires Destroying(acts[q]) && Destroyer(At(s, acts, q).main)
    requires At(s, acts, q).main.id <= At(s, acts, t + 1).loads
    ensures Destroyer(At(s, acts, p).main)
  {
    hide Legal, Final, Invariant, Held, Destroyer, Enabled, Apply;
    if !Destroyer(At(s, acts, p).main) {
      HeldUntilSaved(s, acts, p, t);
      InvariantAlways(s, acts, t);
      LegalStep(s, acts, t);
      HeldCancels(At(s, acts, t), acts[t]);
      CancelledForEver(s, acts, t + 1, q, At(s, acts, t + 1).loads);
      assert false;
    }
  }

  /** The task whose token the first action pushes is saved by the action at `t`, and a
      reconcile that had loaded the record before destroys it by the action at `q`. */
  ghost predicate Destroys(s: State, acts: seq<Action>, t: nat, q: nat) {
    && Legal(s, acts) && 0 < t < q < |acts|
    && acts[0].Push? && acts[t].SaveOk? && (forall i | 0 < i < t :: !acts[i].Push?)
    && Destroying(acts[q]) && Destroyer(At(s, acts, q).main)
    && At(s, acts, q).main.id <= At(s, acts, t + 1).loads
  }

  /** The last two steps of that: the task's record is stored, and then it is not. */
  function Destruction(m: MainLoop): Action
    requires Destroyer(m)
  {
    if m.MSave? then Save(m.base) else Purge
  }

  /** That window is real: from every such state the task can be handled and saved, and its
      effect wiped out by the reconcile's own save, or with the whole record by its purge. */
  lemma TailDestroys(s: State)
    requires Invariant(s) && s.helper.HPush? && s.tokens < CAPACITY && Destroyer(s.main)
    ensures var handled := [Push] + [GetOk] + [SaveOk];
            && Destroys(s, handled + [Destruction(s.main)], 2, 3)
            && Final(s, handled).rec == Some(Handle(s.helper.task, s.rec.value))
            && Final(s, handled + [Destruction(s.main)]).rec == if s.main.MSave? then Some(s.main.base) else None
  {
    hide Legal, Final;
    var last := Destruction(s.main);
    OneStep(s, Push);
    OneMore(s, [Push], GetOk);
    OneMore(s, [Push] + [GetOk], SaveOk);
    OneMore(s, [Push] + [GetOk] + [SaveOk], last);
    var acts := [Push] + [GetOk] + [SaveOk] + [last];
    assert acts[..3] == [Push] + [GetOk] + [SaveOk];
  }

  /** Exactly which reconciles can destroy what a task saves: those that are past their last
      checkpoint, or drain a deployment marked for deletion, when its token is pushed. */
  lemma DestroyableExactlyWhen(s: State)
    requires Invariant(s) && s.helper.HPush? && s.tokens < CAPACITY
    ensures (exists acts, t, q :: Destroys(s, acts, t, q)) <==> Destroyer(s.main)
  {
    if acts, t, q :| Destroys(s, acts, t, q) {
      hide Legal;
      DestroyedOnlyFromTheTail(s, acts, 0, t, q);
      assert acts[..0] == [];
    }
    if Destroyer(s.main) {
      TailDestroys(s);
    }
  }

  // ---------- a purged record ----------

  /** The record is gone, and nobody holds a copy that could still be saved. */
  ghost predicate Gone(s: State) {
    s.rec.None? && !s.helper.HSave? && !Running(s.main)
  }

  lemma GoneStep(s: State, a: Action)
    requires Gone(s) && Enabled(s, a)
    ensures Gone(Apply(s, a))
  {}

  lemma {:induction false} GoneForEver(s: State, acts: seq<Action>)
    requires Gone(s) && Legal(s, acts)
    ensures Gone(Final(s, acts))
  {
    hide Gone, Enabled, Apply;
    if acts != [] {
      GoneForEver(s, acts[..|acts| - 1]);
      GoneStep(Final(s, acts[..|acts| - 1]), acts[|acts| - 1]);
    }
  }

  ghost predicate ComesBack(s: State) {
    exists acts :: Legal(s, acts) && Final(s, acts).rec.Some?
  }

  /** A purged record comes back in some continuation exactly when a task handler had read it
      before the purge and not yet saved it. */
  lemma PurgeUndoneExactlyWhen(s: State)
    requires Invariant(s) && Enabled(s, Purge)
    ensures ComesBack(Apply(s, Purge)) <==> s.helper.HSave?
  {
    hide Legal, Final;
    var s' := Apply(s, Purge);
    if s.helper.HSave? {
      OneStep(s', SaveOk);
    } else {
      forall acts | Legal(s', acts) ensures Final(s', acts).rec.None? {
        GoneForEver(s', acts);
      }
    }
  }

  lemma OneStep(s: State, a: Action)
    requires Enabled(s, a)
    ensures Legal(s, [a]) && Final(s, [a]) == Apply(s, a)
  {
    hide Enabled, Apply;
    assert [a][..0] == [];
  }

  lemma NothingDone(s: State)
    ensures Legal(s, []) && Final(s, []) == s
  {}

  lemma OneMore(s: State, acts: seq<Action>, a: Action)
    requires Legal(s, acts) && Enabled(Final(s, acts), a)
    ensures Legal(s, acts + [a]) && Final(s, acts + [a]) == Apply(Final(s, acts), a)
  {
    hide Enabled, Apply;
    assert (acts + [a])[..|acts|] == acts;
  }

  lemma {:induction false} Continued(s: State, a: seq<Action>, b: seq<Action>)
    requires Legal(s, a) && Legal(Final(s, a), b)
    ensures Legal(s, a + b) && Final(s, a + b) == Final(Final(s, a), b)
  {
    hide Enabled, Apply;
    if b == [] {
      assert a + b == a;
    } else {
      Continued(s, a, b[..|b| - 1]);
      assert (a + b)[..|a + b| - 1] == a + b[..|b| - 1];
    }
  }

  // ---------- the window is reached ----------

  function Checks(n: nat): seq<Action> {
    if n == 0 then [] else Checks(n - 1) + [Check]
  }

  lemma OneCheck(s: State)
    requires s.tokens == 0 && s.main.MCheck? && s.main.k < LAST_CHECK
    requires s.main.k < DRAIN_CHECK || (!s.main.base.stopped && !s.main.base.deleted)
    ensures Enabled(s, Check) && Apply(s, Check) == s.(main := s.main.(k := s.main.k + 1))
  {}

  /** With no token pending, a deployment to be kept passes its checkpoints one by one. */
  lemma {:induction false} ChecksPass(s: State, n: nat)
    requires s.tokens == 0 && s.main.MCheck? && s.main.k + n <= LAST_CHECK
    requires s.main.k + n <= DRAIN_CHECK || (!s.main.base.stopped && !s.main.base.deleted)
    ensures Legal(s, Checks(n)) && Final(s, Checks(n)) == s.(main := s.main.(k := s.main.k + n))
  {
    hide Enabled, Apply;
    if n > 0 {
      ChecksPass(s, n - 1);
      OneCheck(s.(main := s.main.(k := s.main.k + n - 1)));
      OneMore(s, Checks(n - 1), Check);
    }
  }

  /** The steps that load the record, from a resting worker. */
  function Loading(): seq<Action> {
    [Wait] + [Cooldown] + [Close] + [Wake] + [Replace] + [Load]
  }

  lemma LoadingLoads(s: State)
    requires s.rec.Some? && s.helper.HIdle? && s.main.MSelect? && s.closed == s.cur
    ensures Legal(s, Loading())
    ensures Final(s, Loading())
         == s.(cur := s.cur + 1, closed := s.cur + 1, loads := s.loads + 1, main := MCheck(0, s.rec.value, s.loads + 1))
  {
    hide Legal, Final;
    OneStep(s, Wait);
    OneMore(s, [Wait], Cooldown);
    OneMore(s, [Wait] + [Cooldown], Close);
    OneMore(s, [Wait] + [Cooldown] + [Close], Wake);
    OneMore(s, [Wait] + [Cooldown] + [Close] + [Wake], Replace);
    OneMore(s, [Wait] + [Cooldown] + [Close] + [Wake] + [Replace], Load);
  }

  /** The number of checkpoints a reconcile of this record passes before it can destroy it. */
  function LastCheckOf(rec: Rec): nat {
    if rec.stopped || rec.deleted then DRAIN_CHECK else LAST_CHECK
  }

  /** The window is reached: from every start of a worker whose deployment is kept or marked
      for deletion there is a run in which any given task is received while a reconcile can
      destroy what it is going to save. */
  lemma WindowIsReached(s: State, task: Task)
    requires Initial(s) && (s.rec.value.stopped ==> s.rec.value.deleted)
    ensures var acts := Loading() + Checks(LastCheckOf(s.rec.value)) + [Check] + [Receive(task)];
            && Legal(s, acts)
            && var f := Final(s, acts);
               f.rec == s.rec && f.tokens == 0 && f.helper == HPush(task) && Destroyer(f.main) && Invariant(f)
  {
    hide Legal, Final;
    var n := LastCheckOf(s.rec.value);
    LoadingLoads(s);
    ChecksPass(Final(s, Loading()), n);
    Continued(s, Loading(), Checks(n));
    OneMore(s, Loading() + Checks(n), Check);
    OneMore(s, Loading() + Checks(n) + [Check], Receive(task));
  }

  // ---------- what a token does ----------

  function Rounds(n: nat): seq<Action> {
    if n == 0 then [] else Rounds(n - 1) + Loading() + [Check]
  }

  /** Each pending token interrupts one reconcile: while no task comes in, the next reconciles
      give up at their first checkpoint, as many as there are tokens, and the one after them
      gets past it. */
  lemma {:induction false} EachTokenInterruptsOne(s: State, n: nat)
    requires s.rec.Some? && s.helper.HIdle? && s.main.MSelect? && s.closed == s.cur && n <= s.tokens
    ensures Legal(s, Rounds(n))
    ensures var f := Final(s, Rounds(n));
            && f.tokens == s.tokens - n && f.loads == s.loads + n && f.rec == s.rec
            && f.helper.HIdle? && f.main.MSelect? && f.closed == f.cur
            && (n == s.tokens ==>
                  && Legal(f, Loading() + [Check])
                  && Final(f, Loading() + [Check]).main == MCheck(1, s.rec.value, s.loads + n + 1))
  {
    hide Legal, Final;
    if n == 0 {
      NothingDone(s);
    } else {
      EachTokenInterruptsOne(s, n - 1);
      var before := Final(s, Rounds(n - 1));
      LoadingLoads(before);
      OneMore(before, Loading(), Check);
      Continued(s, Rounds(n - 1), Loading());
      OneMore(s, Rounds(n - 1) + Loading(), Check);
    }
    var f := Final(s, Rounds(n));
    LoadingLoads(f);
    OneMore(f, Loading(), Check);
  }

  /** The action signals the worker to stop. */
  predicate Signals(a: Action) {
    a.RaiseStop? || a.Purge?
  }

  /** The main loop signals at `j`, draining a stopped or deleted deployment it had loaded. */
  ghost predicate SignalledAt(s: State, acts: seq<Action>, j: int) {
    && 0 <= j < |acts| && Signals(acts[j]) && At(s, acts, j).main.MDrain?
    && (At(s, acts, j).main.base.stopped || At(s, acts, j).main.base.deleted)
  }

  lemma {:induction false} StopsAreSignalled(s: State, acts: seq<Action>, i: nat)
    requires Initial(s) && Legal(s, acts) && i <= |acts| && At(s, acts, i).stops > 0
    ensures exists j :: j < i && SignalledAt(s, acts, j)
  {
    InitialHolds(s);
    if i > 0 {
      LegalStep(s, acts, i - 1);
      InvariantAlways(s, acts, i - 1);
      if At(s, acts, i - 1).stops > 0 {
        StopsAreSignalled(s, acts, i - 1);
      } else {
        assert SignalledAt(s, acts, i - 1);
      }
    }
  }

  /** In every interleaving a worker quits only after one of its reconciles has drained a
      deployment that it had loaded as stopped or deleted. */
  lemma QuitsOnlyWhenSignalled(s: State, acts: seq<Action>, q: nat)
    requires Initial(s) && Legal(s, acts) && q < |acts| && acts[q].Quit?
    ensures exists j :: j < q && SignalledAt(s, acts, j)
  {
    LegalStep(s, acts, q);
    StopsAreSignalled(s, acts, q);
  }

  // ---------- a full interrupt channel ----------

  /** The helper waits to push into a full channel that only the main loop could drain, and
      the main loop is not going to reach a checkpoint unless the helper wakes it, or has no
      record left to load. */
  ghost predicate Wedged(s: State) {
    s.helper.HPush? && s.tokens == CAPACITY && (Resting(s) || s.main.MSave? || s.main.MDrain? || s.rec.None?)
  }

  lemma WedgedStep(s: State, a: Action)
    requires Invariant(s) && Wedged(s) && Enabled(s, a)
    ensures Wedged(Apply(s, a)) && Apply(s, a).helper == s.helper
  {}

  lemma {:induction false} WedgedForEver(s: State, acts: seq<Action>, i: nat)
    requires Invariant(s) && Wedged(s) && Legal(s, acts) && i <= |acts|
    ensures Wedged(At(s, acts, i)) && Invariant(At(s, acts, i)) && At(s, acts, i).helper == s.helper
  {
    hide Invariant, Wedged, Enabled, Apply, Legal;
    if i > 0 {
      WedgedForEver(s, acts, i - 1);
      LegalStep(s, acts, i - 1);
      WedgedStep(At(s, acts, i - 1), acts[i - 1]);
      InvariantStep(At(s, acts, i - 1), acts[i - 1]);
    }
  }

  /** There is a continuation in which the token is pushed. */
  ghost predicate CanPush(s: State) {
    exists acts :: Legal(s, acts) && Final(s, acts).helper == s.helper && Enabled(Final(s, acts), Push)
  }

  /** The steps of the main loop that consume a token. */
  function Drain(s: State): seq<Action> {
    if s.tokens < CAPACITY then []
    else if s.main.MBlocked? then [Wake] + [Load] + [Check]
    else if s.main.MLoad? then [Load] + [Check]
    else [Check]
  }

  /** A task the helper has received is handled in some continuation if and only if the
      worker is not wedged; once wedged it handles no task and starts no reconcile again. */
  lemma PushableExactlyWhen(s: State)
    requires Invariant(s) && s.helper.HPush?
    ensures CanPush(s) <==> !Wedged(s)
  {
    hide Invariant;
    if Wedged(s) {
      forall acts | Legal(s, acts) ensures !Enabled(Final(s, acts), Push) {
        WedgedForEver(s, acts, |acts|);
        assert acts[..|acts|] == acts;
      }
    } else {
      DrainWorks(s);
    }
  }

  lemma DrainWorks(s: State)
    requires Invariant(s) && s.helper.HPush? && !Wedged(s)
    ensures Legal(s, Drain(s)) && Final(s, Drain(s)).helper == s.helper && Enabled(Final(s, Drain(s)), Push)
    ensures Final(s, Drain(s)).rec == s.rec && Final(s, Drain(s)).stops == s.stops
    ensures s.main.MDone? ==> Final(s, Drain(s)).main.MDone?
  {
    if s.tokens == CAPACITY {
      hide Legal, Final;
      if s.main.MBlocked? {
        OneStep(s, Wake);
        OneMore(s, [Wake], Load);
        OneMore(s, [Wake] + [Load], Check);
      } else if s.main.MLoad? {
        OneStep(s, Load);
        OneMore(s, [Load], Check);
      } else {
        OneStep(s, Check);
      }
    }
  }

  /** Handling one task: without a record it fails, after its token has been pushed. */
  function Handled(t: Task, stored: bool): seq<Action> {
    [Receive(t)] + [Push] + if stored then [GetOk] + [SaveOk] else [GetFails]
  }

  /** Handling tasks one after the other while the main loop is not scheduled. */
  function HandledAll(tasks: seq<Task>, stored: bool): seq<Action> {
    if tasks == [] then []
    else HandledAll(tasks[..|tasks| - 1], stored) + Handled(tasks[|tasks| - 1], stored)
  }

  /** The record after all these tasks. */
  function AfterAll(tasks: seq<Task>, rec: Rec): Rec {
    if tasks == [] then rec else Handle(tasks[|tasks| - 1], AfterAll(tasks[..|tasks| - 1], rec))
  }

  lemma HandledPiles(s: State, t: Task)
    requires s.helper.HIdle? && s.tokens < CAPACITY
    ensures Legal(s, Handled(t, s.rec.Some?))
    ensures var f := Final(s, Handled(t, s.rec.Some?));
            && f.helper.HIdle? && f.tokens == s.tokens + 1 && f.main == s.main && f.closed == s.closed
            && f.rec == if s.rec.Some? then Some(Handle(t, s.rec.value)) else None
  {
    hide Legal, Final;
    OneStep(s, Receive(t));
    OneMore(s, [Receive(t)], Push);
    if s.rec.Some? {
      OneMore(s, [Receive(t)] + [Push], GetOk);
      OneMore(s, [Receive(t)] + [Push] + [GetOk], SaveOk);
      assert Handled(t, true) == [Receive(t)] + [Push] + [GetOk] + [SaveOk];
    } else {
      OneMore(s, [Receive(t)] + [Push], GetFails);
      assert Handled(t, false) == [Receive(t)] + [Push] + [GetFails];
    }
  }

  lemma {:induction false} TasksPileUp(s: State, tasks: seq<Task>)
    requires s.helper.HIdle? && s.tokens + |tasks| <= CAPACITY
    ensures Legal(s, HandledAll(tasks, s.rec.Some?))
    ensures var f := Final(s, HandledAll(tasks, s.rec.Some?));
            && f.helper.HIdle? && f.tokens == s.tokens + |tasks| && f.main == s.main && f.closed == s.closed
            && f.rec == if s.rec.Some? then Some(AfterAll(tasks, s.rec.value)) else None
  {
    hide Handled, Handle;
    if tasks != [] {
      var front, last := tasks[..|tasks| - 1], tasks[|tasks| - 1];
      TasksPileUp(s, front);
      HandledPiles(Final(s, HandledAll(front, s.rec.Some?)), last);
      Continued(s, HandledAll(front, s.rec.Some?), Handled(last, s.rec.Some?));
    }
  }

  /** The wedge is reachable: a worker that waits for its next reconcile and gets as many
      tasks as the channel has free places, and then one more, is wedged. */
  lemma TooManyTasksWedge(s: State, tasks: seq<Task>, t: Task)
    requires Invariant(s) && s.helper.HIdle? && Resting(s) && |tasks| == CAPACITY - s.tokens
    ensures var acts := HandledAll(tasks, s.rec.Some?) + [Receive(t)];
            Legal(s, acts) && Wedged(Final(s, acts)) && Invariant(Final(s, acts))
  {
    hide Legal, Final, Invariant;
    TasksPileUp(s, tasks);
    OneMore(s, HandledAll(tasks, s.rec.Some?), Receive(t));
    var acts := HandledAll(tasks, s.rec.Some?) + [Receive(t)];
    InvariantAlways(s, acts, |acts|);
    assert acts[..|acts|] == acts;
  }

  /** How many that are: while the main loop rests with no token pending, any ten tasks are
      handled one after the other, and saved if there is a record; one received after nine of
      them can still be handled, but one received after all ten never can. */
  lemma EleventhTaskWedges(s: State, tasks: seq<Task>, t: Task)
    requires Invariant(s) && s.helper.HIdle? && Resting(s) && s.tokens == 0 && |tasks| == 10
    ensures var stored := s.rec.Some?;
            && Legal(s, HandledAll(tasks, stored)) && Final(s, HandledAll(tasks, stored)).helper.HIdle?
            && (stored ==> Final(s, HandledAll(tasks, stored)).rec == Some(AfterAll(tasks, s.rec.value)))
            && Legal(s, HandledAll(tasks[..9], stored) + [Receive(t)])
            && CanPush(Final(s, HandledAll(tasks[..9], stored) + [Receive(t)]))
            && Legal(s, HandledAll(tasks, stored) + [Receive(t)])
            && !CanPush(Final(s, HandledAll(tasks, stored) + [Receive(t)]))
  {
    hide Legal, Final, Invariant, Handled, HandledAll, AfterAll, CanPush, Resting;
    var stored := s.rec.Some?;
    TasksPileUp(s, tasks);
    TasksPileUp(s, tasks[..9]);
    OneMore(s, HandledAll(tasks[..9], stored), Receive(t));
    var acts := HandledAll(tasks[..9], stored) + [Receive(t)];
    InvariantAlways(s, acts, |acts|);
    assert acts[..|acts|] == acts;
    PushableExactlyWhen(Final(s, acts));
    TooManyTasksWedge(s, tasks, t);
    OneMore(s, HandledAll(tasks, stored), Receive(t));
    PushableExactlyWhen(Final(s, HandledAll(tasks, stored) + [Receive(t)]));
  }

  /** With no token pending, a reconcile of a deployment to be kept gets to its save by exactly
      ten checks, and one of a stopped or deleted deployment to its draining by exactly six. */
  lemma TenChecksToSave(s: State, n: nat)
    requires s.tokens == 0 && s.main.MCheck? && s.main.k == 0
    ensures var kept := !s.main.base.stopped && !s.main.base.deleted;
            && Legal(s, Checks(if kept then 10 else 6))
            && (n < (if kept then 10 else 6) ==> Final(s, Checks(n)).main.MCheck?)
            && Final(s, Checks(if kept then 10 else 6)).main
               == if kept then MSave(s.main.base, s.main.id) else MDrain(s.main.base, s.main.id)
  {
    hide Legal, Final;
    var last := if !s.main.base.stopped && !s.main.base.deleted then 9 else 5;
    if n <= last {
      ChecksPass(s, n);
    }
    ChecksPass(s, last);
    OneMore(s, Checks(last), Check);
    assert Checks(last + 1) == Checks(last) + [Check];
  }

  // ---------- what a quitting worker leaves behind ----------

  /** The task is a put that takes a stop back. */
  predicate Lifts(t: Task) {
    t.Put? && !t.rec.stopped
  }

  predicate IsLive(rec: Option<Rec>) {
    rec.Some? && !rec.value.stopped
  }

  predicate NoLift(acts: seq<Action>) {
    forall k | 0 <= k < |acts| :: acts[k].Receive? ==> !Lifts(acts[k].task)
  }

  /** A record that is not stopped is stored, or a handler or a reconcile is still going to
      store one: the handler of a put that can be received, a handler that has read such a
      record, or a reconcile that has, with no token in its way. */
  ghost predicate AtLarge(s: State) {
    || IsLive(s.rec)
    || (s.helper.HSave? && !Handle(s.helper.task, s.helper.base).stopped)
    || (s.helper.HGet? && Lifts(s.helper.task) && s.rec.Some?)
    || (s.helper.HPush? && Lifts(s.helper.task) && s.rec.Some? && !Wedged(s))
    || s.main.MSave?
    || (s.main.MCheck? && !s.main.base.stopped && !s.main.base.deleted && s.tokens == 0)
  }

  lemma NotAtLargeStep(s: State, a: Action)
    requires Invariant(s) && Enabled(s, a) && !AtLarge(s) && (a.Receive? ==> !Lifts(a.task))
    ensures !AtLarge(Apply(s, a))
  {}

  lemma {:induction false} NotAtLargeForEver(s: State, acts: seq<Action>)
    requires Invariant(s) && Legal(s, acts) && NoLift(acts) && !AtLarge(s)
    ensures Invariant(Final(s, acts)) && !AtLarge(Final(s, acts))
  {
    hide Invariant, AtLarge, Enabled, Apply;
    if acts != [] {
      var front := acts[..|acts| - 1];
      NotAtLargeForEver(s, front);
      NotAtLargeStep(Final(s, front), acts[|acts| - 1]);
      InvariantStep(Final(s, front), acts[|acts| - 1]);
    }
  }

  /** Some continuation without a further such put ends with the main loop stopped and a record
      stored that is not. */
  ghost predicate LeavesLive(s: State) {
    exists acts :: LeavesLiveBy(s, acts)
  }

  ghost predicate LeavesLiveBy(s: State, acts: seq<Action>) {
    Legal(s, acts) && NoLift(acts) && Final(s, acts).main.MDone? && IsLive(Final(s, acts).rec)
  }

  /** The main loop's way back to its select, which leaves the record as it is. */
  function Leaving(m: MainLoop): seq<Action> {
    match m
    case MLoad => [LoadFails]
    case MCheck(_, _, _) => [GiveUp]
    case MDrain(_, _) => [GiveUp]
    case MSave(_, _) => [SaveError]
    case _ => []
  }

  function Quitting(m: MainLoop): seq<Action> {
    match m
    case MDone => []
    case MBlocked(_) => [Quit]
    case _ => Leaving(m) + [Wait] + [Quit]
  }

  lemma LeavingLeaves(s: State)
    requires !s.main.MDone? && !s.main.MBlocked?
    ensures Legal(s, Leaving(s.main)) && Final(s, Leaving(s.main)) == s.(main := MSelect)
  {
    if !s.main.MSelect? {
      OneStep(s, Leaving(s.main)[0]);
    }
  }

  lemma QuittingQuits(s: State)
    requires s.stops > 0 || s.main.MDone?
    ensures Legal(s, Quitting(s.main)) && NoLift(Quitting(s.main))
    ensures Final(s, Quitting(s.main)).main.MDone? && Final(s, Quitting(s.main)).rec == s.rec
  {
    hide Legal, Final;
    if s.main.MDone? {
      NothingDone(s);
    } else if s.main.MBlocked? {
      OneStep(s, Quit);
    } else {
      LeavingLeaves(s);
      OneMore(s, Leaving(s.main), Wait);
      OneMore(s, Leaving(s.main) + [Wait], Quit);
    }
  }

  lemma ThenQuits(s: State, acts: seq<Action>)
    requires Legal(s, acts) && NoLift(acts) && IsLive(Final(s, acts).rec)
    requires Final(s, acts).stops > 0 || Final(s, acts).main.MDone?
    ensures LeavesLive(s)
  {
    hide Legal, Final;
    var f := Final(s, acts);
    QuittingQuits(f);
    Continued(s, acts, Quitting(f.main));
    assert LeavesLiveBy(s, acts + Quitting(f.main));
  }

  lemma SavedByHelper(s: State)
    requires s.helper.HSave? && !Handle(s.helper.task, s.helper.base).stopped && (s.stops > 0 || s.main.MDone?)
    ensures LeavesLive(s)
  {
    hide Legal, Final;
    OneStep(s, SaveOk);
    ThenQuits(s, [SaveOk]);
  }

  lemma PutByHelper(s: State, acts: seq<Action>)
    requires Legal(s, acts) && NoLift(acts)
    requires var f := Final(s, acts);
             f.helper.HGet? && Lifts(f.helper.task) && f.rec.Some? && (f.stops > 0 || f.main.MDone?)
    ensures LeavesLive(s)
  {
    hide Legal, Final;
    OneMore(s, acts, GetOk);
    OneMore(s, acts + [GetOk], SaveOk);
    ThenQuits(s, acts + [GetOk] + [SaveOk]);
  }

  lemma DrainLiftsNothing(s: State)
    ensures NoLift(Drain(s))
  {}

  lemma ReceivedByHelper(s: State)
    requires Invariant(s) && s.helper.HPush? && Lifts(s.helper.task) && s.rec.Some? && !Wedged(s)
    requires s.stops > 0 || s.main.MDone?
    ensures LeavesLive(s)
  {
    hide Legal, Final, Invariant, Wedged;
    DrainWorks(s);
    DrainLiftsNothing(s);
    OneMore(s, Drain(s), Push);
    PutByHelper(s, Drain(s) + [Push]);
  }

  lemma SavedByMain(s: State, acts: seq<Action>)
    requires Legal(s, acts) && NoLift(acts) && s.stops > 0
    requires var f := Final(s, acts);
             f.main.MSave? && f.stops > 0 && !f.main.base.stopped && !f.main.base.deleted
    ensures LeavesLive(s)
  {
    hide Legal, Final;
    var base := Final(s, acts).main.base;
    OneMore(s, acts, Save(base));
    ThenQuits(s, acts + [Save(base)]);
  }

  lemma {:induction false} ChecksLiftNothing(n: nat)
    ensures NoLift(Checks(n))
  {
    if n > 0 {
      ChecksLiftNothing(n - 1);
    }
  }

  lemma PassedByMain(s: State)
    requires Invariant(s) && s.main.MCheck? && !s.main.base.stopped && !s.main.base.deleted && s.tokens == 0
    requires s.stops > 0
    ensures LeavesLive(s)
  {
    hide Legal, Final;
    var n := LAST_CHECK - s.main.k;
    ChecksPass(s, n);
    ChecksLiftNothing(n);
    OneMore(s, Checks(n), Check);
    SavedByMain(s, Checks(n) + [Check]);
  }

  /** Once a stop has been signalled, the worker can quit and leave a record that is not stopped,
      with no put coming in any more, if and only if such a record is stored already or still
      at large. Nobody reconciles it then. */
  lemma LeavesLiveExactlyWhen(s: State)
    requires Invariant(s) && (s.stops > 0 || s.main.MDone?)
    ensures LeavesLive(s) <==> AtLarge(s)
  {
    hide Legal, Final;
    if AtLarge(s) {
      if IsLive(s.rec) {
        assert Legal(s, []) && Final(s, []) == s by { NothingDone(s); }
        ThenQuits(s, []);
      } else if s.helper.HSave? && !Handle(s.helper.task, s.helper.base).stopped {
        SavedByHelper(s);
      } else if s.main.MSave? {
        assert Legal(s, []) && Final(s, []) == s by { NothingDone(s); }
        SavedByMain(s, []);
      } else if s.main.MCheck? && !s.main.base.stopped && !s.main.base.deleted && s.tokens == 0 {
        PassedByMain(s);
      } else if s.helper.HGet? {
        assert Legal(s, []) && Final(s, []) == s by { NothingDone(s); }
        PutByHelper(s, []);
      } else {
        ReceivedByHelper(s);
      }
    }
    if acts :| LeavesLiveBy(s, acts) {
      if !AtLarge(s) {
        NotAtLargeForEver(s, acts);
        assert false;
      }
    }
  }

  /** A put can outrun a stop: from every start of a worker with a stopped deployment there is a
      run in which its pass signals the stop, then any given put is handled and saved, and the
      worker quits all the same, with the put's record stored. */
  lemma StopIsOutrun(s: State, rec: Rec)
    requires Initial(s) && s.rec.value.stopped
    ensures var raised := Loading() + Checks(DRAIN_CHECK) + [Check] + [RaiseStop];
            var acts := raised + Handled(Put(rec), true) + [Wait] + [Quit];
            Legal(s, acts) && Final(s, acts).main.MDone? && Final(s, acts).rec == Some(rec)
  {
    hide Legal, Final;
    LoadingLoads(s);
    ChecksPass(Final(s, Loading()), DRAIN_CHECK);
    Continued(s, Loading(), Checks(DRAIN_CHECK));
    var checked := Loading() + Checks(DRAIN_CHECK);
    OneMore(s, checked, Check);
    OneMore(s, checked + [Check], RaiseStop);
    var raised := checked + [Check] + [RaiseStop];
    OneMore(s, raised, Receive(Put(rec)));
    OneMore(s, raised + [Receive(Put(rec))], Push);
    OneMore(s, raised + [Receive(Put(rec))] + [Push], GetOk);
    OneMore(s, raised + [Receive(Put(rec))] + [Push] + [GetOk], SaveOk);
    var put := raised + [Receive(Put(rec))] + [Push] + [GetOk] + [SaveOk];
    assert raised + Handled(Put(rec), true) == put;
    OneMore(s, put, Wait);
    OneMore(s, put + [Wait], Quit);
  }
}
