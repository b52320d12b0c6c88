/**
 * The research scheduler (signal_foundry/manager.py) as a step relation: every step is one section
 * under the condition's lock, or the runner's return. worker is the program counter of the single
 * scheduler thread.
 */
module Scheduler {
  import opened Basics
  import opened JobStore

  datatype Worker =
    | Waiting
    | Working(job: JobId)
    | Returned(job: JobId, evidence: Evidence)
    | Refused(job: JobId, code: string)
    | Clearing(job: JobId)
    | Dying(job: JobId)
    | Dead(job: JobId)
    | Ended

  datatype Active = Active(job: JobId, cancelled: bool)

  /**
   * Everything after worker is history: submission order, start order, what was cut from the queue,
   * and, since the last restart, the jobs whose cancellation rolled back, the jobs a dying worker let
   * go of, whether a close raised midway, and whether the fault sweep did.
   */
  datatype State = State(
    db: Db, queue: seq<JobId>, active: Option<Active>, closed: bool, faulted: bool, worker: Worker,
    created: seq<JobId>, taken: seq<JobId>, dropped: set<JobId>,
    rolledBack: set<JobId>, deserted: set<JobId>, raised: bool, stalled: bool)

  datatype Action =
    | SubmitJob(request: nat, key: Key, at: int)
    | CancelJob(id: JobId, at: int)
    | CancelRollsBack(id: JobId)
    | Close(at: int)
    | CloseRaises(done: nat, marked: bool, at: int)
    | Take(at: int)
    | TakeFails
    | RunReturns(evidence: Evidence)
    | RunRefuses(code: string)
    | Deliver(at: int)
    | RecordFailure(at: int)
    | Crash
    | Release
    | Unwind
    | Sweep(order: seq<JobId>, at: int)
    | SweepStalls(swept: seq<JobId>, at: int)
    | Leave
    | Restart(order: seq<JobId>, at: int)

  function Init(): State {
    State(Db(map[], []), [], None, false, false, Waiting, [], [], {}, {}, {}, false, false)
  }

  /** deque.remove: the first occurrence goes. */
  function Remove(queue: seq<JobId>, id: JobId): seq<JobId> {
    if queue == [] then []
    else if queue[0] == id then queue[1..]
    else [queue[0]] + Remove(queue[1..], id)
  }

  predicate IsActive(s: State, id: JobId) {
    s.active.Some? && s.active.value.job == id
  }

  predicate Unfinished(s: State, id: JobId) {
    id in s.db.jobs && !s.db.jobs[id].state.Terminal()
  }

  /** Manager.cancel finds the job: it exists and is finished, active, or in the queue. */
  predicate Cancellable(s: State, id: JobId) {
    id in s.db.jobs && (s.db.jobs[id].state.Terminal() || IsActive(s, id) || id in s.queue)
  }

  /** What cancel does before its transaction: tell the active worker, or cut the queue. */
  function Marked(s: State, id: JobId): State {
    if IsActive(s, id) then s.(active := Some(Active(id, true)))
    else s.(queue := Remove(s.queue, id), dropped := s.dropped + {id})
  }

  function CancelOne(s: State, id: JobId, at: int): State
    requires Cancellable(s, id)
  {
    if s.db.jobs[id].state.Terminal() then s
    else Marked(s, id).(db := Transition(s.db, id, Cancelled, Some("cancelled"), at).value)
  }

  /** The transaction rolls back and cancel raises: the job is marked, and its row stays as it was. */
  function RollBack(s: State, id: JobId): State {
    Marked(s, id).(rolledBack := s.rolledBack + {id})
  }

  /** Cancels ids in order, skipping what cannot be found. */
  function CancelEach(s: State, ids: seq<JobId>, at: int): State {
    if ids == [] then s
    else
      var prior := CancelEach(s, ids[..|ids| - 1], at);
      if Cancellable(prior, ids[|ids| - 1]) then CancelOne(prior, ids[|ids| - 1], at) else prior
  }

  /** What close cancels, in order. */
  function Closing(s: State): seq<JobId> {
    s.queue + (if s.active.Some? then [s.active.value.job] else [])
  }

  function Shut(s: State, at: int): State {
    CancelEach(s.(closed := true), Closing(s), at)
  }

  /** Where a close stands once it has cancelled the first done jobs. */
  function ShutSoFar(s: State, done: nat, at: int): State
    requires done <= |Closing(s)|
  {
    CancelEach(s.(closed := true), Closing(s)[..done], at)
  }

  /** The next cancellation can raise: on reading, or, while its job is unfinished, on committing. */
  predicate Raises(s: State, done: nat, marked: bool, at: int)
    requires done < |Closing(s)|
  {
    marked ==> Unfinished(ShutSoFar(s, done, at), Closing(s)[done])
  }

  /** A cancellation inside close raises: before it marked its job, or after, when its transaction rolled back. */
  function ShutPartly(s: State, done: nat, marked: bool, at: int): State
    requires done < |Closing(s)|
  {
    var prior := ShutSoFar(s, done, at);
    (if marked then RollBack(prior, Closing(s)[done]) else prior).(raised := true)
  }

  /** The head of the queue starts running. */
  function TakeNext(s: State, at: int): State
    requires s.queue != [] && Transition(s.db, s.queue[0], Running, None, at).Success?
  {
    var id := s.queue[0];
    s.(queue := s.queue[1..], active := Some(Active(id, false)), taken := s.taken + [id], worker := Working(id),
       db := Transition(s.db, id, Running, None, at).value)
  }

  /** Evidence is published unless the job was cancelled; a refused publication kills the worker. */
  function Delivered(s: State, at: int): State
    requires s.worker.Returned? && s.active.Some?
  {
    if s.active.value.cancelled then s.(worker := Clearing(s.worker.job))
    else
      var r := Publish(s.db, s.worker.job, s.worker.evidence, at);
      if r.Success? then s.(db := r.value, worker := Clearing(s.worker.job)) else s.(worker := Dying(s.worker.job))
  }

  function FailureRecorded(s: State, at: int): State
    requires s.worker.Refused? && s.worker.job in s.db.jobs
  {
    var r := Transition(s.db, s.worker.job, Failed, Some(s.worker.code), at);
    if s.db.jobs[s.worker.job].state.Terminal() || r.Failure? then s.(worker := Clearing(s.worker.job))
    else s.(db := r.value, worker := Clearing(s.worker.job))
  }

  /** After a fault: no admission, no queue, nothing unfinished among the listed jobs. */
  function Swept(s: State, order: seq<JobId>, at: int): State {
    s.(faulted := true, db := FailEach(s.db, order, "scheduler_fault", at), queue := [],
       active := if s.active.Some? then Some(s.active.value.(cancelled := true)) else None,
       dropped := s.dropped + (set id | id in s.queue), worker := Ended)
  }

  /** The sweep loses the store after the listed jobs: the queue is not cleared. */
  function SweptPartly(s: State, swept: seq<JobId>, at: int): State {
    s.(faulted := true, stalled := true, db := FailEach(s.db, swept, "scheduler_fault", at), worker := Ended,
       active := if s.active.Some? then Some(s.active.value.(cancelled := true)) else None)
  }

  predicate Lists(db: Db, order: seq<JobId>) {
    forall id :: id in db.jobs && !db.jobs[id].state.Terminal() ==> id in order
  }

  ghost predicate Enabled(s: State, a: Action) {
    match a
    case SubmitJob(request, key, at) => !s.closed && !s.faulted && Submit(s.db, request, key, at).Success?
    case CancelJob(id, at) => Cancellable(s, id)
    case CancelRollsBack(id) => Unfinished(s, id) && Cancellable(s, id)
    case Close(at) => !s.closed
    case CloseRaises(done, marked, at) => !s.closed && done < |Closing(s)| && Raises(s, done, marked, at)
    case Take(at) =>
      s.worker.Waiting? && !s.closed && s.queue != [] && Transition(s.db, s.queue[0], Running, None, at).Success?
    case TakeFails => s.worker.Waiting? && !s.closed && s.queue != []
    case RunReturns(_) => s.worker.Working?
    case RunRefuses(_) => s.worker.Working?
    case Deliver(at) => s.worker.Returned? && s.active.Some?
    case RecordFailure(at) => s.worker.Refused? && s.worker.job in s.db.jobs
    case Crash => s.worker.Working? || s.worker.Returned? || s.worker.Refused?
    case Release => s.worker.Clearing?
    case Unwind => s.worker.Dying?
    case Sweep(order, at) => s.worker.Dead? && Lists(s.db, order)
    case SweepStalls(swept, at) => s.worker.Dead?
    case Leave => s.worker.Waiting? && s.closed
    case Restart(order, at) => Lists(s.db, order)
  }

  ghost function Apply(s: State, a: Action): State
    requires Enabled(s, a)
  {
    match a
    case SubmitJob(request, key, at) =>
      var (db, id, created) := Submit(s.db, request, key, at).value;
      if created then s.(db := db, queue := s.queue + [id], created := s.created + [id]) else s
    case CancelJob(id, at) => CancelOne(s, id, at)
    case CancelRollsBack(id) => RollBack(s, id)
    case Close(at) => Shut(s, at)
    case CloseRaises(done, marked, at) => ShutPartly(s, done, marked, at)
    case Take(at) => TakeNext(s, at)
    case TakeFails =>
      var id := s.queue[0];
      s.(queue := s.queue[1..], active := Some(Active(id, false)), taken := s.taken + [id], worker := Dead(id))
    case RunReturns(evidence) => s.(worker := Returned(s.worker.job, evidence))
    case RunRefuses(code) => s.(worker := Refused(s.worker.job, code))
    case Deliver(at) => Delivered(s, at)
    case RecordFailure(at) => FailureRecorded(s, at)
    case Crash => s.(worker := Dying(s.worker.job))
    case Release => s.(active := None, worker := Waiting)
    case Unwind => s.(active := None, worker := Dead(s.worker.job), deserted := s.deserted + {s.worker.job})
    case Sweep(order, at) => Swept(s, order, at)
    case SweepStalls(swept, at) => SweptPartly(s, swept, at)
    case Leave => s.(worker := Ended)
    case Restart(order, at) =>
      State(FailEach(s.db, order, "interrupted", at), [], None, false, false, Waiting,
        s.created, s.taken, s.dropped + (set id | id in s.queue), {}, {}, false, false)
  }

  ghost predicate Legal(s: State, script: seq<Action>)
    decreases |script|
  {
    script != [] ==> Enabled(s, script[0]) && Legal(Apply(s, script[0]), script[1..])
  }

  ghost function Run(s: State, script: seq<Action>): State
    requires Legal(s, script)
    decreases |script|
  {
    if script == [] then s else Run(Apply(s, script[0]), script[1..])
  }

  lemma {:induction false} RunAppend(s: State, script: seq<Action>, a: Action)
    requires Legal(s, script) && Enabled(Run(s, script), a)
    ensures Legal(s, script + [a]) && Run(s, script + [a]) == Apply(Run(s, script), a)
    decreases |script|
  {
    if script == [] {
      assert [a][1..] == [];
    } else {
      assert (script + [a])[1..] == script[1..] + [a];
      RunAppend(Apply(s, script[0]), script[1..], a);
    }
  }

  // ----- the invariant -----

  /** ids without the dropped ones, in the same order. */
  function Without(ids: seq<JobId>, dropped: set<JobId>): seq<JobId> {
    if ids == [] then []
    else (if ids[0] in dropped then [] else [ids[0]]) + Without(ids[1..], dropped)
  }

  /** The worker has popped this job and not yet let go of it. */
  predicate Holds(worker: Worker, id: JobId) {
    !worker.Waiting? && !worker.Ended? && worker.job == id
  }

  /** The window in which a dead worker has let go of its job and the fault is not yet recorded. */
  predicate Lost(s: State, id: JobId) {
    s.worker == Dead(id) && s.active.None?
  }

  /** Queued jobs wait in the queue, running ones are active; the others have strayed. */
  ghost predicate QueueMatches(s: State) {
    && NoDuplicates(s.queue)
    && (forall id :: id in s.queue ==>
          && id in s.db.jobs && !Holds(s.worker, id) && !IsActive(s, id)
          && id !in s.rolledBack && id !in s.deserted
          && (s.db.jobs[id].state.Queued? || (s.stalled && s.db.jobs[id].state.Terminal())))
    && (forall id :: id in s.db.jobs && s.db.jobs[id].state.Queued? ==>
          id in s.queue || id in s.rolledBack || IsActive(s, id))
    && (forall id :: id in s.db.jobs && s.db.jobs[id].state.Running? ==>
          IsActive(s, id) || id in s.rolledBack || id in s.deserted)
    && (forall id :: id in s.rolledBack || id in s.deserted ==> id in s.db.jobs)
  }

  /** An active job whose event is set has been cancelled, or its cancellation rolled back. */
  ghost predicate ActiveMatches(s: State) {
    && (s.worker.Waiting? ==> s.active.None?)
    && (s.active.Some? ==> s.active.value.job in s.db.jobs)
    && (!s.worker.Waiting? && !s.worker.Ended? ==> s.worker.job in s.db.jobs)
    && (!s.worker.Waiting? && !s.worker.Ended? && s.active.Some? ==> s.active.value.job == s.worker.job)
    && (s.worker.Working? || s.worker.Returned? || s.worker.Refused? || s.worker.Clearing? || s.worker.Dying? ==>
          s.active.Some?)
    && (s.worker.Working? || s.worker.Returned? || s.worker.Refused? ==>
          var state := s.db.jobs[s.worker.job].state;
          && (state.Running? || state.Cancelled?)
          && (!s.active.value.cancelled ==> state.Running?)
          && (s.active.value.cancelled && state.Running? ==> s.worker.job in s.rolledBack))
    && (s.worker.Clearing? ==>
          var state := s.db.jobs[s.worker.job].state;
          state.Terminal() || (state.Running? && s.worker.job in s.rolledBack))
    && (s.worker.Dying? ==> !s.db.jobs[s.worker.job].state.Queued?)
    && (!s.worker.Dead? && !s.faulted ==> s.deserted == {})
    && (s.worker.Dead? ==> s.deserted <= {s.worker.job} && (s.active.Some? ==> s.deserted == {}))
  }

  ghost predicate Finished(db: Db) {
    forall id :: id in db.jobs ==> db.jobs[id].state.Terminal()
  }

  ghost predicate ClosedMatches(s: State) {
    && (s.closed && !s.raised && !s.stalled ==> s.queue == [])
    && (s.closed && !s.raised ==> forall id :: Unfinished(s, id) ==> !Cancellable(s, id))
    && (s.faulted ==> s.worker.Ended?)
    && (s.worker.Ended? ==> s.faulted || s.closed)
    && (s.stalled ==> s.faulted)
    && (s.faulted && !s.stalled ==> s.queue == [] && Finished(s.db))
  }

  ghost predicate InOrder(created: seq<JobId>, taken: seq<JobId>, dropped: set<JobId>, queue: seq<JobId>) {
    && NoDuplicates(created) && Without(created, dropped) == taken + queue
    && (forall id :: id in dropped ==> id in created)
  }

  /** The job has been running at some time. */
  predicate Ran(db: Db, id: JobId) {
    Running in Trail(db.audit, id)
  }

  /** What was cut from the queue, or is still in it, has never run. */
  ghost predicate CutMatches(s: State) {
    && (forall id :: id in s.queue || id in s.dropped ==> !Ran(s.db, id))
    && (forall id :: id in s.dropped && id in s.db.jobs && s.db.jobs[id].state.Queued? ==> id in s.rolledBack)
  }

  ghost predicate Core(s: State) {
    && DbValid(s.db) && QueueMatches(s) && ActiveMatches(s)
    && InOrder(s.created, s.taken, s.dropped, s.queue)
    && (forall id :: id in s.created <==> id in s.db.jobs)
    && CutMatches(s)
  }

  ghost predicate Invariant(s: State) {
    Core(s) && ClosedMatches(s)
  }
}
