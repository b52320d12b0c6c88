/** The store and the manager as objects, each method proved against the operation it performs. */
module Managers {
  import opened Basics
  import opened JobStore
  import opened Scheduler
  import opened SchedulerSafety

  /** The order of a page: newest first, and by the text of the id among jobs of one instant. */
  predicate Precedes(jobs: map<JobId, Job>, rank: JobId -> nat, a: JobId, b: JobId) {
    && a in jobs && b in jobs
    && (jobs[a].created > jobs[b].created || (jobs[a].created == jobs[b].created && rank(a) < rank(b)))
  }

  ghost predicate Paged(jobs: map<JobId, Job>, rank: JobId -> nat, page: seq<JobId>) {
    forall i, j :: 0 <= i < j < |page| ==> !Precedes(jobs, rank, page[j], page[i])
  }

  lemma {:induction false} SomeoneIsFirst(jobs: map<JobId, Job>, rank: JobId -> nat, ids: set<JobId>)
    returns (first: JobId)
    requires ids != {} && ids <= jobs.Keys
    ensures first in ids && forall id :: id in ids ==> !Precedes(jobs, rank, id, first)
    decreases |ids|
  {
    first :| first in ids;
    if ids != {first} {
      var rest := ids - {first};
      assert rest != {} && |rest| < |ids|;
      var other := SomeoneIsFirst(jobs, rank, rest);
      assert forall id :: id in ids ==> id == first || id in rest;
      if Precedes(jobs, rank, other, first) {
        first := other;
      } else {
        assert forall id :: id in rest ==> !Precedes(jobs, rank, id, other);
      }
    }
  }

  lemma PagedMore(jobs: map<JobId, Job>, rank: JobId -> nat, page: seq<JobId>, id: JobId)
    requires NoDuplicates(page) && Paged(jobs, rank, page) && id !in page
    requires forall x :: x in page ==> !Precedes(jobs, rank, id, x)
    ensures NoDuplicates(page + [id]) && Paged(jobs, rank, page + [id])
  {
    hide Precedes;
  }

  lemma FailNext(db: Db, ids: seq<JobId>, id: JobId, code: string, at: int)
    requires DbValid(db) && id in db.jobs
    ensures var prior := FailEach(db, ids, code, at);
      && id in prior.jobs && DbValid(FailEach(db, ids + [id], code, at))
      && (prior.jobs[id].state.Terminal() ==> FailEach(db, ids + [id], code, at) == prior)
      && (!prior.jobs[id].state.Terminal() ==>
            JobStore.Transition(prior, id, Failed, Some(code), at) == Success(FailEach(db, ids + [id], code, at)))
  {
    hide DbValid;
    assert (ids + [id])[..|ids|] == ids;
    FailEachKeeps(db, ids, code, at);
    FailEachKeeps(db, ids + [id], code, at);
  }

  lemma FailNone(db: Db, code: string, at: int)
    ensures FailEach(db, [], code, at) == db
  {
  }

  /**
   * The database of one service instance; now is the wall clock, read by every write. commits says
   * whether a write transaction goes through: if not, it rolls back and the operation raises StoreIo.
   */
  class Store {
    var jobs: map<JobId, Job>
    var audit: seq<AuditEvent>
    var now: int
    const rank: JobId -> nat

    ghost function View(): Db
      reads this
    {
      Db(jobs, audit)
    }

    constructor (rank: JobId -> nat)
      ensures View() == Db(map[], []) && this.rank == rank
    {
      jobs, audit, now, this.rank := map[], [], 0, rank;
    }

    method Lookup(request: nat, key: Key) returns (r: Result<Option<JobId>, StoreError>)
      requires DbValid(View())
      ensures r == JobStore.Lookup(View(), request, key)
    {
      if !key.wellFormed {
        return Failure(IdempotencyKey);
      }
      var matches := set id | id in jobs && id.keyHash == key.hash;
      assert forall id :: id in jobs && id.keyHash == key.hash ==> id in matches;
      if matches == {} {
        return Success(None);
      }
      var id :| id in matches;
      assert id == Holder(View(), key);
      r := if id.requestHash != request then Failure(IdempotencyConflict) else Success(Some(id));
    }

    method Submit(request: nat, key: Key, commits: bool) returns (r: Result<(JobId, bool), StoreError>)
      requires DbValid(View())
      modifies this`jobs, this`audit
      ensures DbValid(View())
      ensures match JobStore.Submit(old(View()), request, key, now)
        case Success(s) =>
          if commits then r == Success((s.1, s.2)) && View() == s.0 else r == Failure(StoreIo) && View() == old(View())
        case Failure(e) => r == Failure(e) && View() == old(View())
    {
      SubmitKeeps(View(), request, key, now);
      var existing :- Lookup(request, key);
      if existing.Some? {
        return if commits then Success((existing.value, false)) else Failure(StoreIo);
      }
      var pending := set id | id in jobs && !jobs[id].state.Terminal();
      if |jobs| >= MAX_JOBS || |pending| >= MAX_PENDING {
        return Failure(QueueCapacity);
      }
      if !commits {
        return Failure(StoreIo);
      }
      var id := JobId(key.hash, request);
      jobs := jobs[id := Job(Queued, now, now, None, None)];
      audit := audit + [AuditEvent(id, Queued, now, None)];
      r := Success((id, true));
    }

    method Transition(id: JobId, state: JobState, code: Option<string>, commits: bool)
      returns (r: Result<Job, StoreError>)
      modifies this`jobs, this`audit
      ensures match JobStore.Transition(old(View()), id, state, code, now)
        case Success(db) =>
          if commits then View() == db && id in jobs && r == Success(jobs[id])
          else View() == old(View()) && r == Failure(StoreIo)
        case Failure(e) => r == Failure(e) && View() == old(View())
    {
      if id !in jobs {
        return Failure(JobNotFound);
      }
      var current := jobs[id];
      if current.state.Terminal() {
        if current.state != state {
          return Failure(TerminalJob);
        }
        return if commits then Success(current) else Failure(StoreIo);
      }
      var allowed := {Cancelled, Failed} + (if current.state == Queued then {Running} else {});
      if state !in allowed {
        return Failure(InvalidTransition);
      }
      if !commits {
        return Failure(StoreIo);
      }
      jobs := jobs[id := current.(state := state, updated := now, error := code)];
      audit := audit + [AuditEvent(id, state, now, code)];
      r := Success(jobs[id]);
    }

    method Publish(id: JobId, evidence: Evidence, commits: bool) returns (r: Result<Job, StoreError>)
      modifies this`jobs, this`audit
      ensures match JobStore.Publish(old(View()), id, evidence, now)
        case Success(db) =>
          if commits then View() == db && id in jobs && r == Success(jobs[id])
          else View() == old(View()) && r == Failure(StoreIo)
        case Failure(e) => r == Failure(e) && View() == old(View())
    {
      if evidence.size > MAX_EVIDENCE_BYTES {
        return Failure(EvidenceLimit);
      }
      if id !in jobs {
        return Failure(JobNotFound);
      }
      if jobs[id].state != Running || id.requestHash != evidence.requestHash {
        return Failure(PublicationConflict);
      }
      if !commits {
        return Failure(StoreIo);
      }
      jobs := jobs[id := jobs[id].(state := Succeeded, updated := now, evidence := Some(evidence.hash))];
      audit := audit + [AuditEvent(id, Succeeded, now, None)];
      r := Success(jobs[id]);
    }

    /** At most MAX_JOBS rows in order, none of them twice: complete, because no reachable store holds more. */
    method List() returns (page: seq<JobId>)
      requires DbValid(View())
      ensures forall id :: id in page <==> id in jobs
      ensures |page| <= MAX_JOBS && NoDuplicates(page) && Paged(jobs, rank, page)
      ensures forall i, j :: 0 <= i < j < |page| ==>
        && page[i] in jobs && page[j] in jobs && jobs[page[i]].created >= jobs[page[j]].created
        && (jobs[page[i]].created == jobs[page[j]].created ==> rank(page[i]) <= rank(page[j]))
    {
      page := [];
      var rest := jobs.Keys;
      assert Paged(jobs, rank, []);
      while rest != {} && |page| < MAX_JOBS
        invariant rest <= jobs.Keys && |page| + |rest| == |jobs|
        invariant forall id :: id in page <==> id in jobs.Keys - rest
        invariant NoDuplicates(page) && Paged(jobs, rank, page)
        invariant forall x, id :: x in page && id in rest ==> !Precedes(jobs, rank, id, x)
        decreases |rest|
      {
        ghost var first := SomeoneIsFirst(jobs, rank, rest);
        var id :| id in rest && forall x :: x in rest ==> !Precedes(jobs, rank, x, id);
        PagedMore(jobs, rank, page, id);
        page, rest := page + [id], rest - {id};
      }
    }

    /**
     * Fails every unfinished job of the page, in order: interrupted work is never trained again. The
     * loop ends early at the transaction numbered lostAt, if its job is still unfinished.
     */
    method FailUnfinished(code: string, lostAt: nat)
      returns (r: Result<(), StoreError>, ghost order: seq<JobId>, ghost done: nat)
      requires DbValid(View())
      modifies this`jobs, this`audit
      ensures Lists(old(View()), order) && done <= |order|
      ensures View() == FailEach(old(View()), order[..done], code, now) && DbValid(View())
      ensures if r.Success? then done == |order| else r.error == StoreIo && done == lostAt < |order|
      ensures lostAt >= |order| ==> r.Success?
    {
      hide Paged, Precedes, NoDuplicates, DbValid, JobStore.Transition, FailEach;
      var page := List();
      FailNone(old(View()), code, now);
      order, done := page, 0;
      for i := 0 to |page|
        invariant done == i
        invariant View() == FailEach(old(View()), page[..i], code, now) && DbValid(View())
      {
        assert page[..i + 1] == page[..i] + [page[i]];
        FailNext(old(View()), page[..i], page[i], code, now);
        if !jobs[page[i]].state.Terminal() {
          var outcome := Transition(page[i], Failed, Some(code), i != lostAt);
          if outcome.Failure? {
            return Failure(outcome.error), page, i;
          }
        }
        done := i + 1;
      }
      assert page[..|page|] == page;
      r := Success(());
    }
  }

  datatype ManagerError = SchedulerUnavailable | StoreFault(error: StoreError) | NotQueued

  /** The fields behind the condition, and the history and thread position they stand for. */
  class Manager {
    const store: Store
    var queue: seq<JobId>
    var active: Option<Active>
    var closed: bool
    var faulted: bool
    ghost var worker: Worker
    ghost var created: seq<JobId>
    ghost var taken: seq<JobId>
    ghost var dropped: set<JobId>
    ghost var rolledBack: set<JobId>
    ghost var deserted: set<JobId>
    ghost var raised: bool
    ghost var stalled: bool

    ghost function View(): State
      reads this, store
    {
      State(store.View(), queue, active, closed, faulted, worker, created, taken, dropped,
        rolledBack, deserted, raised, stalled)
    }

    constructor (store: Store)
      requires store.View() == Db(map[], [])
      ensures this.store == store && View() == Init()
    {
      this.store, queue, active, closed, faulted := store, [], None, false, false;
      worker, created, taken, dropped := Waiting, [], [], {};
      rolledBack, deserted, raised, stalled := {}, {}, false, false;
    }

    /** The first section of submit: a repeated request is answered with its job, without preflight. */
    method Find(request: nat, key: Key) returns (r: Result<Option<JobId>, ManagerError>)
      requires Invariant(View())
      ensures r.Success? <==> !closed && !faulted && JobStore.Lookup(store.View(), request, key).Success?
      ensures r.Success? && r.value.Some? ==>
        JobStore.Submit(store.View(), request, key, store.now) == Success((store.View(), r.value.value, false))
      ensures r.Success? && r.value.None? ==> forall id :: id in store.jobs ==> id.keyHash != key.hash
    {
      hide QueueMatches, ActiveMatches, CutMatches, InOrder, ClosedMatches;
      if closed || faulted {
        return Failure(SchedulerUnavailable);
      }
      var found := store.Lookup(request, key);
      r := if found.Success? then Success(found.value) else Failure(StoreFault(found.error));
    }

    /** The second section of submit, once the request has been validated. */
    method Submit(request: nat, key: Key, commits: bool) returns (r: Result<JobId, ManagerError>)
      requires Invariant(View())
      modifies this, store`jobs, store`audit
      ensures Invariant(View())
      ensures var a := SubmitJob(request, key, store.now);
        && r.Success? == (old(Enabled(View(), a)) && commits)
        && (r.Success? ==> View() == old(Apply(View(), a)) && r.value == JobId(key.hash, request))
        && (r.Failure? ==> View() == old(View()))
    {
      hide QueueMatches, ActiveMatches, CutMatches, InOrder, ClosedMatches;
      if closed || faulted {
        return Failure(SchedulerUnavailable);
      }
      ghost var a := SubmitJob(request, key, store.now);
      SubmitKeeps(store.View(), request, key, store.now);
      if Enabled(View(), a) {
        SubmitStep(View(), request, key, store.now);
      }
      var outcome := store.Submit(request, key, commits);
      if outcome.Failure? {
        return Failure(StoreFault(outcome.error));
      }
      if outcome.value.1 {
        queue, created := queue + [outcome.value.0], created + [outcome.value.0];
      }
      r := Success(outcome.value.0);
    }

    /**
     * Marks the job and then cancels its row. If that transaction rolls back, the mark stays: the
     * job has left the queue, or its worker has been told, while its row is as it was.
     */
    method Cancel(id: JobId, readable: bool, commits: bool) returns (r: Result<Job, ManagerError>)
      requires Core(View())
      modifies this, store`jobs, store`audit
      ensures Core(View())
      ensures r.Success? == (readable && old(Cancellable(View(), id)) && (commits || !old(Unfinished(View(), id))))
      ensures r.Success? ==>
        View() == old(CancelOne(View(), id, store.now)) && id in store.jobs && r.value == store.jobs[id]
      ensures r.Failure? ==>
        View() == if readable && old(Cancellable(View(), id)) then old(RollBack(View(), id)) else old(View())
    {
      hide Core, Remove, Frozen, CancelOne, JobStore.Transition;
      if !readable {
        return Failure(StoreFault(StoreIo));
      }
      if id !in store.jobs {
        return Failure(StoreFault(JobNotFound));
      }
      ghost var before := View();
      if store.jobs[id].state.Terminal() {
        CancelFinished(before, id, store.now);
        return Success(store.jobs[id]);
      }
      if Cancellable(before, id) {
        CancelWrites(before, id, store.now);
      }
      if active.Some? && active.value.job == id {
        active := Some(active.value.(cancelled := true));
      } else {
        if id !in queue {
          return Failure(NotQueued);
        }
        queue, dropped := Remove(queue, id), dropped + {id};
      }
      var outcome := store.Transition(id, Cancelled, Some("cancelled"), commits);
      if outcome.Failure? {
        rolledBack := rolledBack + {id};
        return Failure(StoreFault(outcome.error));
      }
      r := Success(outcome.value);
    }

    /** Cancels the i-th job on the way to closing; the cancellation numbered failsAt may raise. */
    method CancelNext(id: JobId, i: nat, failsAt: nat, marks: bool, ghost before: State)
      returns (r: Result<Job, ManagerError>)
      requires i < |Closing(before)| && id == Closing(before)[i] && Cancellable(before.(closed := true), id)
      requires ShuttingDown(before, View(), i, store.now)
      modifies this, store`jobs, store`audit
      ensures r.Success? <==> !(i == failsAt && Raises(before, i, marks, store.now))
      ensures r.Success? ==> ShuttingDown(before, View(), i + 1, store.now)
      ensures r.Failure? ==> View().(raised := true) == ShutPartly(before, i, marks, store.now)
    {
      hide Core, Cancellable, CancelOne, RollBack, Unfinished, ShuttingDown, Cancelling, ShutSoFar;
      NextShut(before, View(), i, store.now);
      r := Cancel(id, i != failsAt || marks, i != failsAt);
    }

    /**
     * The locked section of close: everything queued, then whatever is active. The cancellation
     * numbered failsAt may raise, before or after it has marked its job; close then stops there.
     */
    method Close(failsAt: nat, marks: bool) returns (r: Result<(), ManagerError>)
      requires Invariant(View())
      modifies this, store`jobs, store`audit
      ensures Invariant(View()) && closed
      ensures old(closed) ==> r.Success? && View() == old(View())
      ensures !old(closed) ==>
        && (r.Failure? <==>
              failsAt < |old(Closing(View()))| && old(Raises(View(), failsAt, marks, store.now)))
        && View() == if r.Failure? then old(ShutPartly(View(), failsAt, marks, store.now))
                     else old(Shut(View(), store.now))
    {
      hide Invariant, Cancellable, ShuttingDown, Raises, ShutPartly, Shut;
      if closed {
        return Success(());
      }
      ghost var before := View();
      var ids := queue + (if active.Some? then [active.value.job] else []);
      CloseBegins(before, store.now);
      closed := true;
      for i := 0 to |ids|
        invariant ShuttingDown(before, View(), i, store.now)
        invariant failsAt < i ==> !Raises(before, failsAt, marks, store.now)
      {
        var outcome := CancelNext(ids[i], i, failsAt, marks, before);
        if outcome.Failure? {
          raised := true;
          CloseRaisesKeeps(before, failsAt, marks, store.now);
          ShutIsClosed(before, failsAt, marks, store.now);
          return Failure(outcome.error);
        }
      }
      CloseEnds(before, View(), store.now);
      r := Success(());
    }

    // ----- the worker's sections, in the order its loop reaches them -----

    /** The head of the queue is popped and made active; if its row does not start, the worker dies. */
    method Take(commits: bool) returns (id: JobId)
      requires Invariant(View()) && worker.Waiting? && !closed && queue != []
      modifies this, store`jobs, store`audit
      ensures old(Transition(store.View(), queue[0], Running, None, store.now)).Success?
      ensures View() == if commits then old(TakeNext(View(), store.now)) else old(Apply(View(), TakeFails))
      ensures Invariant(View()) && id == old(queue[0]) && (commits <==> store.jobs[id].state.Running?)
    {
      hide Invariant, Frozen, JobStore.Transition;
      HeadIsQueued(View(), store.now);
      TakeStep(View(), store.now);
      TakeFailsStep(View());
      id := queue[0];
      queue, active, taken := queue[1..], Some(Active(id, false)), taken + [id];
      var r := store.Transition(id, Running, None, commits);
      worker := if r.Success? then Working(id) else Dead(id);
    }

    /** The runner returned evidence: publish it unless the job's event was set meanwhile. */
    method Deliver(id: JobId, evidence: Evidence, commits: bool) returns (died: bool)
      requires Invariant(View()) && worker == Returned(id, evidence)
      modifies this, store`jobs, store`audit
      ensures old(active).Some?
      ensures View() == if commits || old(active).value.cancelled then old(Delivered(View(), store.now))
                        else old(Apply(View(), Crash))
      ensures Invariant(View()) && died == worker.Dying?
    {
      hide DbValid, QueueMatches, ActiveMatches, CutMatches, InOrder, ClosedMatches, Publish;
      DeliverStep(View(), store.now);
      WorkerStep(View(), Crash);
      died := false;
      if !active.value.cancelled {
        var r := store.Publish(id, evidence, commits);
        died := r.Failure?;
      }
      worker := if died then Dying(id) else Clearing(id);
    }

    /** The runner refused: record why, unless the job is already finished. */
    method RecordFailure(id: JobId, code: string, commits: bool) returns (died: bool)
      requires Invariant(View()) && worker == Refused(id, code)
      modifies this, store`jobs, store`audit
      ensures id in old(store.jobs)
      ensures View() == if commits || !old(Unfinished(View(), id)) then old(FailureRecorded(View(), store.now))
                        else old(Apply(View(), Crash))
      ensures Invariant(View()) && died == worker.Dying?
    {
      hide DbValid, QueueMatches, ActiveMatches, CutMatches, InOrder, ClosedMatches;
      RecordFailureStep(View(), store.now);
      WorkerStep(View(), Crash);
      died := false;
      if !store.jobs[id].state.Terminal() {
        var r := store.Transition(id, Failed, Some(code), commits);
        died := r.Failure?;
      }
      worker := if died then Dying(id) else Clearing(id);
    }

    /**
     * The thread has died: stop admission and fail everything unfinished. If the store is lost on
     * the way, the queue is left standing for the next restart.
     */
    method Sweep(lostAt: nat) returns (r: Result<(), StoreError>, ghost order: seq<JobId>, ghost done: nat)
      requires Invariant(View()) && worker.Dead?
      modifies this, store`jobs, store`audit
      ensures Lists(old(store.View()), order) && done <= |order| && (lostAt >= |order| ==> r.Success?)
      ensures View() == if r.Success? then old(Swept(View(), order, store.now))
                        else old(SweptPartly(View(), order[..done], store.now))
      ensures Invariant(View())
    {
      hide Invariant, DbValid, FailEach, Lists;
      StoreIsValid(View());
      ghost var before := View();
      FaultNoticed();
      ghost var noticed := View();
      r, order, done := store.FailUnfinished("scheduler_fault", lostAt);
      assert View() == noticed.(db := FailEach(before.db, order[..done], "scheduler_fault", store.now));
      WorkerEnds(r.Success?);
      if r.Failure? {
        StallStep(before, order[..done], store.now);
      } else {
        assert order[..done] == order;
        SweepStep(before, order, store.now);
      }
    }

    method FaultNoticed()
      modifies this`faulted, this`active
      ensures View() == old(View()).(
        faulted := true,
        active := if old(active).Some? then Some(old(active).value.(cancelled := true)) else None)
    {
      faulted := true;
      if active.Some? {
        active := Some(active.value.(cancelled := true));
      }
    }

    /** The queue is cleared only after a sweep that went through. */
    method WorkerEnds(swept: bool)
      modifies this`queue, this`worker, this`dropped, this`stalled
      ensures View() == old(View()).(
        worker := Ended, stalled := old(stalled) || !swept,
        queue := if swept then [] else old(queue),
        dropped := if swept then old(dropped) + (set id | id in old(queue)) else old(dropped))
    {
      worker := Ended;
      if swept {
        dropped, queue := dropped + (set id | id in queue), [];
      } else {
        stalled := true;
      }
    }
  }

  lemma CancelWrites(s: State, id: JobId, at: int)
    requires Core(s) && Cancellable(s, id) && Unfinished(s, id)
    ensures var r := Transition(s.db, id, Cancelled, Some("cancelled"), at);
      r.Success? && CancelOne(s, id, at) == Marked(s, id).(db := r.value)
    ensures Core(CancelOne(s, id, at)) && Core(RollBack(s, id))
  {
    hide Core, Marked, Frozen;
    CancelKeeps(s, id, at);
    RollBackKeeps(s, id);
  }

  lemma HeadIsQueued(s: State, at: int)
    requires Invariant(s) && s.worker.Waiting? && !s.closed && s.queue != []
    ensures Transition(s.db, s.queue[0], Running, None, at).Success?
    ensures s.queue[0] in s.db.jobs && !s.db.jobs[s.queue[0]].state.Running?
    ensures var db := Transition(s.db, s.queue[0], Running, None, at).value;
      s.queue[0] in db.jobs && db.jobs[s.queue[0]].state.Running?
  {
    HeadMoves(s);
    HeadCanStart(s.db, s.queue[0], at);
  }

  /** A close under way: the first i jobs are cancelled. */
  ghost predicate ShuttingDown(before: State, s: State, i: nat, at: int) {
    && i <= |Closing(before)| && s == ShutSoFar(before, i, at)
    && Cancelling(before.(closed := true), s, Closing(before)[..i])
  }

  lemma CloseBegins(s: State, at: int)
    requires Invariant(s)
    ensures ShuttingDown(s, s.(closed := true), 0, at)
    ensures forall id :: id in Closing(s) ==> Cancellable(s.(closed := true), id)
  {
    ClosingIsCancellable(s);
    SelfFrozen(s.db);
    assert Closing(s)[..0] == [];
  }

  lemma NextShut(before: State, s: State, i: nat, at: int)
    requires ShuttingDown(before, s, i, at) && i < |Closing(before)|
    requires Cancellable(before.(closed := true), Closing(before)[i])
    ensures Core(s) && Cancellable(s, Closing(before)[i]) && s == ShutSoFar(before, i, at)
    ensures ShuttingDown(before, CancelOne(s, Closing(before)[i], at), i + 1, at)
  {
    hide Core, CancelOne, Cancellable, Cancelling;
    var ids, id := Closing(before), Closing(before)[i];
    CancellingCore(before.(closed := true), s, ids[..i]);
    CancellingStep(before.(closed := true), s, ids[..i], id, at);
    assert ids[..i + 1] == ids[..i] + [id] && ids[..i + 1][..i] == ids[..i];
  }

  lemma CancellingCore(s: State, t: State, ids: seq<JobId>)
    requires Cancelling(s, t, ids)
    ensures Core(t)
  {
  }

  lemma CloseEnds(before: State, s: State, at: int)
    requires Invariant(before) && !before.closed && ShuttingDown(before, s, |Closing(before)|, at)
    ensures s == Shut(before, at) && Invariant(s) && s.closed
  {
    hide Core, ClosedMatches, CancelEach, Closing;
    assert Closing(before)[..|Closing(before)|] == Closing(before);
    CloseKeeps(before, at);
  }

  lemma ShutIsClosed(before: State, done: nat, marked: bool, at: int)
    requires Invariant(before) && done < |Closing(before)|
    ensures ShutPartly(before, done, marked, at).closed
  {
    hide Core, ClosedMatches, Cancelling, Cancellable, CancelEach, Marked;
    ClosingIsCancellable(before);
    var prior := ShutSoFar(before, done, at);
    CancelEachKeeps(before.(closed := true), Closing(before)[..done], at);
    CancellingParts(before.(closed := true), prior, Closing(before)[..done]);
    MarkedFields(prior, Closing(before)[done]);
  }
}
