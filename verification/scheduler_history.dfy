/** What the store's rows say about how each job ended, over every run of the scheduler. */
module SchedulerHistory {
  import opened Basics
  import opened JobStore
  import opened Scheduler
  import opened SchedulerSafety

  // ----- rows and their audit events -----

  function FirstEvent(audit: seq<AuditEvent>, id: JobId): Option<AuditEvent> {
    if audit == [] then None
    else
      var earlier := FirstEvent(audit[..|audit| - 1], id);
      if earlier.Some? || audit[|audit| - 1].job != id then earlier else Some(audit[|audit| - 1])
  }

  function LastEvent(audit: seq<AuditEvent>, id: JobId): Option<AuditEvent> {
    if audit == [] then None
    else if audit[|audit| - 1].job == id then Some(audit[|audit| - 1])
    else LastEvent(audit[..|audit| - 1], id)
  }

  /** The row repeats its first event's time and its last event's state, time and code. */
  predicate Recorded(audit: seq<AuditEvent>, id: JobId, job: Job) {
    && FirstEvent(audit, id) == Some(AuditEvent(id, Queued, job.created, None))
    && LastEvent(audit, id) == Some(AuditEvent(id, job.state, job.updated, job.error))
  }

  // ----- what may end a job -----

  type Brought = set<(JobId, Evidence)>
  type Refusals = set<(JobId, string)>

  /** A job ends with evidence brought for it, by a cancellation, with the runner's refusal, or with the scheduler. */
  ghost predicate Explained(id: JobId, job: Job, brought: Brought, refusals: Refusals) {
    match job.state
    case Queued => job.error.None? && job.evidence.None?
    case Running => job.error.None? && job.evidence.None?
    case Succeeded =>
      job.error.None? && exists e :: (id, e) in brought && job.evidence == Some(e.hash)
                                     && e.requestHash == id.requestHash && e.size <= 4_194_304
    case Cancelled => job.error == Some("cancelled") && job.evidence.None?
    case Failed =>
      job.evidence.None? && job.error.Some?
      && (job.error.value == "scheduler_fault" || job.error.value == "interrupted" || (id, job.error.value) in refusals)
  }

  ghost predicate Accounts(db: Db, brought: Brought, refusals: Refusals) {
    && (forall id :: id in db.jobs ==>
          Recorded(db.audit, id, db.jobs[id]) && Explained(id, db.jobs[id], brought, refusals))
    && (forall id :: id !in db.jobs ==> FirstEvent(db.audit, id).None?)
  }

  lemma EventsMore(audit: seq<AuditEvent>, e: AuditEvent, id: JobId)
    ensures FirstEvent(audit + [e], id) ==
      (if FirstEvent(audit, id).Some? || e.job != id then FirstEvent(audit, id) else Some(e))
    ensures LastEvent(audit + [e], id) == if e.job == id then Some(e) else LastEvent(audit, id)
  {
    assert (audit + [e])[..|audit|] == audit;
  }

  /** A job moves on: its row and its new event agree, and its end, if it is one, is explained. */
  lemma MoveAccounts(
    db: Db, id: JobId, job: Job, code: Option<string>, brought: Brought, refusals: Refusals)
    requires Accounts(db, brought, refusals) && code == job.error && Explained(id, job, brought, refusals)
    requires if id in db.jobs then job.created == db.jobs[id].created
             else job.state.Queued? && job.created == job.updated && code.None?
    ensures Accounts(Moved(db, id, job, code), brought, refusals)
  {
    hide Explained;
    var after := Moved(db, id, job, code);
    forall x
      ensures x in after.jobs ==> Recorded(after.audit, x, after.jobs[x])
      ensures x !in after.jobs ==> FirstEvent(after.audit, x).None?
    {
      EventsMore(db.audit, AuditEvent(id, job.state, job.updated, code), x);
      if x in db.jobs {
        assert Recorded(db.audit, x, db.jobs[x]);
      } else {
        assert FirstEvent(db.audit, x).None?;
      }
    }
  }

  lemma SubmitAccounts(
    db: Db, request: nat, key: Key, at: int, brought: Brought, refusals: Refusals)
    requires DbValid(db) && Accounts(db, brought, refusals) && Submit(db, request, key, at).Success?
    ensures Accounts(Submit(db, request, key, at).value.0, brought, refusals)
  {
    hide Accounts;
    var r := Submit(db, request, key, at).value;
    if r.2 {
      SubmitKeeps(db, request, key, at);
      MoveAccounts(db, r.1, Job(Queued, at, at, None, None), None, brought, refusals);
    }
  }

  lemma TransitionAccounts(
    db: Db, id: JobId, state: JobState, code: Option<string>, at: int, brought: Brought, refusals: Refusals)
    requires Accounts(db, brought, refusals) && Transition(db, id, state, code, at).Success?
    requires !db.jobs[id].state.Terminal() ==>
      Explained(id, db.jobs[id].(state := state, updated := at, error := code), brought, refusals)
    ensures Accounts(Transition(db, id, state, code, at).value, brought, refusals)
  {
    hide Accounts, Explained;
    if !db.jobs[id].state.Terminal() {
      MoveAccounts(
        db, id, db.jobs[id].(state := state, updated := at, error := code), code, brought, refusals);
    }
  }

  lemma PublishAccounts(db: Db, id: JobId, evidence: Evidence, at: int, brought: Brought, refusals: Refusals)
    requires Accounts(db, brought, refusals) && (id, evidence) in brought
    requires Publish(db, id, evidence, at).Success?
    ensures Accounts(Publish(db, id, evidence, at).value, brought, refusals)
  {
    var job := db.jobs[id].(state := Succeeded, updated := at, evidence := Some(evidence.hash));
    assert Explained(id, db.jobs[id], brought, refusals);
    assert Explained(id, job, brought, refusals);
    hide Accounts, Explained;
    MoveAccounts(db, id, job, None, brought, refusals);
  }

  lemma {:induction false} FailEachAccounts(
    db: Db, ids: seq<JobId>, code: string, at: int, brought: Brought, refusals: Refusals)
    requires Accounts(db, brought, refusals) && code in {"scheduler_fault", "interrupted"}
    ensures Accounts(FailEach(db, ids, code, at), brought, refusals)
  {
    if ids != [] {
      var prior := FailEach(db, ids[..|ids| - 1], code, at);
      FailEachAccounts(db, ids[..|ids| - 1], code, at, brought, refusals);
      var id := ids[|ids| - 1];
      if id in prior.jobs && !prior.jobs[id].state.Terminal() {
        var job := prior.jobs[id].(state := Failed, updated := at, error := Some(code));
        assert Explained(id, prior.jobs[id], brought, refusals);
        MoveAccounts(prior, id, job, Some(code), brought, refusals);
      }
    }
  }

  lemma CancelAccounts(s: State, id: JobId, at: int, brought: Brought, refusals: Refusals)
    requires Cancellable(s, id) && Accounts(s.db, brought, refusals)
    ensures Accounts(CancelOne(s, id, at).db, brought, refusals)
  {
    if !s.db.jobs[id].state.Terminal() {
      assert Explained(id, s.db.jobs[id], brought, refusals);
      TransitionAccounts(s.db, id, Cancelled, Some("cancelled"), at, brought, refusals);
    }
  }

  lemma {:induction false} CancelEachAccounts(
    s: State, ids: seq<JobId>, at: int, brought: Brought, refusals: Refusals)
    requires Accounts(s.db, brought, refusals)
    ensures Accounts(CancelEach(s, ids, at).db, brought, refusals)
  {
    hide Accounts, CancelOne, Cancellable;
    if ids != [] {
      var prior := CancelEach(s, ids[..|ids| - 1], at);
      CancelEachAccounts(s, ids[..|ids| - 1], at, brought, refusals);
      if Cancellable(prior, ids[|ids| - 1]) {
        CancelAccounts(prior, ids[|ids| - 1], at, brought, refusals);
      }
    }
  }

  // ----- whole runs -----

  /** The evidence, and the refusals, that the runner has come back with, each for the job it was running. */
  ghost function EvidenceOf(s: State, a: Action): Brought
    requires Enabled(s, a)
  {
    if a.RunReturns? then {(s.worker.job, a.evidence)} else {}
  }

  ghost function RefusalOf(s: State, a: Action): Refusals
    requires Enabled(s, a)
  {
    if a.RunRefuses? then {(s.worker.job, a.code)} else {}
  }

  ghost function EvidenceIn(s: State, script: seq<Action>): Brought
    requires Legal(s, script)
    decreases |script|
  {
    if script == [] then {} else EvidenceOf(s, script[0]) + EvidenceIn(Apply(s, script[0]), script[1..])
  }

  ghost function RefusalsIn(s: State, script: seq<Action>): Refusals
    requires Legal(s, script)
    decreases |script|
  {
    if script == [] then {} else RefusalOf(s, script[0]) + RefusalsIn(Apply(s, script[0]), script[1..])
  }

  /** Every row is accounted for, and what the worker holds it was brought. */
  ghost predicate Story(s: State, brought: Brought, refusals: Refusals) {
    && Accounts(s.db, brought, refusals)
    && (s.worker.Returned? ==> (s.worker.job, s.worker.evidence) in brought)
    && (s.worker.Refused? ==> (s.worker.job, s.worker.code) in refusals)
  }

  lemma AccountsMore(db: Db, b: Brought, r: Refusals, brought: Brought, refusals: Refusals)
    requires Accounts(db, b, r) && b <= brought && r <= refusals
    ensures Accounts(db, brought, refusals)
  {
    forall id | id in db.jobs ensures Explained(id, db.jobs[id], brought, refusals) {
      assert Explained(id, db.jobs[id], b, r);
    }
  }

  lemma DeliverAccounts(s: State, at: int, brought: Brought, refusals: Refusals)
    requires Story(s, brought, refusals) && s.worker.Returned? && s.active.Some?
    ensures Story(Delivered(s, at), brought, refusals)
  {
    hide Accounts;
    if !s.active.value.cancelled && Publish(s.db, s.worker.job, s.worker.evidence, at).Success? {
      PublishAccounts(s.db, s.worker.job, s.worker.evidence, at, brought, refusals);
    }
  }

  lemma RefusalAccounts(s: State, at: int, brought: Brought, refusals: Refusals)
    requires Story(s, brought, refusals) && s.worker.Refused? && s.worker.job in s.db.jobs
    ensures Story(FailureRecorded(s, at), brought, refusals)
  {
    var id, code := s.worker.job, s.worker.code;
    assert Explained(id, s.db.jobs[id], brought, refusals);
    if !s.db.jobs[id].state.Terminal() {
      assert Explained(
          id, s.db.jobs[id].(state := Failed, updated := at, error := Some(code)), brought, refusals);
      hide Accounts, Explained;
      TransitionAccounts(s.db, id, Failed, Some(code), at, brought, refusals);
    }
  }

  lemma TakeAccounts(s: State, at: int, brought: Brought, refusals: Refusals)
    requires Invariant(s) && s.worker.Waiting? && s.queue != [] && Accounts(s.db, brought, refusals)
    requires Transition(s.db, s.queue[0], Running, None, at).Success?
    ensures Accounts(TakeNext(s, at).db, brought, refusals)
  {
    HeadMoves(s);
    var id := s.queue[0];
    assert Explained(id, s.db.jobs[id], brought, refusals);
    TransitionAccounts(s.db, id, Running, None, at, brought, refusals);
  }

  /** A close, finished or not, cancels what it cancels, and leaves the worker alone. */
  lemma CloseAccounts(s: State, ids: seq<JobId>, at: int, brought: Brought, refusals: Refusals)
    requires Invariant(s) && Story(s, brought, refusals) && forall id :: id in ids ==> id in Closing(s)
    ensures var t := CancelEach(s.(closed := true), ids, at);
      Story(t, brought, refusals) && SameWorker(s.(closed := true), t)
  {
    hide Accounts, Core, ClosedMatches, CancelEach;
    ClosingIsCancellable(s);
    CancelEachKeeps(s.(closed := true), ids, at);
    CancellingParts(s.(closed := true), CancelEach(s.(closed := true), ids, at), ids);
    CancelEachAccounts(s.(closed := true), ids, at, brought, refusals);
  }

  lemma StopAccounts(s: State, a: Action, brought: Brought, refusals: Refusals)
    requires Invariant(s) && Enabled(s, a) && Story(s, brought, refusals)
    requires a.CancelJob? || a.CancelRollsBack? || a.Close? || a.CloseRaises?
    ensures Story(Apply(s, a), brought, refusals)
  {
    hide Accounts, Core, ClosedMatches, Marked, CancelEach, CancelOne, Closing;
    match a
    case CancelJob(id, at) =>
      CancelAccounts(s, id, at, brought, refusals);
      CoreQueueIsUnique(s);
      CancelTouches(s, id, at);
    case CancelRollsBack(id) => MarkedFields(s, id);
    case Close(at) => CloseAccounts(s, Closing(s), at, brought, refusals);
    case CloseRaises(done, marked, at) =>
      var ids := Closing(s)[..done];
      assert forall x :: x in ids ==> x in Closing(s);
      CloseAccounts(s, ids, at, brought, refusals);
      MarkedFields(CancelEach(s.(closed := true), ids, at), Closing(s)[done]);
  }

  lemma WorkAccounts(s: State, a: Action, brought: Brought, refusals: Refusals)
    requires Invariant(s) && Enabled(s, a) && Story(s, brought, refusals)
    requires !a.CancelJob? && !a.CancelRollsBack? && !a.Close? && !a.CloseRaises?
    ensures Story(Apply(s, a), brought + EvidenceOf(s, a), refusals + RefusalOf(s, a))
  {
    hide Accounts, DbValid, QueueMatches, ActiveMatches, CutMatches, InOrder, ClosedMatches, Transition, Publish,
      FailEach, Submit;
    var b, r := brought + EvidenceOf(s, a), refusals + RefusalOf(s, a);
    AccountsMore(s.db, brought, refusals, b, r);
    match a
    case SubmitJob(request, key, at) => SubmitAccounts(s.db, request, key, at, b, r);
    case Take(at) => TakeAccounts(s, at, b, r);
    case Deliver(at) => DeliverAccounts(s, at, b, r);
    case RecordFailure(at) => RefusalAccounts(s, at, b, r);
    case Sweep(order, at) => FailEachAccounts(s.db, order, "scheduler_fault", at, b, r);
    case SweepStalls(swept, at) => FailEachAccounts(s.db, swept, "scheduler_fault", at, b, r);
    case Restart(order, at) => FailEachAccounts(s.db, order, "interrupted", at, b, r);
    case _ =>
  }

  lemma StepAccounts(s: State, a: Action, brought: Brought, refusals: Refusals)
    requires Invariant(s) && Enabled(s, a) && Story(s, brought, refusals)
    ensures Story(Apply(s, a), brought + EvidenceOf(s, a), refusals + RefusalOf(s, a))
  {
    hide Invariant, Story, Apply, Enabled;
    if a.CancelJob? || a.CancelRollsBack? || a.Close? || a.CloseRaises? {
      StopAccounts(s, a, brought, refusals);
      assert EvidenceOf(s, a) == {} && RefusalOf(s, a) == {};
      assert brought + {} == brought && refusals + {} == refusals;
    } else {
      WorkAccounts(s, a, brought, refusals);
    }
  }

  lemma {:induction false} RunAccounts(s: State, script: seq<Action>, brought: Brought, refusals: Refusals)
    requires Invariant(s) && Legal(s, script) && Story(s, brought, refusals)
    ensures Story(Run(s, script), brought + EvidenceIn(s, script), refusals + RefusalsIn(s, script))
    decreases |script|
  {
    hide Invariant, Story, Apply, Enabled, EvidenceOf, RefusalOf;
    if script == [] {
      assert brought + {} == brought && refusals + {} == refusals;
    } else {
      var next := Apply(s, script[0]);
      var b, r := brought + EvidenceOf(s, script[0]), refusals + RefusalOf(s, script[0]);
      StepAccounts(s, script[0], brought, refusals);
      StepKeeps(s, script[0]);
      RunAccounts(next, script[1..], b, r);
      assert b + EvidenceIn(next, script[1..]) == brought + EvidenceIn(s, script);
      assert r + RefusalsIn(next, script[1..]) == refusals + RefusalsIn(s, script);
    }
  }

  lemma NothingYet()
    ensures Story(Init(), {}, {}) && Invariant(Init())
  {
    Reachable([]);
  }

  /**
   * How every job ended. A succeeded job carries the digest of an evidence that the runner came back
   * with while running that very job, for that request; a cancelled one says so; a failed one names
   * the runner's own refusal, or a fault or an interruption of the scheduler. And its row repeats what
   * its audit trail says: created with the first event, and state, time and code of the last.
   */
  lemma EveryEndIsExplained(script: seq<Action>, id: JobId)
    requires Legal(Init(), script)
    ensures var s := Run(Init(), script);
      id in s.db.jobs ==>
        && Explained(id, s.db.jobs[id], EvidenceIn(Init(), script), RefusalsIn(Init(), script))
        && Recorded(s.db.audit, id, s.db.jobs[id])
  {
    hide Explained, Recorded, Legal, Run, EvidenceIn, RefusalsIn, Invariant;
    NothingYet();
    RunAccounts(Init(), script, {}, {});
    assert {} + EvidenceIn(Init(), script) == EvidenceIn(Init(), script);
    assert {} + RefusalsIn(Init(), script) == RefusalsIn(Init(), script);
  }

  // ----- what the worker's return does -----

  /** A worker that comes back publishes sound evidence unless its job was cancelled, and writes nothing else. */
  lemma DeliveryIsExact(script: seq<Action>, at: int)
    requires Legal(Init(), script) && Run(Init(), script).worker.Returned? && Run(Init(), script).active.Some?
    ensures var s := Run(Init(), script);
      var t, id, e := Apply(s, Deliver(at)), s.worker.job, s.worker.evidence;
      var sound := e.size <= 4_194_304 && e.requestHash == id.requestHash;
      && id in s.db.jobs
      && (s.active.value.cancelled ==> t == s.(worker := Clearing(id)))
      && (!s.active.value.cancelled && !sound ==> t == s.(worker := Dying(id)))
      && (!s.active.value.cancelled && sound ==>
            && t == s.(worker := Clearing(id), db := t.db)
            && t.db.jobs == s.db.jobs[id := Job(Succeeded, s.db.jobs[id].created, at, None, Some(e.hash))]
            && t.db.audit == s.db.audit + [AuditEvent(id, Succeeded, at, None)])
  {
    hide Legal, Run, EvidenceIn, RefusalsIn, Invariant, Recorded;
    var s := Run(Init(), script);
    Reachable(script);
    WorkerHolds(s);
    EveryEndIsExplained(script, s.worker.job);
  }

  lemma WorkerHolds(s: State)
    requires Invariant(s) && s.worker.Returned?
    ensures s.active.Some? && s.active.value.job == s.worker.job && s.worker.job in s.db.jobs
    ensures !s.active.value.cancelled ==> s.db.jobs[s.worker.job].state.Running?
  {
    WorkerIsActive(s);
  }

  /** A refusal becomes the job's failure, under the runner's own code, unless the job has ended already. */
  lemma RefusalIsExact(script: seq<Action>, at: int)
    requires Legal(Init(), script) && Run(Init(), script).worker.Refused?
    requires Run(Init(), script).worker.job in Run(Init(), script).db.jobs
    ensures var s := Run(Init(), script);
      var t, id, code := Apply(s, RecordFailure(at)), s.worker.job, s.worker.code;
      && (s.db.jobs[id].state.Terminal() ==> t == s.(worker := Clearing(id)))
      && (!s.db.jobs[id].state.Terminal() ==>
            && t == s.(worker := Clearing(id), db := t.db)
            && t.db.jobs == s.db.jobs[id := Job(Failed, s.db.jobs[id].created, at, Some(code), None)]
            && t.db.audit == s.db.audit + [AuditEvent(id, Failed, at, Some(code))])
  {
    hide Legal, Run, EvidenceIn, RefusalsIn, Recorded;
    EveryEndIsExplained(script, Run(Init(), script).worker.job);
  }

  /** A cancellation that goes through cancels exactly its own row, under its own code. */
  lemma CancellationIsExact(script: seq<Action>, id: JobId, at: int)
    requires Legal(Init(), script) && Unfinished(Run(Init(), script), id) && Cancellable(Run(Init(), script), id)
    ensures var s := Run(Init(), script);
      var t := Apply(s, CancelJob(id, at));
      && t.db.jobs == s.db.jobs[id := Job(Cancelled, s.db.jobs[id].created, at, Some("cancelled"), None)]
      && t.db.audit == s.db.audit + [AuditEvent(id, Cancelled, at, Some("cancelled"))]
      && id !in t.queue && (IsActive(s, id) ==> t.active == Some(Active(id, true)))
  {
    EveryEndIsExplained(script, id);
    Reachable(script);
    var s := Run(Init(), script);
    QueueIsUnique(s);
    RemoveMembers(s.queue, id);
  }

  /** Only the unfinished jobs end, all of them, under one code. */
  ghost predicate AllFailed(before: Db, after: Db, code: string, at: int) {
    && after.jobs.Keys == before.jobs.Keys
    && forall id :: id in before.jobs ==>
         after.jobs[id] == if before.jobs[id].state.Terminal() then before.jobs[id]
                           else Job(Failed, before.jobs[id].created, at, Some(code), None)
  }

  /** What was unfinished when the scheduler failed, or when it starts again, ends by that name and not otherwise. */
  lemma RecoveryIsExact(script: seq<Action>, order: seq<JobId>, at: int)
    requires Legal(Init(), script) && Lists(Run(Init(), script).db, order)
    ensures var s := Run(Init(), script);
      && AllFailed(s.db, Swept(s, order, at).db, "scheduler_fault", at)
      && AllFailed(s.db, Apply(s, Restart(order, at)).db, "interrupted", at)
  {
    hide Legal, Run, EvidenceIn, RefusalsIn, Recorded, FailEach, DbValid, Core, ClosedMatches;
    var s := Run(Init(), script);
    Reachable(script);
    StoreIsValid(s);
    FailEachKeeps(s.db, order, "scheduler_fault", at);
    FailEachKeeps(s.db, order, "interrupted", at);
    forall id | id in s.db.jobs && !s.db.jobs[id].state.Terminal() ensures s.db.jobs[id].evidence.None? {
      EveryEndIsExplained(script, id);
    }
    forall id | id in s.db.jobs && s.db.jobs[id].state.Terminal()
      ensures FailEach(s.db, order, "scheduler_fault", at).jobs[id] == s.db.jobs[id]
      ensures FailEach(s.db, order, "interrupted", at).jobs[id] == s.db.jobs[id]
    {
      assert FrozenAt(s.db, FailEach(s.db, order, "scheduler_fault", at), id);
      assert FrozenAt(s.db, FailEach(s.db, order, "interrupted", at), id);
    }
  }
}
