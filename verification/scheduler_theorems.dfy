/** Scheduling guarantees over every run, including the transactions that roll back. */
module SchedulerTheorems {
  import opened Basics
  import opened JobStore
  import opened Scheduler
  import opened SchedulerSafety

  /**
   * The queue is duplicate-free and holds exactly the queued jobs, except those whose cancellation
   * rolled back and one that the worker died on while starting it.
   */
  lemma QueueIsCoherent(script: seq<Action>, id: JobId)
    requires Legal(Init(), script)
    ensures var s := Run(Init(), script);
      && NoDuplicates(s.queue)
      && (!s.stalled ==>
            (id in s.queue <==>
               id in s.db.jobs && s.db.jobs[id].state.Queued? && id !in s.rolledBack && !IsActive(s, id)))
      && (IsActive(s, id) && id in s.db.jobs && s.db.jobs[id].state.Queued? ==> s.worker.Dead? || s.worker.Ended?)
  {
    Reachable(script);
  }

  /** A running job is the active one, unless its cancellation rolled back or its worker died. */
  lemma OnlyTheActiveJobRuns(script: seq<Action>, id: JobId)
    requires Legal(Init(), script)
    ensures var s := Run(Init(), script);
      id in s.db.jobs && s.db.jobs[id].state.Running? ==>
        IsActive(s, id) || id in s.rolledBack || id in s.deserted
  {
    Reachable(script);
  }

  /**
   * Cancelling an unfinished job finds it, if and only if it is the active one, or neither has a
   * cancellation of it rolled back nor has the worker died and let go of it.
   */
  lemma CancelFindsItsJob(script: seq<Action>, id: JobId)
    requires Legal(Init(), script)
    requires Unfinished(Run(Init(), script), id)
    ensures var s := Run(Init(), script);
      Cancellable(s, id) <==> IsActive(s, id) || (id !in s.rolledBack && id !in s.deserted)
  {
    Reachable(script);
  }

  /** A dead worker's job is out of reach only until the fault is recorded, or if the sweep lost the store. */
  lemma DesertionEndsWithTheSweep(script: seq<Action>, id: JobId)
    requires Legal(Init(), script)
    ensures var s := Run(Init(), script);
      Unfinished(s, id) && id in s.deserted ==> Lost(s, id) || s.stalled
  {
    Reachable(script);
  }

  /** While every transaction of cancel, close and the sweep commits, the dying window is the only one. */
  lemma OnlyTheDyingWindow(script: seq<Action>, id: JobId)
    requires Legal(Init(), script)
    requires Unfinished(Run(Init(), script), id)
    requires Run(Init(), script).rolledBack == {} && !Run(Init(), script).stalled
    ensures Cancellable(Run(Init(), script), id) <==> !Lost(Run(Init(), script), id)
  {
    Reachable(script);
  }

  /** Jobs are popped in submission order; what never is was cut from the queue. */
  lemma FirstInFirstOut(script: seq<Action>)
    requires Legal(Init(), script)
    ensures var s := Run(Init(), script);
      && NoDuplicates(s.created)
      && Without(s.created, s.dropped) == s.taken + s.queue
      && (forall id :: id in s.created <==> id in s.db.jobs)
  {
    Reachable(script);
  }

  /** A job cut from the queue never ran; it is cancelled or failed, or its cancellation rolled back. */
  lemma WhatIsCutNeverRan(script: seq<Action>, id: JobId)
    requires Legal(Init(), script)
    ensures var s := Run(Init(), script);
      id in s.dropped ==>
        && id in s.db.jobs && Running !in Trail(s.db.audit, id)
        && (s.db.jobs[id].state.Cancelled? || s.db.jobs[id].state.Failed?
            || (s.db.jobs[id].state.Queued? && id in s.rolledBack))
  {
    Reachable(script);
    var s := Run(Init(), script);
    if id in s.dropped {
      NeverRanEnds(s.db, id);
    }
  }

  lemma NeverRanEnds(db: Db, id: JobId)
    requires DbValid(db) && id in db.jobs && !Ran(db, id)
    ensures !db.jobs[id].state.Running? && !db.jobs[id].state.Succeeded?
  {
    assert TrailMatches(db, id);
    var path := Trail(db.audit, id);
    assert forall i :: 0 <= i < |path| ==> path[i] in path;
  }

  /** An unfinished job waits in the queue, is active, or strayed in one of the recorded ways. */
  lemma NothingForgotten(script: seq<Action>, id: JobId)
    requires Legal(Init(), script)
    ensures var s := Run(Init(), script);
      Unfinished(s, id) ==> id in s.queue || IsActive(s, id) || id in s.rolledBack || id in s.deserted
  {
    Reachable(script);
  }

  /** What a close has finished once it has cancelled the first done jobs of its list: those, and nothing else. */
  lemma CloseFinishesItsList(script: seq<Action>, id: JobId, done: nat, at: int)
    requires Legal(Init(), script) && !Run(Init(), script).closed
    requires done <= |Closing(Run(Init(), script))|
    ensures var s := Run(Init(), script);
      Unfinished(ShutSoFar(s, done, at), id) <==> Unfinished(s, id) && id !in Closing(s)[..done]
  {
    hide Core, ClosedMatches, CancelEach, Legal, Run;
    Reachable(script);
    var s := Run(Init(), script);
    var ids := Closing(s)[..done];
    ClosingIsCancellable(s);
    assert forall x :: x in ids ==> x in Closing(s);
    CancelEachKeeps(s.(closed := true), ids, at);
    assert Cancelling(s.(closed := true), ShutSoFar(s, done, at), ids);
  }

  /**
   * A close leaves a job unfinished if and only if it is one that no cancellation finds: not active,
   * and strayed by a cancellation that rolled back or a worker that died. So a close finishes every
   * job if and only if no unfinished job has strayed.
   */
  lemma CloseFinishesWhatItFinds(script: seq<Action>, id: JobId, at: int)
    requires Legal(Init(), script) && !Run(Init(), script).closed
    ensures var s := Run(Init(), script);
      Unfinished(Shut(s, at), id) <==>
        Unfinished(s, id) && !IsActive(s, id) && (id in s.rolledBack || id in s.deserted)
  {
    hide Legal, Run, ShutSoFar, CancelEach;
    var s := Run(Init(), script);
    CloseFinishesItsList(script, id, |Closing(s)|, at);
    ShutIsTheWhole(s, at);
    assert id in Closing(s) <==> id in s.queue || IsActive(s, id);
    if Unfinished(s, id) {
      CancelFindsItsJob(script, id);
    }
  }

  lemma ShutIsTheWhole(s: State, at: int)
    ensures Shut(s, at) == ShutSoFar(s, |Closing(s)|, at) && Closing(s)[..|Closing(s)|] == Closing(s)
  {
    assert Closing(s)[..|Closing(s)|] == Closing(s);
  }

  /**
   * Ever after a close that did not raise, nothing that waits or is active is unfinished; what is has
   * strayed. Without rolled-back cancellations that is at most the job of a worker that has just died.
   */
  lemma ClosedIsFinished(script: seq<Action>, id: JobId)
    requires Legal(Init(), script)
    ensures var s := Run(Init(), script);
      s.closed && !s.raised && id in s.db.jobs ==>
        && (IsActive(s, id) || id in s.queue ==> s.db.jobs[id].state.Terminal())
        && (s.db.jobs[id].state.Terminal() || id in s.rolledBack || Lost(s, id) || s.stalled)
  {
    Reachable(script);
    var s := Run(Init(), script);
    assert s.closed && !s.raised && Unfinished(s, id) ==> !Cancellable(s, id);
  }

  /** After a fault whose sweep went through, every job is finished. */
  lemma SweptIsFinished(script: seq<Action>, id: JobId)
    requires Legal(Init(), script)
    ensures var s := Run(Init(), script);
      s.faulted && !s.stalled && id in s.db.jobs ==> s.db.jobs[id].state.Terminal() && s.queue == []
  {
    Reachable(script);
  }

  /** A finished job, and so a cancelled one, never changes again: no evidence, no state, no audit. */
  lemma FinishedIsFinal(script: seq<Action>, more: seq<Action>, id: JobId)
    requires Legal(Init(), script) && Legal(Run(Init(), script), more)
    requires id in Run(Init(), script).db.jobs && Run(Init(), script).db.jobs[id].state.Terminal()
    ensures var s, t := Run(Init(), script), Run(Run(Init(), script), more);
      && id in t.db.jobs && t.db.jobs[id] == s.db.jobs[id]
      && Trail(t.db.audit, id) == Trail(s.db.audit, id)
  {
    Reachable(script);
    RunKeeps(Run(Init(), script), more);
    assert FrozenAt(Run(Init(), script).db, Run(Run(Init(), script), more).db, id);
  }

  /**
   * A worker coming back with evidence skips publication exactly when its job was cancelled or a
   * cancellation of it rolled back; otherwise the job is still running, and, as far as the store is
   * concerned, only the evidence itself can be at fault.
   */
  lemma PublicationNeverRaces(script: seq<Action>, at: int)
    requires Legal(Init(), script) && Run(Init(), script).worker.Returned?
    ensures var s := Run(Init(), script);
      && s.active.Some? && s.active.value.job == s.worker.job && s.worker.job in s.db.jobs
      && (s.db.jobs[s.worker.job].state.Cancelled? ==> s.active.value.cancelled)
      && (s.active.value.cancelled ==> s.db.jobs[s.worker.job].state.Cancelled? || s.worker.job in s.rolledBack)
      && (!s.active.value.cancelled ==>
            (Publish(s.db, s.worker.job, s.worker.evidence, at).Success? <==>
               s.worker.evidence.size <= MAX_EVIDENCE_BYTES
               && s.worker.evidence.requestHash == s.worker.job.requestHash))
  {
    Reachable(script);
  }

  /** Rows, audit trails and capacities of every reachable store. */
  lemma StoreStaysValid(script: seq<Action>, id: JobId)
    requires Legal(Init(), script)
    ensures var db := Run(Init(), script).db;
      && |db.jobs| <= MAX_JOBS && |Pending(db.jobs)| <= MAX_PENDING
      && (id in db.jobs ==> db.jobs[id].Coherent() && EndsIn(Trail(db.audit, id), db.jobs[id].state))
  {
    Reachable(script);
    assert TrailMatches(Run(Init(), script).db, id);
  }
}
