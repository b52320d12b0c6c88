/** What every interleaving of submit, cancel, close and the worker keeps. */
module SchedulerSafety {
  import opened Basics
  import opened JobStore
  import opened Scheduler

  // ----- queues -----

  lemma {:induction false} WithoutAppend(a: seq<JobId>, b: seq<JobId>, d: set<JobId>)
    ensures Without(a + b, d) == Without(a, d) + Without(b, d)
  {
    if a == [] {
      assert a + b == b;
    } else {
      assert (a + b)[1..] == a[1..] + b;
      WithoutAppend(a[1..], b, d);
    }
  }

  lemma {:induction false} WithoutMembers(ids: seq<JobId>, d: set<JobId>, x: JobId)
    ensures x in Without(ids, d) <==> x in ids && x !in d
  {
    if ids != [] {
      WithoutMembers(ids[1..], d, x);
      assert x in ids <==> x == ids[0] || x in ids[1..];
    }
  }

  lemma {:induction false} WithoutUnique(ids: seq<JobId>, d: set<JobId>)
    requires NoDuplicates(ids)
    ensures NoDuplicates(Without(ids, d))
  {
    if ids != [] {
      WithoutUnique(ids[1..], d);
      WithoutMembers(ids[1..], d, ids[0]);
    }
  }

  lemma {:induction false} WithoutMore(ids: seq<JobId>, d: set<JobId>, e: set<JobId>)
    ensures Without(ids, d + e) == Without(Without(ids, d), e)
  {
    if ids != [] {
      WithoutMore(ids[1..], d, e);
      var head := if ids[0] in d then [] else [ids[0]];
      WithoutAppend(head, Without(ids[1..], d), e);
      assert Without([], e) == [];
    }
  }

  lemma {:induction false} WithoutNone(ids: seq<JobId>, d: set<JobId>)
    requires forall x :: x in ids ==> x !in d
    ensures Without(ids, d) == ids
  {
    if ids != [] {
      assert ids == [ids[0]] + ids[1..];
      WithoutNone(ids[1..], d);
    }
  }

  lemma {:induction false} WithoutAll(ids: seq<JobId>, d: set<JobId>)
    requires forall x :: x in ids ==> x in d
    ensures Without(ids, d) == []
  {
    if ids != [] {
      WithoutAll(ids[1..], d);
    }
  }

  lemma {:induction false} RemoveIsWithout(queue: seq<JobId>, id: JobId)
    requires NoDuplicates(queue)
    ensures Remove(queue, id) == Without(queue, {id})
  {
    if queue != [] {
      if queue[0] == id {
        WithoutNone(queue[1..], {id});
      } else {
        RemoveIsWithout(queue[1..], id);
      }
    }
  }

  lemma RemoveMembers(queue: seq<JobId>, id: JobId)
    requires NoDuplicates(queue)
    ensures NoDuplicates(Remove(queue, id))
    ensures forall x :: x in Remove(queue, id) <==> x in queue && x != id
  {
    RemoveIsWithout(queue, id);
    WithoutUnique(queue, {id});
    forall x ensures x in Remove(queue, id) <==> x in queue && x != id {
      WithoutMembers(queue, {id}, x);
    }
  }

  lemma Apart(a: seq<JobId>, b: seq<JobId>, x: JobId)
    requires NoDuplicates(a + b) && x in a
    ensures x !in b
  {
    var i :| 0 <= i < |a| && a[i] == x;
    forall j | 0 <= j < |b| ensures b[j] != x {
      assert (a + b)[i] == x && (a + b)[|a| + j] == b[j];
    }
  }

  /** The order survives cutting one job out of the queue. */
  lemma OrderAfterRemove(created: seq<JobId>, taken: seq<JobId>, dropped: set<JobId>, queue: seq<JobId>, id: JobId)
    requires InOrder(created, taken, dropped, queue) && NoDuplicates(queue) && id in queue
    ensures InOrder(created, taken, dropped + {id}, Remove(queue, id))
  {
    WithoutMore(created, dropped, {id});
    WithoutAppend(taken, queue, {id});
    WithoutUnique(created, dropped);
    forall x | x in taken ensures x != id {
      Apart(taken, queue, x);
    }
    WithoutNone(taken, {id});
    RemoveIsWithout(queue, id);
    WithoutMembers(created, dropped, id);
    assert id in taken + queue;
  }

  lemma OrderAfterDrop(created: seq<JobId>, taken: seq<JobId>, dropped: set<JobId>, queue: seq<JobId>)
    requires InOrder(created, taken, dropped, queue)
    ensures InOrder(created, taken, dropped + (set id | id in queue), [])
  {
    var all := set id | id in queue;
    WithoutMore(created, dropped, all);
    WithoutAppend(taken, queue, all);
    WithoutAll(queue, all);
    WithoutUnique(created, dropped);
    forall x | x in taken ensures x !in all {
      Apart(taken, queue, x);
    }
    WithoutNone(taken, all);
    assert taken + [] == taken;
    forall x | x in queue ensures x in created {
      WithoutMembers(created, dropped, x);
      assert x in taken + queue;
    }
  }

  // ----- which jobs have run -----

  /** Nothing that had not run before has run now. */
  ghost predicate NoNewRuns(a: Db, b: Db) {
    forall id :: Ran(b, id) ==> Ran(a, id)
  }

  lemma MovedRuns(db: Db, id: JobId, job: Job, code: Option<string>)
    requires !job.state.Running?
    ensures NoNewRuns(db, Moved(db, id, job, code))
  {
    forall x ensures Ran(Moved(db, id, job, code), x) ==> Ran(db, x) {
      MovedTrail(db, id, job, code, x);
    }
  }

  lemma TransitionRuns(db: Db, id: JobId, state: JobState, code: Option<string>, at: int)
    requires !state.Running?
    ensures var r := Transition(db, id, state, code, at); r.Success? ==> NoNewRuns(db, r.value)
  {
    if Transition(db, id, state, code, at).Success? && !db.jobs[id].state.Terminal() {
      MovedRuns(db, id, db.jobs[id].(state := state, updated := at, error := code), code);
    }
  }

  lemma PublishRuns(db: Db, id: JobId, evidence: Evidence, at: int)
    ensures var r := Publish(db, id, evidence, at); r.Success? ==> NoNewRuns(db, r.value)
  {
    if Publish(db, id, evidence, at).Success? {
      MovedRuns(
        db, id, db.jobs[id].(state := Succeeded, updated := at, evidence := Some(evidence.hash)), None);
    }
  }

  lemma SubmitRuns(db: Db, request: nat, key: Key, at: int)
    ensures var r := Submit(db, request, key, at); r.Success? ==> NoNewRuns(db, r.value.0)
  {
    var r := Submit(db, request, key, at);
    if r.Success? && r.value.2 {
      MovedRuns(db, JobId(key.hash, request), Job(Queued, at, at, None, None), None);
    }
  }

  lemma {:induction false} FailEachRuns(db: Db, ids: seq<JobId>, code: string, at: int)
    ensures NoNewRuns(db, FailEach(db, ids, code, at))
  {
    if ids != [] {
      FailEachRuns(db, ids[..|ids| - 1], code, at);
      var prior, id := FailEach(db, ids[..|ids| - 1], code, at), ids[|ids| - 1];
      if id in prior.jobs && !prior.jobs[id].state.Terminal() {
        MovedRuns(prior, id, prior.jobs[id].(state := Failed, updated := at, error := Some(code)), Some(code));
      }
    }
  }

  lemma QueuedNeverRan(db: Db, id: JobId)
    requires DbValid(db) && id in db.jobs && db.jobs[id].state.Queued?
    ensures !Ran(db, id)
  {
    assert TrailMatches(db, id);
  }

  /** Cutting the queue, and any transaction that starts nothing, leaves cut jobs as ones that never ran. */
  lemma CutKeeps(s: State, t: State)
    requires CutMatches(s) && NoNewRuns(s.db, t.db)
    requires forall id :: id in t.queue || id in t.dropped ==> id in s.queue || id in s.dropped
    requires forall id :: id in t.dropped && id in t.db.jobs && t.db.jobs[id].state.Queued? ==> id in t.rolledBack
    ensures CutMatches(t)
  {
  }

  // ----- cancellation -----

  lemma CancelMoves(s: State, id: JobId, at: int)
    requires DbValid(s.db) && Cancellable(s, id) && Unfinished(s, id)
    ensures var after := CancelOne(s, id, at);
      && DbValid(after.db) && Frozen(s.db, after.db) && OnlyMoved(s.db, after.db, id, Cancelled)
      && NoNewRuns(s.db, after.db) && after == Marked(s, id).(db := after.db)
  {
    TransitionKeeps(s.db, id, Cancelled, Some("cancelled"), at);
    TransitionRuns(s.db, id, Cancelled, Some("cancelled"), at);
  }

  /** Marking a job, with its row cancelled or its id recorded as rolled back, keeps queue and worker coherent. */
  lemma MarkMatches(s: State, t: State, id: JobId)
    requires QueueMatches(s) && ActiveMatches(s) && Cancellable(s, id) && Unfinished(s, id)
    requires t == Marked(s, id).(db := t.db, rolledBack := t.rolledBack)
    requires if t.db == s.db then t.rolledBack == s.rolledBack + {id}
             else OnlyMoved(s.db, t.db, id, Cancelled) && t.rolledBack == s.rolledBack
    ensures QueueMatches(t) && ActiveMatches(t)
  {
    if !IsActive(s, id) {
      RemoveMembers(s.queue, id);
    }
  }

  lemma MarkOrder(s: State, id: JobId)
    requires InOrder(s.created, s.taken, s.dropped, s.queue) && NoDuplicates(s.queue)
    requires Cancellable(s, id) && Unfinished(s, id)
    ensures var t := Marked(s, id); InOrder(t.created, t.taken, t.dropped, t.queue)
    ensures var t := Marked(s, id);
      && t.queue == (if IsActive(s, id) then s.queue else Remove(s.queue, id))
      && t.dropped == (if IsActive(s, id) then s.dropped else s.dropped + {id})
      && (forall x :: x in t.queue ==> x in s.queue)
  {
    if !IsActive(s, id) {
      OrderAfterRemove(s.created, s.taken, s.dropped, s.queue, id);
      RemoveMembers(s.queue, id);
    }
  }

  lemma CancelFinished(s: State, id: JobId, at: int)
    requires Cancellable(s, id) && !Unfinished(s, id)
    ensures CancelOne(s, id, at) == s && Frozen(s.db, s.db)
  {
    SelfFrozen(s.db);
  }

  lemma MarkedFields(s: State, id: JobId)
    ensures var t := Marked(s, id);
      && t.db == s.db && t.created == s.created && t.taken == s.taken
      && t.rolledBack == s.rolledBack && t.worker == s.worker && t.closed == s.closed
      && t.faulted == s.faulted && t.stalled == s.stalled
  {
  }

  /** Cancelling touches only its own job, and keeps queue, worker and order coherent. */
  lemma CancelKeeps(s: State, id: JobId, at: int)
    requires Core(s) && Cancellable(s, id)
    ensures var after := CancelOne(s, id, at);
      && Core(after) && Frozen(s.db, after.db) && after.db.jobs.Keys == s.db.jobs.Keys
      && (forall x :: x in s.db.jobs ==> (after.db.jobs[x] == s.db.jobs[x] || x == id))
      && after.db.jobs[id].state.Terminal()
  {
    hide DbValid, Frozen, CancelOne, Marked, QueueMatches, ActiveMatches, InOrder, CutMatches, NoNewRuns;
    if !Unfinished(s, id) {
      CancelFinished(s, id, at);
    } else {
      CancelMoves(s, id, at);
      MarkedFields(s, id);
      var after := CancelOne(s, id, at);
      MarkMatches(s, after, id);
      QueueIsUnique(s);
      MarkOrder(s, id);
      CutQueued(s, id);
      CutKeeps(s, after);
    }
  }

  /** A queued job that is cut is not one of the queued rows any more, unless its cancellation rolled back. */
  lemma CutQueued(s: State, id: JobId)
    requires QueueMatches(s) && CutMatches(s) && Cancellable(s, id) && Unfinished(s, id)
    ensures !IsActive(s, id) ==> id in s.queue
    ensures forall x :: x in s.dropped && x in s.db.jobs && s.db.jobs[x].state.Queued? ==> x in s.rolledBack
  {
  }

  /** A cancellation that rolls back leaves its mark, and records the job. */
  lemma RollBackKeeps(s: State, id: JobId)
    requires Core(s) && Cancellable(s, id) && Unfinished(s, id)
    ensures var after := RollBack(s, id);
      && Core(after) && after.db == s.db && (forall x :: x in after.queue ==> x in s.queue)
      && after.worker == s.worker && after.closed == s.closed && after.faulted == s.faulted
      && after.stalled == s.stalled
  {
    hide DbValid, Marked, QueueMatches, ActiveMatches, InOrder, CutMatches;
    MarkedFields(s, id);
    var after := RollBack(s, id);
    MarkMatches(s, after, id);
    QueueIsUnique(s);
    MarkOrder(s, id);
    CutQueued(s, id);
    CutKeeps(s, after);
  }

  // ----- closing -----

  /** The parts of a state that cancelling never touches. */
  predicate SameWorker(s: State, t: State) {
    && t.closed == s.closed && t.faulted == s.faulted && t.worker == s.worker && t.stalled == s.stalled
    && t.rolledBack == s.rolledBack && t.deserted == s.deserted && t.raised == s.raised
    && t.active.Some? == s.active.Some?
    && (s.active.Some? ==> t.active.value.job == s.active.value.job)
  }

  /** t is s after cancelling some of ids: those are finished, the rest is as it was. */
  ghost predicate Cancelling(s: State, t: State, ids: seq<JobId>) {
    && Core(t) && Frozen(s.db, t.db) && t.db.jobs.Keys == s.db.jobs.Keys
    && (forall x :: x in s.db.jobs ==> t.db.jobs[x] == s.db.jobs[x] || (x in ids && t.db.jobs[x].state.Terminal()))
    && (forall x :: x in ids && x in s.db.jobs ==> t.db.jobs[x].state.Terminal())
    && (forall x :: x in s.queue && x !in ids ==> x in t.queue)
    && (forall x :: x in t.queue ==> x in s.queue && (x in ids ==> s.stalled))
    && SameWorker(s, t)
  }

  lemma QueueIsUnique(s: State)
    requires QueueMatches(s)
    ensures NoDuplicates(s.queue)
  {
  }

  lemma CancelTouches(s: State, id: JobId, at: int)
    requires Cancellable(s, id) && NoDuplicates(s.queue)
    ensures SameWorker(s, CancelOne(s, id, at))
    ensures forall x :: x in CancelOne(s, id, at).queue ==> x in s.queue
    ensures forall x :: x in s.queue && x != id ==> x in CancelOne(s, id, at).queue
    ensures Unfinished(s, id) && !IsActive(s, id) ==> id !in CancelOne(s, id, at).queue
  {
    hide Transition;
    RemoveMembers(s.queue, id);
  }

  lemma CancellingStep(s: State, prior: State, init: seq<JobId>, id: JobId, at: int)
    requires Cancelling(s, prior, init) && Cancellable(s, id)
    ensures Cancellable(prior, id) && Cancelling(s, CancelOne(prior, id, at), init + [id])
  {
    hide DbValid, InOrder, QueueMatches, ActiveMatches, CutMatches, CancelOne, Frozen;
    var t := CancelOne(prior, id, at);
    CancelKeeps(prior, id, at);
    QueueIsUnique(prior);
    CancelTouches(prior, id, at);
    FrozenTransitive(s.db, prior.db, t.db);
    StillQueued(prior, t, id);
    assert forall x :: x in init + [id] <==> x in init || x == id;
  }

  lemma StillQueued(prior: State, t: State, id: JobId)
    requires QueueMatches(prior) && Cancellable(prior, id)
    requires Unfinished(prior, id) && !IsActive(prior, id) ==> id !in t.queue
    requires forall x :: x in t.queue ==> x in prior.queue
    ensures id in t.queue ==> prior.stalled
  {
  }

  /** Closing: whatever was queued or active is cancelled. */
  lemma {:induction false} CancelEachKeeps(s: State, ids: seq<JobId>, at: int)
    requires Core(s)
    requires forall id :: id in ids ==> Cancellable(s, id)
    ensures Cancelling(s, CancelEach(s, ids, at), ids)
  {
    if ids == [] {
      SelfFrozen(s.db);
    } else {
      var init, id := ids[..|ids| - 1], ids[|ids| - 1];
      assert ids == init + [id];
      CancelEachKeeps(s, init, at);
      CancellingStep(s, CancelEach(s, init, at), init, id, at);
    }
  }

  lemma ClosingIsCancellable(s: State)
    requires Core(s)
    ensures Core(s.(closed := true))
    ensures forall id :: id in Closing(s) ==> Cancellable(s.(closed := true), id)
  {
  }

  /** After a close that did not raise, nothing that is unfinished can be found any more. */
  lemma CloseKeeps(s: State, at: int)
    requires Invariant(s) && !s.closed
    ensures Invariant(Shut(s, at)) && Frozen(s.db, Shut(s, at).db)
    ensures !s.stalled ==> Shut(s, at).queue == []
  {
    ClosingIsCancellable(s);
    CancelEachKeeps(s.(closed := true), Closing(s), at);
    NothingLeft(s.(closed := true), Shut(s, at), Closing(s));
  }

  lemma FirstOf(queue: seq<JobId>) returns (id: JobId)
    requires queue != []
    ensures id in queue
  {
    id := queue[0];
  }

  lemma NothingLeft(s: State, t: State, ids: seq<JobId>)
    requires Cancelling(s, t, ids) && ids == Closing(s) && s.closed
    requires ClosedMatches(s.(closed := false))
    ensures !s.stalled ==> t.queue == []
    ensures ClosedMatches(t)
  {
    hide DbValid, InOrder, Frozen, Core;
    assert forall x :: x in ids <==> x in s.queue || IsActive(s, x);
    if t.queue != [] && !s.stalled {
      var id := FirstOf(t.queue);
    }
    forall id | Unfinished(t, id) ensures !Cancellable(t, id) && Unfinished(s, id) {
      assert id !in ids;
    }
  }

  /** A close that raised leaves the rest queued, or active. */
  lemma CloseRaisesKeeps(s: State, done: nat, marked: bool, at: int)
    requires Invariant(s) && !s.closed && done < |Closing(s)| && Raises(s, done, marked, at)
    ensures Invariant(ShutPartly(s, done, marked, at)) && Frozen(s.db, ShutPartly(s, done, marked, at).db)
  {
    hide Core, ClosedMatches, Frozen, Cancelling, Cancellable, CancelEach, RollBack, Closing;
    ClosingIsCancellable(s);
    var ids, id := Closing(s)[..done], Closing(s)[done];
    var prior := CancelEach(s.(closed := true), ids, at);
    assert forall x :: x in ids ==> x in Closing(s);
    CancelEachKeeps(s.(closed := true), ids, at);
    CancellingParts(s.(closed := true), prior, ids);
    var last := prior;
    if marked {
      StaysCancellable(s.(closed := true), prior, ids, id);
      RollBackKeeps(prior, id);
      last := RollBack(prior, id);
    }
    assert ShutPartly(s, done, marked, at) == last.(raised := true);
    RaisedCore(last);
    RaisedClosed(s, prior, last.(raised := true), ids);
  }

  lemma CancellingParts(s: State, t: State, ids: seq<JobId>)
    requires Cancelling(s, t, ids)
    ensures Core(t) && Frozen(s.db, t.db) && SameWorker(s, t)
  {
  }

  lemma StaysCancellable(s: State, t: State, ids: seq<JobId>, id: JobId)
    requires Cancelling(s, t, ids) && Cancellable(s, id)
    ensures Cancellable(t, id)
  {
  }

  lemma RaisedCore(s: State)
    requires Core(s)
    ensures Core(s.(raised := true))
  {
  }

  lemma RaisedClosed(s: State, prior: State, t: State, ids: seq<JobId>)
    requires ClosedMatches(s) && Cancelling(s.(closed := true), prior, ids)
    requires t.closed && t.raised && t.db == prior.db && t.worker == prior.worker
    requires t.faulted == prior.faulted && t.stalled == prior.stalled
    requires forall x :: x in t.queue ==> x in prior.queue
    ensures ClosedMatches(t)
  {
    hide Core, Frozen;
    if t.queue != [] {
      var id := FirstOf(t.queue);
    }
  }

  // ----- the other steps -----

  /** Marking and finishing one job opens nothing that a close had shut. */
  lemma MarkClosed(s: State, t: State, id: JobId)
    requires ClosedMatches(s) && Cancellable(s, id) && Unfinished(s, id)
    requires t.closed == s.closed && t.raised == s.raised && t.faulted == s.faulted && t.stalled == s.stalled
    requires t.worker == s.worker && (forall x :: x in t.queue ==> x in s.queue)
    ensures ClosedMatches(t)
  {
    if t.queue != [] {
      var x := FirstOf(t.queue);
    }
  }

  lemma CancelStep(s: State, id: JobId, at: int)
    requires Invariant(s) && Cancellable(s, id)
    ensures Invariant(CancelOne(s, id, at)) && Frozen(s.db, CancelOne(s, id, at).db)
  {
    hide Core, Cancellable, CancelOne, ClosedMatches, Frozen;
    CancelKeeps(s, id, at);
    if !Unfinished(s, id) {
      CancelFinished(s, id, at);
    } else {
      CoreQueueIsUnique(s);
      CancelTouches(s, id, at);
      MarkClosed(s, CancelOne(s, id, at), id);
    }
    CancellableExists(s, id);
  }

  lemma CancellableExists(s: State, id: JobId)
    requires Cancellable(s, id)
    ensures id in s.db.jobs
  {
  }

  lemma CoreQueueIsUnique(s: State)
    requires Core(s)
    ensures NoDuplicates(s.queue)
  {
  }

  lemma RollBackStep(s: State, id: JobId)
    requires Invariant(s) && Cancellable(s, id) && Unfinished(s, id)
    ensures Invariant(RollBack(s, id)) && Frozen(s.db, RollBack(s, id).db)
  {
    hide Core, Cancellable, Marked, ClosedMatches, Frozen;
    RollBackKeeps(s, id);
    MarkedRaised(s, id);
    MarkClosed(s, RollBack(s, id), id);
    SelfFrozen(s.db);
  }

  lemma MarkedRaised(s: State, id: JobId)
    ensures Marked(s, id).raised == s.raised
  {
  }

  lemma WithoutOne(id: JobId, dropped: set<JobId>)
    requires id !in dropped
    ensures Without([id], dropped) == [id]
  {
  }

  lemma SubmitOrder(s: State, id: JobId)
    requires InOrder(s.created, s.taken, s.dropped, s.queue) && id !in s.created
    ensures InOrder(s.created + [id], s.taken, s.dropped, s.queue + [id])
  {
    WithoutAppend(s.created, [id], s.dropped);
    WithoutOne(id, s.dropped);
    assert s.taken + (s.queue + [id]) == s.taken + s.queue + [id];
  }

  /** A new job joins the end of the queue. */
  lemma SubmitMatches(s: State, t: State, id: JobId, job: Job)
    requires QueueMatches(s) && ActiveMatches(s) && id !in s.db.jobs && job.state.Queued?
    requires t == s.(db := t.db, queue := s.queue + [id], created := t.created)
    requires t.db.jobs == s.db.jobs[id := job]
    ensures QueueMatches(t) && ActiveMatches(t)
  {
  }

  lemma SubmitCut(s: State, t: State, id: JobId)
    requires CutMatches(s) && NoNewRuns(s.db, t.db) && DbValid(t.db)
    requires t == s.(db := t.db, queue := s.queue + [id], created := t.created)
    requires id in t.db.jobs && t.db.jobs[id].state.Queued? && id !in s.dropped
    requires forall x :: x in s.db.jobs ==> x in t.db.jobs && t.db.jobs[x] == s.db.jobs[x]
    requires forall x :: x in s.dropped ==> x in s.db.jobs
    ensures CutMatches(t)
  {
    QueuedNeverRan(t.db, id);
  }

  lemma SubmitStep(s: State, request: nat, key: Key, at: int)
    requires Invariant(s) && Enabled(s, SubmitJob(request, key, at))
    ensures Invariant(Apply(s, SubmitJob(request, key, at))) && Frozen(s.db, Apply(s, SubmitJob(request, key, at)).db)
  {
    hide DbValid, Frozen, JobStore.Submit, Without, QueueMatches, ActiveMatches, CutMatches, InOrder, NoNewRuns;
    SubmitKeeps(s.db, request, key, at);
    SubmitRuns(s.db, request, key, at);
    var (db, id, created) := Submit(s.db, request, key, at).value;
    DroppedExist(s);
    if created {
      var t := s.(db := db, queue := s.queue + [id], created := s.created + [id]);
      SubmitOrder(s, id);
      SubmitMatches(s, t, id, Job(Queued, at, at, None, None));
      SubmitCut(s, t, id);
      SubmitOpen(s, t);
    }
  }

  lemma DroppedExist(s: State)
    requires Core(s)
    ensures forall id :: id in s.dropped ==> id in s.db.jobs
  {
  }

  /** Admission is open: nothing is closed or faulted. */
  lemma SubmitOpen(s: State, t: State)
    requires ClosedMatches(s) && !s.closed && !s.faulted
    requires t.closed == s.closed && t.faulted == s.faulted && t.stalled == s.stalled && t.worker == s.worker
    ensures ClosedMatches(t)
  {
  }

  lemma TakeOrder(s: State)
    requires InOrder(s.created, s.taken, s.dropped, s.queue) && s.queue != []
    ensures InOrder(s.created, s.taken + [s.queue[0]], s.dropped, s.queue[1..])
    ensures s.queue[0] !in s.dropped
  {
    assert s.queue == [s.queue[0]] + s.queue[1..];
    assert (s.taken + [s.queue[0]]) + s.queue[1..] == s.taken + s.queue;
    WithoutMembers(s.created, s.dropped, s.queue[0]);
    assert s.queue[0] in s.taken + s.queue;
  }

  /** The head of the queue leaves it for good. */
  lemma TakeMatches(s: State, t: State)
    requires QueueMatches(s) && ActiveMatches(s) && s.worker.Waiting? && !s.faulted && s.queue != []
    requires t == s.(db := t.db, queue := s.queue[1..], active := Some(Active(s.queue[0], false)),
                     taken := t.taken, worker := t.worker)
    requires if t.db == s.db then t.worker == Dead(s.queue[0])
             else OnlyMoved(s.db, t.db, s.queue[0], Running) && t.worker == Working(s.queue[0])
    ensures QueueMatches(t) && ActiveMatches(t)
  {
    assert s.queue[0] in s.queue;
    assert forall i :: 0 <= i < |t.queue| ==> t.queue[i] == s.queue[i + 1];
  }

  lemma TakeRuns(db: Db, id: JobId, at: int, x: JobId)
    requires Transition(db, id, Running, None, at).Success? && x != id
    ensures Ran(Transition(db, id, Running, None, at).value, x) ==> Ran(db, x)
  {
    if !db.jobs[id].state.Terminal() {
      MovedTrail(db, id, db.jobs[id].(state := Running, updated := at, error := None), None, x);
    }
  }

  lemma TakeCut(s: State, t: State, at: int)
    requires CutMatches(s) && NoDuplicates(s.queue) && s.queue != [] && s.queue[0] !in s.dropped
    requires Transition(s.db, s.queue[0], Running, None, at).Success?
    requires t.db == s.db || t.db == Transition(s.db, s.queue[0], Running, None, at).value
    requires t.queue == s.queue[1..] && t.dropped == s.dropped && t.rolledBack == s.rolledBack
    requires forall x :: x in t.db.jobs && x != s.queue[0] ==> x in s.db.jobs && t.db.jobs[x] == s.db.jobs[x]
    ensures CutMatches(t)
  {
    hide Transition, Ran;
    forall id | id in t.queue || id in t.dropped ensures !Ran(t.db, id) {
      if id in t.queue {
        var i :| 0 <= i < |t.queue| && t.queue[i] == id;
        assert s.queue[i + 1] == id;
      }
      TakeRuns(s.db, s.queue[0], at, id);
    }
  }

  lemma TakeClosed(s: State, t: State)
    requires ClosedMatches(s) && !s.closed && s.worker.Waiting?
    requires !t.closed && t.faulted == s.faulted && t.stalled == s.stalled && !t.worker.Ended?
    ensures ClosedMatches(t)
  {
  }

  lemma TakeStep(s: State, at: int)
    requires Invariant(s) && s.worker.Waiting? && !s.closed && s.queue != []
    requires Transition(s.db, s.queue[0], Running, None, at).Success?
    ensures Invariant(TakeNext(s, at)) && Frozen(s.db, TakeNext(s, at).db)
  {
    hide DbValid, Frozen, QueueMatches, ActiveMatches, CutMatches, InOrder, Transition, ClosedMatches;
    TransitionKeeps(s.db, s.queue[0], Running, None, at);
    var t := TakeNext(s, at);
    HeadMoves(s);
    TakeMatches(s, t);
    TakeOrder(s);
    QueueIsUnique(s);
    TakeCut(s, t, at);
    TakeClosed(s, t);
  }

  /** The head is queued, so starting it changes the tables. */
  lemma HeadMoves(s: State)
    requires QueueMatches(s) && s.queue != [] && ClosedMatches(s) && s.worker.Waiting?
    ensures s.queue[0] in s.db.jobs && s.db.jobs[s.queue[0]].state.Queued? && !s.faulted
  {
    assert s.queue[0] in s.queue;
  }

  lemma TakeFailsStep(s: State)
    requires Invariant(s) && Enabled(s, TakeFails)
    ensures Invariant(Apply(s, TakeFails))
  {
    hide DbValid, QueueMatches, ActiveMatches, CutMatches, InOrder, ClosedMatches;
    var t := Apply(s, TakeFails);
    HeadMoves(s);
    TakeMatches(s, t);
    TakeOrder(s);
    QueueIsUnique(s);
    HeadCanStart(s.db, s.queue[0], 0);
    TakeCut(s, t, 0);
    TakeClosed(s, t);
  }

  lemma HeadCanStart(db: Db, id: JobId, at: int)
    requires id in db.jobs && db.jobs[id].state.Queued?
    ensures Transition(db, id, Running, None, at).Success?
  {
  }

  /** The worker finishes with its job: its row ends, or it stays running after a cancellation that rolled back. */
  lemma WorkMatches(s: State, t: State)
    requires QueueMatches(s) && ActiveMatches(s) && (s.worker.Returned? || s.worker.Refused?)
    requires t == s.(db := t.db, worker := t.worker)
    requires t.db == s.db || exists state: JobState ::
      state.Terminal() && OnlyMoved(s.db, t.db, s.worker.job, state)
    requires || (t.worker == Clearing(s.worker.job)
                 && (t.db == s.db ==> s.active.Some? && s.active.value.cancelled))
             || (t.db == s.db && t.worker == Dying(s.worker.job))
    ensures QueueMatches(t) && ActiveMatches(t)
  {
  }

  lemma WorkClosed(s: State, t: State)
    requires ClosedMatches(s) && t == s.(db := t.db, worker := t.worker) && t.db.jobs.Keys == s.db.jobs.Keys
    requires forall id :: id in s.db.jobs && s.db.jobs[id].state.Terminal() ==> t.db.jobs[id].state.Terminal()
    requires !s.worker.Ended? && !t.worker.Ended?
    ensures ClosedMatches(t)
  {
    forall id | Unfinished(t, id) ensures Unfinished(s, id) {
    }
  }

  /** Only a Terminal row and a coherent cut are left behind by a transaction that starts nothing. */
  lemma WorkCut(s: State, t: State)
    requires CutMatches(s) && NoNewRuns(s.db, t.db) && t == s.(db := t.db, worker := t.worker)
    requires forall id :: id in t.db.jobs ==>
      id in s.db.jobs && (t.db.jobs[id].state.Queued? ==> s.db.jobs[id].state.Queued?)
    ensures CutMatches(t)
  {
  }

  /** The worker's transaction, or its omission, keeps everything coherent. */
  lemma WorkStep(s: State, t: State)
    requires Invariant(s) && (s.worker.Returned? || s.worker.Refused?)
    requires t == s.(db := t.db, worker := t.worker)
    requires t.db == s.db || (DbValid(t.db) && Frozen(s.db, t.db) && NoNewRuns(s.db, t.db)
                              && exists state: JobState ::
                                   state.Terminal() && OnlyMoved(s.db, t.db, s.worker.job, state))
    requires || (t.worker == Clearing(s.worker.job)
                 && (t.db == s.db ==> s.active.Some? && s.active.value.cancelled))
             || (t.db == s.db && t.worker == Dying(s.worker.job))
    ensures Invariant(t) && Frozen(s.db, t.db)
  {
    hide DbValid, Frozen, QueueMatches, ActiveMatches, CutMatches, InOrder, NoNewRuns, ClosedMatches;
    SelfFrozen(s.db);
    SelfRuns(s.db);
    WorkMatches(s, t);
    WorkCut(s, t);
    WorkClosed(s, t);
  }

  lemma SelfRuns(db: Db)
    ensures NoNewRuns(db, db)
  {
  }

  lemma WorkerIsActive(s: State)
    requires ActiveMatches(s) && (s.worker.Returned? || s.worker.Refused?)
    ensures s.active.Some? && s.active.value.job == s.worker.job && s.worker.job in s.db.jobs
    ensures var state := s.db.jobs[s.worker.job].state;
      && (state.Running? || state.Cancelled?)
      && (!s.active.value.cancelled ==> state.Running?)
      && (state.Cancelled? ==> s.active.value.cancelled)
  {
  }

  /** A worker that returns to an uncancelled job can publish: only the evidence itself can be refused. */
  lemma DeliverStep(s: State, at: int)
    requires Invariant(s) && s.worker.Returned?
    ensures s.active.Some? && Invariant(Delivered(s, at)) && Frozen(s.db, Delivered(s, at).db)
  {
    hide DbValid, Frozen, InOrder, QueueMatches, ActiveMatches, CutMatches, NoNewRuns, ClosedMatches, Publish;
    WorkerIsActive(s);
    PublishKeeps(s.db, s.worker.job, s.worker.evidence, at);
    PublishRuns(s.db, s.worker.job, s.worker.evidence, at);
    var r := Publish(s.db, s.worker.job, s.worker.evidence, at);
    assert r.Success? ==> Succeeded.Terminal() && OnlyMoved(s.db, r.value, s.worker.job, Succeeded);
    WorkStep(s, Delivered(s, at));
  }

  lemma RecordFailureStep(s: State, at: int)
    requires Invariant(s) && s.worker.Refused?
    ensures s.worker.job in s.db.jobs
    ensures Invariant(FailureRecorded(s, at)) && Frozen(s.db, FailureRecorded(s, at).db)
  {
    hide DbValid, Frozen, InOrder, QueueMatches, ActiveMatches, CutMatches, NoNewRuns, ClosedMatches, Transition;
    WorkerIsActive(s);
    TransitionKeeps(s.db, s.worker.job, Failed, Some(s.worker.code), at);
    TransitionRuns(s.db, s.worker.job, Failed, Some(s.worker.code), at);
    if !s.db.jobs[s.worker.job].state.Terminal() {
      UnfinishedCanFail(s.db, s.worker.job, Some(s.worker.code), at);
    }
    var r := Transition(s.db, s.worker.job, Failed, Some(s.worker.code), at);
    assert r.Success? ==> Failed.Terminal() && OnlyMoved(s.db, r.value, s.worker.job, Failed);
    WorkStep(s, FailureRecorded(s, at));
  }

  lemma UnfinishedCanFail(db: Db, id: JobId, code: Option<string>, at: int)
    requires id in db.jobs && !db.jobs[id].state.Terminal()
    ensures Transition(db, id, Failed, code, at).Success?
  {
  }

  // ----- faults and restarts -----

  /** After failing every listed job nothing is unfinished. */
  lemma FailAll(s: State, order: seq<JobId>, code: string, at: int)
    requires Core(s) && Lists(s.db, order)
    ensures var db := FailEach(s.db, order, code, at);
      && DbValid(db) && Frozen(s.db, db) && db.jobs.Keys == s.db.jobs.Keys && Finished(db) && NoNewRuns(s.db, db)
    ensures InOrder(s.created, s.taken, s.dropped + (set id | id in s.queue), [])
  {
    FailEachKeeps(s.db, order, code, at);
    FailEachRuns(s.db, order, code, at);
    OrderAfterDrop(s.created, s.taken, s.dropped, s.queue);
  }

  /** With everything finished and nothing queued, nothing is left to keep coherent. */
  lemma FinishedIsCoherent(s: State, t: State)
    requires Core(s) && DbValid(t.db) && Finished(t.db) && t.db.jobs.Keys == s.db.jobs.Keys && NoNewRuns(s.db, t.db)
    requires t.queue == [] && (t.active.Some? ==> t.active.value.job in t.db.jobs)
    requires (t.worker.Ended? && t.faulted) || (t.worker.Waiting? && t.active.None? && t.deserted == {})
    requires forall id :: id in t.rolledBack || id in t.deserted ==> id in t.db.jobs
    requires t.created == s.created && InOrder(t.created, t.taken, t.dropped, [])
    requires t.dropped == s.dropped + (set id | id in s.queue)
    ensures Core(t)
  {
    hide DbValid, InOrder, NoNewRuns;
    FinishedCut(s, t);
  }

  lemma FinishedCut(s: State, t: State)
    requires CutMatches(s) && NoNewRuns(s.db, t.db) && Finished(t.db) && t.queue == []
    requires t.dropped == s.dropped + (set id | id in s.queue)
    ensures CutMatches(t)
  {
  }

  lemma SweepStep(s: State, order: seq<JobId>, at: int)
    requires Invariant(s) && s.worker.Dead? && Lists(s.db, order)
    ensures Invariant(Swept(s, order, at)) && Frozen(s.db, Swept(s, order, at).db)
  {
    hide DbValid, InOrder, NoNewRuns, FailEach, CutMatches;
    FailAll(s, order, "scheduler_fault", at);
    FinishedIsCoherent(s, Swept(s, order, at));
  }

  lemma RestartStep(s: State, order: seq<JobId>, at: int)
    requires Invariant(s) && Enabled(s, Restart(order, at))
    ensures Invariant(Apply(s, Restart(order, at))) && Frozen(s.db, Apply(s, Restart(order, at)).db)
  {
    hide DbValid, InOrder, NoNewRuns, FailEach, CutMatches;
    FailAll(s, order, "interrupted", at);
    FinishedIsCoherent(s, Apply(s, Restart(order, at)));
  }

  /** A sweep that lost the store leaves the queue standing, with its jobs queued or already failed. */
  lemma StalledMatches(s: State, t: State)
    requires QueueMatches(s) && ActiveMatches(s) && s.worker.Dead?
    requires t == s.(faulted := true, stalled := true, db := t.db, worker := Ended, active := t.active)
    requires t.active.Some? == s.active.Some?
    requires t.active.Some? ==> t.active.value.job == s.active.value.job
    requires t.db.jobs.Keys == s.db.jobs.Keys
    requires forall id :: id in s.db.jobs ==> t.db.jobs[id] == s.db.jobs[id] || t.db.jobs[id].state.Terminal()
    ensures QueueMatches(t) && ActiveMatches(t)
  {
  }

  lemma StalledClosed(s: State, t: State)
    requires ClosedMatches(s)
    requires t == s.(faulted := true, stalled := true, db := t.db, worker := Ended, active := t.active)
    requires t.active.Some? ==> s.active.Some? && t.active.value.job == s.active.value.job
    requires t.db.jobs.Keys == s.db.jobs.Keys
    requires forall id :: id in s.db.jobs ==> t.db.jobs[id] == s.db.jobs[id] || t.db.jobs[id].state.Terminal()
    ensures ClosedMatches(t)
  {
    forall id | Unfinished(t, id) ensures Unfinished(s, id) {
    }
  }

  lemma StalledCut(s: State, t: State)
    requires CutMatches(s) && NoNewRuns(s.db, t.db)
    requires t == s.(faulted := true, stalled := true, db := t.db, worker := Ended, active := t.active)
    requires t.db.jobs.Keys == s.db.jobs.Keys
    requires forall id :: id in s.db.jobs ==> t.db.jobs[id] == s.db.jobs[id] || t.db.jobs[id].state.Terminal()
    ensures CutMatches(t)
  {
  }

  lemma StallStep(s: State, swept: seq<JobId>, at: int)
    requires Invariant(s) && s.worker.Dead?
    ensures Invariant(SweptPartly(s, swept, at)) && Frozen(s.db, SweptPartly(s, swept, at).db)
  {
    hide DbValid, InOrder, NoNewRuns, FailEach, CutMatches, QueueMatches, ActiveMatches, ClosedMatches;
    FailEachKeeps(s.db, swept, "scheduler_fault", at);
    FailEachRuns(s.db, swept, "scheduler_fault", at);
    var t := SweptPartly(s, swept, at);
    StalledMatches(s, t);
    StalledClosed(s, t);
    StalledCut(s, t);
  }

  // ----- every step -----

  lemma WorkerStep(s: State, a: Action)
    requires Invariant(s) && Enabled(s, a)
    requires a.RunReturns? || a.RunRefuses? || a.Crash? || a.Release? || a.Unwind? || a.Leave?
    ensures Invariant(Apply(s, a)) && Apply(s, a).db == s.db
  {
    hide DbValid, InOrder, CutMatches, QueueMatches, ClosedMatches;
    WaitingIsHealthy(s);
    QuietQueue(s, Apply(s, a));
    QuietCut(s, Apply(s, a));
    QuietClosed(s, Apply(s, a));
  }

  lemma WaitingIsHealthy(s: State)
    requires ClosedMatches(s)
    ensures s.faulted ==> s.worker.Ended?
  {
  }

  /** The worker moves on; if it lets go of its job, that job is finished or has strayed. */
  lemma QuietQueue(s: State, t: State)
    requires QueueMatches(s) && t.db == s.db && t.queue == s.queue
    requires t.rolledBack == s.rolledBack && t.stalled == s.stalled && s.deserted <= t.deserted
    requires forall id :: Holds(t.worker, id) ==> Holds(s.worker, id)
    requires forall id :: id in t.deserted ==> id in s.deserted || (Holds(s.worker, id) && id in s.db.jobs)
    requires t.active == s.active || (t.active.None? && s.active.Some? && s.active.value.job in s.db.jobs)
    requires t.active != s.active ==>
      var job := s.active.value.job;
      s.db.jobs[job].state.Terminal()
      || (s.db.jobs[job].state.Running? && (job in s.rolledBack || job in t.deserted))
    ensures QueueMatches(t)
  {
  }

  lemma QuietCut(s: State, t: State)
    requires CutMatches(s) && t.db == s.db && t.queue == s.queue && t.dropped == s.dropped
    requires t.rolledBack == s.rolledBack
    ensures CutMatches(t)
  {
  }

  lemma QuietClosed(s: State, t: State)
    requires ClosedMatches(s) && t.db == s.db && t.queue == s.queue && t.closed == s.closed
    requires t.raised == s.raised && t.stalled == s.stalled && t.faulted == s.faulted && !s.worker.Ended?
    requires t.active.Some? ==> s.active.Some? && t.active.value.job == s.active.value.job
    requires t.worker.Ended? ==> t.closed
    ensures ClosedMatches(t)
  {
    forall id | Unfinished(t, id) ensures Unfinished(s, id) {
    }
  }

  /** Every step keeps the scheduler coherent and finished jobs frozen. */
  lemma StepKeeps(s: State, a: Action)
    requires Invariant(s) && Enabled(s, a)
    ensures Invariant(Apply(s, a)) && Frozen(s.db, Apply(s, a).db)
  {
    hide Invariant, Frozen;
    SelfFrozen(s.db);
    match a
    case SubmitJob(request, key, at) => SubmitStep(s, request, key, at);
    case CancelJob(id, at) => CancelStep(s, id, at);
    case CancelRollsBack(id) => RollBackStep(s, id);
    case Close(at) => CloseKeeps(s, at);
    case CloseRaises(done, marked, at) => CloseRaisesKeeps(s, done, marked, at);
    case Take(at) => TakeStep(s, at);
    case TakeFails => TakeFailsStep(s);
    case Deliver(at) => DeliverStep(s, at);
    case RecordFailure(at) => RecordFailureStep(s, at);
    case Sweep(order, at) => SweepStep(s, order, at);
    case SweepStalls(swept, at) => StallStep(s, swept, at);
    case Restart(order, at) => RestartStep(s, order, at);
    case _ => WorkerStep(s, a);
  }

  lemma {:induction false} RunKeeps(s: State, script: seq<Action>)
    requires Invariant(s) && Legal(s, script)
    ensures Invariant(Run(s, script)) && Frozen(s.db, Run(s, script).db)
    decreases |script|
  {
    hide Invariant, Frozen, Enabled, Apply;
    if script == [] {
      SelfFrozen(s.db);
    } else {
      var next := Apply(s, script[0]);
      StepKeeps(s, script[0]);
      RunKeeps(next, script[1..]);
      FrozenTransitive(s.db, next.db, Run(next, script[1..]).db);
    }
  }

  lemma StoreIsValid(s: State)
    requires Invariant(s)
    ensures DbValid(s.db)
  {
  }

  lemma Reachable(script: seq<Action>)
    requires Legal(Init(), script)
    ensures Invariant(Run(Init(), script))
  {
    assert Invariant(Init()) by {
      assert Pending(Init().db.jobs) == {};
    }
    RunKeeps(Init(), script);
  }
}
