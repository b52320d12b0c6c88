/**
 * The bounded research job store (signal_foundry/store.py). A write transaction either commits as
 * a whole or leaves the database alone; a job identity is the pair of key and request digests,
 * standing for the hash of both.
 */
module JobStore {
  import opened Basics

  const MAX_JOBS := 64
  const MAX_PENDING := 8
  const MAX_EVIDENCE_BYTES := 4 * 1024 * 1024

  datatype JobState = Queued | Running | Succeeded | Failed | Cancelled {
    predicate Terminal() {
      Succeeded? || Failed? || Cancelled?
    }
  }

  datatype JobId = JobId(keyHash: nat, requestHash: nat)

  datatype Key = Key(hash: nat, wellFormed: bool)

  datatype Evidence = Evidence(requestHash: nat, hash: nat, size: nat)

  datatype Job = Job(
    state: JobState, created: int, updated: int, error: Option<string>, evidence: Option<nat>)
  {
    /** The validator Job.coherent_state. */
    predicate Coherent() {
      && (state.Succeeded? <==> evidence.Some?)
      && (state.Queued? || state.Running? || state.Succeeded? ==> error.None?)
    }
  }

  datatype AuditEvent = AuditEvent(job: JobId, state: JobState, at: int, code: Option<string>)

  datatype Db = Db(jobs: map<JobId, Job>, audit: seq<AuditEvent>)

  datatype StoreError =
    | IdempotencyKey | IdempotencyConflict | QueueCapacity | JobNotFound | TerminalJob | InvalidTransition
    | EvidenceLimit | PublicationConflict | StoreIo

  function Pending(jobs: map<JobId, Job>): (ids: set<JobId>)
    ensures ids <= jobs.Keys
  {
    set id | id in jobs && !jobs[id].state.Terminal()
  }

  // ----- what each operation does to the database -----

  function Moved(db: Db, id: JobId, job: Job, code: Option<string>): Db {
    Db(db.jobs[id := job], db.audit + [AuditEvent(id, job.state, job.updated, code)])
  }

  function Transition(db: Db, id: JobId, state: JobState, code: Option<string>, at: int): Result<Db, StoreError> {
    if id !in db.jobs then Failure(JobNotFound)
    else
      var current := db.jobs[id];
      if current.state.Terminal() then
        if current.state == state then Success(db) else Failure(TerminalJob)
      else if !(state.Cancelled? || state.Failed? || (state.Running? && current.state.Queued?)) then
        Failure(InvalidTransition)
      else Success(Moved(db, id, current.(state := state, updated := at, error := code), code))
  }

  function Publish(db: Db, id: JobId, evidence: Evidence, at: int): Result<Db, StoreError> {
    if evidence.size > MAX_EVIDENCE_BYTES then Failure(EvidenceLimit)
    else if id !in db.jobs then Failure(JobNotFound)
    else if !db.jobs[id].state.Running? || id.requestHash != evidence.requestHash then Failure(PublicationConflict)
    else
      Success(Moved(db, id, db.jobs[id].(state := Succeeded, updated := at, evidence := Some(evidence.hash)), None))
  }

  predicate Bound(db: Db, key: Key) {
    exists id :: id in db.jobs && id.keyHash == key.hash
  }

  ghost function Holder(db: Db, key: Key): (id: JobId)
    requires Bound(db, key)
    ensures id in db.jobs && id.keyHash == key.hash
  {
    var id :| id in db.jobs && id.keyHash == key.hash;
    id
  }

  ghost function Lookup(db: Db, request: nat, key: Key): Result<Option<JobId>, StoreError> {
    if !key.wellFormed then Failure(IdempotencyKey)
    else if !Bound(db, key) then Success(None)
    else if Holder(db, key).requestHash != request then Failure(IdempotencyConflict)
    else Success(Some(Holder(db, key)))
  }

  /** The database, the job of this request, and whether it was created now. */
  ghost function Submit(db: Db, request: nat, key: Key, at: int): Result<(Db, JobId, bool), StoreError> {
    var existing :- Lookup(db, request, key);
    if existing.Some? then Success((db, existing.value, false))
    else if |db.jobs| >= MAX_JOBS || |Pending(db.jobs)| >= MAX_PENDING then Failure(QueueCapacity)
    else
      var id := JobId(key.hash, request);
      Success((Moved(db, id, Job(Queued, at, at, None, None), None), id, true))
  }

  /** Fails every unfinished job among ids, in order. */
  function FailEach(db: Db, ids: seq<JobId>, code: string, at: int): Db {
    if ids == [] then db
    else
      var prior := FailEach(db, ids[..|ids| - 1], code, at);
      var id := ids[|ids| - 1];
      if id in prior.jobs && !prior.jobs[id].state.Terminal()
      then Moved(prior, id, prior.jobs[id].(state := Failed, updated := at, error := Some(code)), Some(code))
      else prior
  }

  // ----- what every reachable database satisfies -----

  /** The audited states of one job, oldest first. */
  function Trail(audit: seq<AuditEvent>, id: JobId): seq<JobState> {
    if audit == [] then []
    else
      var last := audit[|audit| - 1];
      Trail(audit[..|audit| - 1], id) + (if last.job == id then [last.state] else [])
  }

  /** Queued, then perhaps running, then at most one terminal state; success only after running. */
  predicate LifePath(path: seq<JobState>) {
    && 1 <= |path| <= 3 && path[0].Queued?
    && (|path| == 2 ==> path[1].Running? || path[1].Failed? || path[1].Cancelled?)
    && (|path| == 3 ==> path[1].Running? && path[2].Terminal())
  }

  predicate EndsIn(path: seq<JobState>, state: JobState) {
    LifePath(path) && path[|path| - 1] == state
  }

  /** A job's trail is a life path ending in its stored state; other identities have no trail. */
  ghost predicate TrailMatches(db: Db, id: JobId) {
    if id in db.jobs then EndsIn(Trail(db.audit, id), db.jobs[id].state) else Trail(db.audit, id) == []
  }

  ghost predicate Audited(db: Db) {
    forall id :: TrailMatches(db, id)
  }

  ghost predicate Within(db: Db) {
    && |db.jobs| <= MAX_JOBS && |Pending(db.jobs)| <= MAX_PENDING
    && (forall id :: id in db.jobs ==> db.jobs[id].Coherent())
    && (forall a, b :: a in db.jobs && b in db.jobs && a.keyHash == b.keyHash ==> a == b)
  }

  ghost predicate DbValid(db: Db) {
    Audited(db) && Within(db)
  }

  /** A job never disappears, and once finished it keeps its row and its trail. */
  ghost predicate FrozenAt(before: Db, after: Db, id: JobId) {
    id in before.jobs ==>
      && id in after.jobs
      && (before.jobs[id].state.Terminal() ==>
            after.jobs[id] == before.jobs[id] && Trail(after.audit, id) == Trail(before.audit, id))
  }

  ghost predicate Frozen(before: Db, after: Db) {
    forall id :: FrozenAt(before, after, id)
  }

  /** One job changed state and nothing else did. */
  predicate OnlyMoved(before: Db, after: Db, id: JobId, state: JobState) {
    && id in before.jobs && after.jobs.Keys == before.jobs.Keys
    && after.jobs[id].state == state
    && (forall x :: x in before.jobs && x != id ==> after.jobs[x] == before.jobs[x])
  }

  lemma MovedTrail(db: Db, id: JobId, job: Job, code: Option<string>, x: JobId)
    ensures Trail(Moved(db, id, job, code).audit, x) ==
      Trail(db.audit, x) + (if x == id then [job.state] else [])
  {
    var event := AuditEvent(id, job.state, job.updated, code);
    assert (db.audit + [event])[..|db.audit|] == db.audit;
  }

  /** The steps a job may take: start when queued, succeed when running, or be cut short. */
  predicate Follows(before: Job, after: Job) {
    && !before.state.Terminal() && after.created == before.created && after.Coherent()
    && (after.state.Running? ==> before.state.Queued?)
    && (after.state.Succeeded? ==> before.state.Running?)
    && !after.state.Queued?
  }

  lemma PathExtends(path: seq<JobState>, before: Job, after: Job)
    requires EndsIn(path, before.state) && Follows(before, after)
    ensures EndsIn(path + [after.state], after.state)
  {
  }

  lemma MoveKeeps(db: Db, id: JobId, job: Job, code: Option<string>)
    requires DbValid(db) && id in db.jobs && Follows(db.jobs[id], job)
    ensures DbValid(Moved(db, id, job, code)) && Frozen(db, Moved(db, id, job, code))
  {
    var after := Moved(db, id, job, code);
    forall x ensures TrailMatches(after, x) && FrozenAt(db, after, x) {
      MovedTrail(db, id, job, code, x);
      assert TrailMatches(db, x);
      if x == id {
        PathExtends(Trail(db.audit, x), db.jobs[id], job);
      }
    }
    MoveWithin(db.jobs, id, job);
  }

  lemma MoveWithin(jobs: map<JobId, Job>, id: JobId, job: Job)
    requires id in jobs && !jobs[id].state.Terminal()
    ensures |jobs[id := job]| == |jobs| && |Pending(jobs[id := job])| <= |Pending(jobs)|
  {
    assert jobs[id := job].Keys == jobs.Keys;
    assert |jobs[id := job]| == |jobs[id := job].Keys| == |jobs.Keys|;
    PendingShrinks(jobs, jobs[id := job]);
  }

  lemma PendingShrinks(before: map<JobId, Job>, after: map<JobId, Job>)
    requires Pending(after) <= Pending(before)
    ensures |Pending(after)| <= |Pending(before)|
  {
    SubsetSize(Pending(after), Pending(before));
  }

  lemma {:induction false} SubsetSize<T>(a: set<T>, b: set<T>)
    requires a <= b
    ensures |a| <= |b|
  {
    if a != {} {
      var x :| x in a;
      SubsetSize(a - {x}, b - {x});
    }
  }

  /** Every transition the store permits keeps audit, bounds and row coherence, and freezes finished jobs. */
  lemma TransitionKeeps(db: Db, id: JobId, state: JobState, code: Option<string>, at: int)
    requires DbValid(db) && (state.Running? ==> code.None?)
    ensures var r := Transition(db, id, state, code, at);
      r.Success? ==> DbValid(r.value) && Frozen(db, r.value) && OnlyMoved(db, r.value, id, state)
    ensures var r := Transition(db, id, state, code, at);
      r.Success? && !db.jobs[id].state.Terminal() ==>
        && r.value.jobs[id].updated == at && r.value.jobs[id].error == code
        && r.value.jobs[id].created == db.jobs[id].created && r.value.jobs[id].evidence == db.jobs[id].evidence
        && r.value.audit == db.audit + [AuditEvent(id, state, at, code)]
  {
    var r := Transition(db, id, state, code, at);
    if r.Success? && !db.jobs[id].state.Terminal() {
      MoveKeeps(db, id, db.jobs[id].(state := state, updated := at, error := code), code);
    }
  }

  lemma PublishKeeps(db: Db, id: JobId, evidence: Evidence, at: int)
    requires DbValid(db)
    ensures var r := Publish(db, id, evidence, at);
      && (r.Success? ==> DbValid(r.value) && Frozen(db, r.value) && OnlyMoved(db, r.value, id, Succeeded))
    ensures var r := Publish(db, id, evidence, at);
      r.Success? ==>
        && r.value.jobs[id].evidence == Some(evidence.hash) && r.value.jobs[id].updated == at
        && r.value.jobs[id].created == db.jobs[id].created && r.value.jobs[id].error.None?
        && r.value.audit == db.audit + [AuditEvent(id, Succeeded, at, None)]
  {
    var r := Publish(db, id, evidence, at);
    if r.Success? {
      MoveKeeps(db, id, db.jobs[id].(state := Succeeded, updated := at, evidence := Some(evidence.hash)), None);
    }
  }

  /**
   * The store permits exactly the steps that leave a job's trail a life path, other than success,
   * which only a publication brings; a finished job may only be told its own state again.
   */
  lemma TransitionPermits(db: Db, id: JobId, state: JobState, code: Option<string>, at: int)
    requires DbValid(db)
    ensures var r := Transition(db, id, state, code, at);
      && (id !in db.jobs <==> r == Failure(JobNotFound))
      && (id in db.jobs && db.jobs[id].state.Terminal() ==>
            r == if state == db.jobs[id].state then Success(db) else Failure(TerminalJob))
      && (id in db.jobs && !db.jobs[id].state.Terminal() ==>
            && (r.Success? <==> !state.Succeeded? && EndsIn(Trail(db.audit, id) + [state], state))
            && (r.Failure? ==> r.error.InvalidTransition?))
  {
    assert TrailMatches(db, id);
  }

  /** Evidence is accepted exactly for a running job, with its own request's digest, within four mebibytes. */
  lemma PublishAccepts(db: Db, id: JobId, evidence: Evidence, at: int)
    ensures var r := Publish(db, id, evidence, at);
      && (r.Success? <==>
            && evidence.size <= 4_194_304 && id in db.jobs && db.jobs[id].state == Running
            && evidence.requestHash == id.requestHash)
      && (r == Failure(EvidenceLimit) <==> evidence.size > 4_194_304)
      && (r == Failure(JobNotFound) <==> evidence.size <= 4_194_304 && id !in db.jobs)
      && (r.Failure? ==> r.error.EvidenceLimit? || r.error.JobNotFound? || r.error.PublicationConflict?)
  {
  }

  /** A key finds its job, conflicts with another request, or is free; a malformed key is refused first. */
  lemma LookupMeans(db: Db, request: nat, key: Key)
    requires DbValid(db)
    ensures var r := Lookup(db, request, key);
      && (!key.wellFormed <==> r == Failure(IdempotencyKey))
      && (forall id :: r == Success(Some(id)) <==>
            key.wellFormed && id == JobId(key.hash, request) && id in db.jobs)
      && (r == Failure(IdempotencyConflict) <==>
            key.wellFormed && exists id :: id in db.jobs && id.keyHash == key.hash && id.requestHash != request)
      && (r == Success(None) <==> key.wellFormed && forall id :: id in db.jobs ==> id.keyHash != key.hash)
  {
  }

  /** A new job is refused exactly when the store holds 64, or eight of them are unfinished. */
  lemma SubmitAccepts(db: Db, request: nat, key: Key, at: int)
    requires DbValid(db) && key.wellFormed && forall id :: id in db.jobs ==> id.keyHash != key.hash
    ensures var r := Submit(db, request, key, at);
      && (r.Success? <==> |db.jobs| < 64 && |set id | id in db.jobs && !db.jobs[id].state.Terminal()| < 8)
      && (r.Failure? ==> r.error.QueueCapacity?)
      && (r.Success? ==> r.value.2 && r.value.0.audit == db.audit + [AuditEvent(r.value.1, Queued, at, None)])
  {
    assert Pending(db.jobs) == set id | id in db.jobs && !db.jobs[id].state.Terminal();
  }

  lemma SubmitKeeps(db: Db, request: nat, key: Key, at: int)
    requires DbValid(db)
    ensures var r := Submit(db, request, key, at);
      r.Success? ==>
        && DbValid(r.value.0) && Frozen(db, r.value.0)
        && r.value.1 == JobId(key.hash, request) && r.value.1 in r.value.0.jobs
        && (r.value.2 <==> r.value.1 !in db.jobs)
        && (r.value.2 ==> r.value.0.jobs == db.jobs[r.value.1 := Job(Queued, at, at, None, None)])
        && (!r.value.2 ==> r.value.0 == db)
  {
    var r := Submit(db, request, key, at);
    if r.Success? && r.value.2 {
      InsertKeeps(db, key.hash, request, at);
    }
  }

  lemma InsertKeeps(db: Db, keyHash: nat, request: nat, at: int)
    requires DbValid(db) && |db.jobs| < MAX_JOBS && |Pending(db.jobs)| < MAX_PENDING
    requires forall id :: id in db.jobs ==> id.keyHash != keyHash
    ensures var after := Moved(db, JobId(keyHash, request), Job(Queued, at, at, None, None), None);
      DbValid(after) && Frozen(db, after)
  {
    var id, job := JobId(keyHash, request), Job(Queued, at, at, None, None);
    var after := Moved(db, id, job, None);
    forall x ensures TrailMatches(after, x) && FrozenAt(db, after, x) {
      MovedTrail(db, id, job, None, x);
      assert TrailMatches(db, x);
    }
    InsertWithin(db.jobs, id, job);
  }

  lemma InsertWithin(jobs: map<JobId, Job>, id: JobId, job: Job)
    requires id !in jobs && !job.state.Terminal()
    ensures |jobs[id := job]| == |jobs| + 1 && |Pending(jobs[id := job])| == |Pending(jobs)| + 1
  {
    assert jobs[id := job].Keys == jobs.Keys + {id};
    assert Pending(jobs[id := job]) == Pending(jobs) + {id};
    assert |jobs[id := job]| == |jobs[id := job].Keys| == |jobs.Keys| + 1;
  }

  lemma SelfFrozen(db: Db)
    ensures Frozen(db, db)
  {
    forall x ensures FrozenAt(db, db, x) {
    }
  }

  lemma FrozenTransitive(a: Db, b: Db, c: Db)
    requires Frozen(a, b) && Frozen(b, c)
    ensures Frozen(a, c)
  {
    forall id ensures FrozenAt(a, c, id) {
      assert FrozenAt(a, b, id) && FrozenAt(b, c, id);
    }
  }

  lemma {:induction false} FailEachKeeps(db: Db, ids: seq<JobId>, code: string, at: int)
    requires DbValid(db)
    ensures var after := FailEach(db, ids, code, at);
      && DbValid(after) && Frozen(db, after) && after.jobs.Keys == db.jobs.Keys
      && (forall id :: id in db.jobs && id in ids ==> after.jobs[id].state.Terminal())
      && (forall id :: id in db.jobs && id in ids && !db.jobs[id].state.Terminal() ==>
            after.jobs[id] == Job(Failed, db.jobs[id].created, at, Some(code), db.jobs[id].evidence))
      && (forall id :: id in db.jobs && id !in ids ==> after.jobs[id] == db.jobs[id])
  {
    if ids != [] {
      var prior := FailEach(db, ids[..|ids| - 1], code, at);
      FailEachKeeps(db, ids[..|ids| - 1], code, at);
      var id := ids[|ids| - 1];
      assert ids == ids[..|ids| - 1] + [id];
      if id in prior.jobs && !prior.jobs[id].state.Terminal() {
        var job := prior.jobs[id].(state := Failed, updated := at, error := Some(code));
        MoveKeeps(prior, id, job, Some(code));
        FrozenTransitive(db, prior, Moved(prior, id, job, Some(code)));
      }
    }
  }
}
