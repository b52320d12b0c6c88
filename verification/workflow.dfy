/**
 * The client's preflight and submission machine (apps/nexus/src/workflow.ts), the effects that
 * drive it (useWorkstation.ts), and the job store at the other end of a lossy connection. A
 * research request stands for its own canonical digest.
 */
module Workflows {
  import opened Basics
  import opened JobStore

  type Request = nat

  /** What the server says about a request; the digest it names is not trusted. */
  datatype Validation = Validation(requestHash: nat, detail: nat)

  datatype Workflow =
    | Editing(revision: nat)
    | Validating(revision: nat, request: Request)
    | Validated(revision: nat, request: Request, validation: Validation)
    | Submitting(revision: nat, request: Request, validation: Validation, key: Key)
    | Uncertain(revision: nat, request: Request, validation: Validation, key: Key)
    | Submitted(revision: nat, job: JobId)
  {
    /** A submission whose outcome is not known yet. */
    predicate Open() {
      Submitting? || Uncertain?
    }
  }

  datatype Event =
    | Edit
    | Validate(request: Request)
    | ValidationArrived(revision: nat, validation: Validation)
    | ValidationFailed(revision: nat)
    | Submit(key: Key)
    | SubmissionUnknown
    | RetrySubmission
    | SubmissionConfirmed(job: JobId)

  const INITIAL := Editing(0)

  /** The reducer: invalid and stale events are inert. */
  function Transition(state: Workflow, event: Event): Workflow {
    match event
    case Edit => if state.Open() then state else Editing(state.revision + 1)
    case Validate(request) => if state.Editing? then Validating(state.revision, request) else state
    case ValidationArrived(revision, validation) =>
      if state.Validating? && state.revision == revision
      then Validated(state.revision, state.request, validation)
      else state
    case ValidationFailed(revision) =>
      if state.Validating? && state.revision == revision then Editing(state.revision) else state
    case Submit(key) =>
      if state.Validated? then Submitting(state.revision, state.request, state.validation, key) else state
    case SubmissionUnknown =>
      if state.Submitting? then Uncertain(state.revision, state.request, state.validation, state.key) else state
    case RetrySubmission =>
      if state.Uncertain? then Submitting(state.revision, state.request, state.validation, state.key) else state
    case SubmissionConfirmed(job) =>
      if state.Submitting? && state.validation.requestHash == job.requestHash
      then Submitted(state.revision, job)
      else state
  }

  // ----- the effects, the connection and the server -----

  /** The one operation in progress; the buttons are disabled while there is one. */
  datatype Effect =
    | Preflight(revision: nat, request: Request)
    | Submission(request: Request, key: Key, expected: nat)

  datatype Post = Post(submission: nat, key: Key, request: Request)

  /**
   * posts are all POSTs ever sent: each may reach the server at any later time, any number of
   * times, or never. replies are the answers the server gave. The rest is history: how many submit
   * events and confirmations there were, how many open submissions a reload of the page dropped, and
   * every preflight answer with the request it answers.
   */
  datatype State = State(
    db: Db, workflow: Workflow, draft: Request, busy: Option<Effect>,
    posts: seq<Post>, replies: set<(Key, JobId)>,
    submissions: nat, confirmed: nat, abandoned: nat, answers: set<(Request, Validation)>)

  datatype Action =
    | TypeDraft(draft: Request)
    | LoadCatalog(draft: Request)
    | Reload(draft: Request)
    | ClickValidate
    | ValidateReturns(validation: Validation)
    | ValidateFails
    | ClickSubmit(uuid: Key)
    | SendPost
    | SubmitReturns(job: JobId)
    | SubmitFails
    | Abandon
    | Arrive(which: nat, at: int)
    | OthersSubmit(request: Request, key: Key, at: int)
    | ServerMoves(next: Db)

  function Init(db: Db): State {
    State(db, INITIAL, 0, None, [], {}, 0, 0, 0, {})
  }

  /** The key has never been seen, by this client or by the server. */
  predicate Fresh(s: State, key: Key) {
    && key.wellFormed
    && (forall i :: 0 <= i < |s.posts| ==> s.posts[i].key.hash != key.hash)
    && (forall id :: id in s.db.jobs ==> id.keyHash != key.hash)
    && (s.workflow.Open() ==> s.workflow.key.hash != key.hash)
  }

  ghost predicate Enabled(s: State, a: Action) {
    match a
    case TypeDraft(_) => true
    case LoadCatalog(_) => true
    case Reload(_) => true
    case ClickValidate => s.busy.None? && s.workflow.Editing?
    case ValidateReturns(_) => s.busy.Some? && s.busy.value.Preflight?
    case ValidateFails => s.busy.Some? && s.busy.value.Preflight?
    case ClickSubmit(uuid) => s.busy.None? && (s.workflow.Validated? || s.workflow.Uncertain?) && Fresh(s, uuid)
    case SendPost => s.busy.Some? && s.busy.value.Submission?
    case SubmitReturns(job) =>
      s.busy.Some? && s.busy.value.Submission? && (s.busy.value.key, job) in s.replies
    case SubmitFails => s.busy.Some? && s.busy.value.Submission?
    case Abandon => s.busy.Some?
    case Arrive(which, _) => which < |s.posts|
    case OthersSubmit(_, key, _) =>
      && (forall i :: 0 <= i < |s.posts| ==> s.posts[i].key.hash != key.hash)
      && (s.workflow.Open() ==> s.workflow.key.hash != key.hash)
    case ServerMoves(next) => DbValid(next) && Frozen(s.db, next) && next.jobs.Keys == s.db.jobs.Keys
  }

  /** submit dispatches, then calls the client with what it read before the dispatch. */
  function BeginSubmission(s: State, uuid: Key): State
    requires s.workflow.Validated? || s.workflow.Uncertain?
  {
    var key := if s.workflow.Uncertain? then s.workflow.key else uuid;
    var event := if s.workflow.Uncertain? then RetrySubmission else Submit(key);
    s.(workflow := Transition(s.workflow, event),
       busy := Some(Submission(s.workflow.request, key, s.workflow.validation.requestHash)),
       submissions := s.submissions + (if s.workflow.Uncertain? then 0 else 1))
  }

  /** A job of another identity than the preflight's is an invalid response. */
  function EndSubmission(s: State, job: JobId): State
    requires s.busy.Some? && s.busy.value.Submission?
  {
    if job.requestHash != s.busy.value.expected
    then s.(workflow := Transition(s.workflow, SubmissionUnknown), busy := None)
    else
      var after := Transition(s.workflow, SubmissionConfirmed(job));
      s.(workflow := after, busy := None,
         confirmed := s.confirmed + (if s.workflow.Submitting? && after.Submitted? then 1 else 0))
  }

  /** The machine lives in the page: a reload starts it over, whatever was open. */
  function Reloaded(s: State, draft: Request): State {
    s.(workflow := INITIAL, draft := draft, busy := None,
       abandoned := s.abandoned + (if s.workflow.Open() then 1 else 0))
  }

  ghost function Received(s: State, post: Post, at: int): State {
    var r := JobStore.Submit(s.db, post.request, post.key, at);
    if r.Success? then s.(db := r.value.0, replies := s.replies + {(post.key, r.value.1)}) else s
  }

  ghost function Apply(s: State, a: Action): State
    requires Enabled(s, a)
  {
    match a
    case TypeDraft(draft) => s.(draft := draft, workflow := Transition(s.workflow, Edit))
    case LoadCatalog(draft) => s.(draft := draft)
    case Reload(draft) => Reloaded(s, draft)
    case ClickValidate =>
      s.(workflow := Transition(s.workflow, Validate(s.draft)), busy := Some(Preflight(s.workflow.revision, s.draft)))
    case ValidateReturns(validation) =>
      s.(workflow := Transition(s.workflow, ValidationArrived(s.busy.value.revision, validation)), busy := None,
         answers := s.answers + {(s.busy.value.request, validation)})
    case ValidateFails =>
      s.(workflow := Transition(s.workflow, ValidationFailed(s.busy.value.revision)), busy := None)
    case ClickSubmit(uuid) => BeginSubmission(s, uuid)
    case SendPost => s.(posts := s.posts + [Post(s.submissions, s.busy.value.key, s.busy.value.request)])
    case SubmitReturns(job) => EndSubmission(s, job)
    case SubmitFails => s.(workflow := Transition(s.workflow, SubmissionUnknown), busy := None)
    case Abandon => s.(busy := None)
    case Arrive(which, at) => Received(s, s.posts[which], at)
    case OthersSubmit(request, key, at) =>
      var r := JobStore.Submit(s.db, request, key, at);
      if r.Success? then s.(db := r.value.0) else s
    case ServerMoves(next) => s.(db := next)
  }

  ghost predicate Legal(s: State, script: seq<Action>)
    decreases |script|
  {
    script != [] ==> Enabled(s, script[0]) && Legal(Apply(s, script[0]), script[1..])
  }

  ghost function Run(s: State, script: seq<Action>): State
    requires Legal(s, script)
    decreases |script|
  {
    if script == [] then s else Run(Apply(s, script[0]), script[1..])
  }

  lemma {:induction false} RunAppend(s: State, script: seq<Action>, a: Action)
    requires Legal(s, script) && Enabled(Run(s, script), a)
    ensures Legal(s, script + [a]) && Run(s, script + [a]) == Apply(Run(s, script), a)
    decreases |script|
  {
    if script == [] {
      assert [a][1..] == [];
    } else {
      assert (script + [a])[1..] == script[1..] + [a];
      RunAppend(Apply(s, script[0]), script[1..], a);
    }
  }

  lemma NoActions(s: State)
    ensures Legal(s, []) && Run(s, []) == s
  {
  }

  lemma {:induction false} RunConcat(s: State, script: seq<Action>, more: seq<Action>)
    requires Legal(s, script) && Legal(Run(s, script), more)
    ensures Legal(s, script + more) && Run(s, script + more) == Run(Run(s, script), more)
    decreases |script|
  {
    if script == [] {
      assert script + more == more;
    } else {
      assert (script + more)[1..] == script[1..] + more;
      RunConcat(Apply(s, script[0]), script[1..], more);
    }
  }

  // ----- what every run keeps -----

  /** POSTs of one submission are the same; different submissions have different keys. */
  ghost predicate Uniform(posts: seq<Post>) {
    && (forall i, j :: 0 <= i < |posts| && 0 <= j < |posts| && posts[i].submission == posts[j].submission ==>
          posts[i] == posts[j])
    && (forall i, j :: 0 <= i < |posts| && 0 <= j < |posts| && posts[i].key.hash == posts[j].key.hash ==>
          posts[i].submission == posts[j].submission)
    && (forall i :: 0 <= i < |posts| ==> posts[i].key.wellFormed)
  }

  /** The open submission is the latest one, and its POSTs carry its key and request. */
  ghost predicate OpenMatches(s: State) {
    && (forall i :: 0 <= i < |s.posts| ==> 1 <= s.posts[i].submission <= s.submissions)
    && (s.workflow.Open() ==>
          && s.workflow.key.wellFormed && 1 <= s.submissions
          && (forall i :: 0 <= i < |s.posts| ==>
                (s.posts[i].submission == s.submissions <==> s.posts[i].key.hash == s.workflow.key.hash)
                && (s.posts[i].submission == s.submissions ==>
                      s.posts[i] == Post(s.submissions, s.workflow.key, s.workflow.request))))
    && (s.busy.Some? && s.busy.value.Submission? ==>
          && s.workflow.Submitting?
          && s.busy.value == Submission(s.workflow.request, s.workflow.key, s.workflow.validation.requestHash))
    && s.submissions == s.confirmed + s.abandoned + (if s.workflow.Open() then 1 else 0)
  }

  /** The server's jobs under one of this client's keys come from one of its POSTs. */
  ghost predicate JobsMatch(s: State) {
    && DbValid(s.db)
    && (forall id, i :: id in s.db.jobs && 0 <= i < |s.posts| && id.keyHash == s.posts[i].key.hash ==>
          id.requestHash == s.posts[i].request)
    && (s.workflow.Open() ==> forall id :: id in s.db.jobs && id.keyHash == s.workflow.key.hash ==>
          exists i :: 0 <= i < |s.posts| && s.posts[i].key.hash == id.keyHash)
    && (forall r :: r in s.replies ==>
          && r.1 in s.db.jobs && r.1.keyHash == r.0.hash
          && exists i :: 0 <= i < |s.posts| && s.posts[i].key == r.0)
  }

  ghost predicate ValidationMatches(s: State) {
    && (s.workflow.Validating? && s.busy.Some? ==>
          s.busy.value == Preflight(s.workflow.revision, s.workflow.request))
    && (s.busy.Some? && s.busy.value.Preflight? ==>
          s.busy.value.revision <= s.workflow.revision && !s.workflow.Open())
    && (s.workflow.Validated? || s.workflow.Open() ==>
          (s.workflow.request, s.workflow.validation) in s.answers)
    && (s.workflow.Submitted? ==>
          && s.workflow.job in s.db.jobs
          && exists i :: 0 <= i < |s.posts| && s.posts[i].submission == s.submissions
                         && s.workflow.job == JobId(s.posts[i].key.hash, s.posts[i].request))
  }

  ghost predicate Invariant(s: State) {
    Uniform(s.posts) && OpenMatches(s) && JobsMatch(s) && ValidationMatches(s)
  }

  lemma StepLocal(s: State, a: Action)
    requires Invariant(s) && Enabled(s, a)
    requires a.TypeDraft? || a.LoadCatalog? || a.Reload? || a.ClickValidate? || a.ValidateReturns? || a.ValidateFails?
          || a.SubmitFails? || a.Abandon?
    ensures Invariant(Apply(s, a))
  {
  }

  lemma StepServerMoves(s: State, next: Db)
    requires Invariant(s) && Enabled(s, ServerMoves(next))
    ensures Invariant(Apply(s, ServerMoves(next)))
  {
  }

  lemma StepClickSubmit(s: State, uuid: Key)
    requires Invariant(s) && Enabled(s, ClickSubmit(uuid))
    ensures Invariant(Apply(s, ClickSubmit(uuid)))
  {
  }

  lemma SendPostUniform(s: State)
    requires Invariant(s) && Enabled(s, SendPost)
    ensures Uniform(Apply(s, SendPost).posts) && OpenMatches(Apply(s, SendPost))
  {
    hide JobsMatch, ValidationMatches;
    assert Apply(s, SendPost).posts == s.posts + [Post(s.submissions, s.workflow.key, s.workflow.request)];
  }

  lemma SendPostJobs(s: State)
    requires Invariant(s) && Enabled(s, SendPost)
    ensures JobsMatch(Apply(s, SendPost))
  {
    var next := Apply(s, SendPost);
    assert forall i :: 0 <= i < |s.posts| ==> next.posts[i] == s.posts[i];
    forall id | id in s.db.jobs && id.keyHash == s.workflow.key.hash ensures id.requestHash == s.workflow.request {
      var i :| 0 <= i < |s.posts| && s.posts[i].key.hash == id.keyHash;
      assert s.posts[i].submission == s.submissions;
    }
    assert next.posts[|s.posts|].key.hash == s.workflow.key.hash;
    forall r | r in s.replies ensures exists i :: 0 <= i < |next.posts| && next.posts[i].key == r.0 {
      var i :| 0 <= i < |s.posts| && s.posts[i].key == r.0;
      assert next.posts[i].key == r.0;
    }
  }

  lemma StepSendPost(s: State)
    requires Invariant(s) && Enabled(s, SendPost)
    ensures Invariant(Apply(s, SendPost))
  {
    SendPostUniform(s);
    SendPostJobs(s);
  }

  lemma StepSubmitReturns(s: State, job: JobId)
    requires Invariant(s) && Enabled(s, SubmitReturns(job))
    ensures Invariant(Apply(s, SubmitReturns(job)))
  {
    hide DbValid, Uniform;
    var next := Apply(s, SubmitReturns(job));
    assert next.posts == s.posts && next.db == s.db && next.replies == s.replies;
    ReplyIsOurs(s, job);
  }

  /** An answer to the open submission is the job of its key and request. */
  lemma ReplyIsOurs(s: State, job: JobId)
    requires Invariant(s) && Enabled(s, SubmitReturns(job))
    ensures job in s.db.jobs && job == JobId(s.workflow.key.hash, s.workflow.request)
    ensures exists i :: 0 <= i < |s.posts| && s.posts[i] == Post(s.submissions, s.workflow.key, s.workflow.request)
  {
    var i :| 0 <= i < |s.posts| && s.posts[i].key == s.busy.value.key;
    assert s.posts[i].submission == s.submissions;
  }

  lemma StepArrive(s: State, which: nat, at: int)
    requires Invariant(s) && Enabled(s, Arrive(which, at))
    ensures Invariant(Apply(s, Arrive(which, at)))
  {
    hide DbValid, JobStore.Submit, Frozen;
    var post := s.posts[which];
    SubmitKeeps(s.db, post.request, post.key, at);
  }

  lemma StepOthers(s: State, request: Request, key: Key, at: int)
    requires Invariant(s) && Enabled(s, OthersSubmit(request, key, at))
    ensures Invariant(Apply(s, OthersSubmit(request, key, at)))
  {
    SubmitKeeps(s.db, request, key, at);
  }

  lemma StepKeeps(s: State, a: Action)
    requires Invariant(s) && Enabled(s, a)
    ensures Invariant(Apply(s, a))
  {
    match a
    case ClickSubmit(uuid) => StepClickSubmit(s, uuid);
    case SendPost => StepSendPost(s);
    case SubmitReturns(job) => StepSubmitReturns(s, job);
    case Arrive(which, at) => StepArrive(s, which, at);
    case OthersSubmit(request, key, at) => StepOthers(s, request, key, at);
    case ServerMoves(next) => StepServerMoves(s, next);
    case _ => StepLocal(s, a);
  }

  lemma {:induction false} RunKeeps(s: State, script: seq<Action>)
    requires Invariant(s) && Legal(s, script)
    ensures Invariant(Run(s, script))
    decreases |script|
  {
    if script != [] {
      StepKeeps(s, script[0]);
      RunKeeps(Apply(s, script[0]), script[1..]);
    }
  }

  lemma Reached(db: Db, script: seq<Action>)
    requires DbValid(db) && Legal(Init(db), script)
    ensures Invariant(Run(Init(db), script))
  {
    RunKeeps(Init(db), script);
  }

  // ----- end to end -----

  /** Between submit and confirmation every POST carries one key and one request, and keys are never shared. */
  lemma OneKeyPerSubmission(db: Db, script: seq<Action>, i: nat, j: nat)
    requires DbValid(db) && Legal(Init(db), script)
    requires i < |Run(Init(db), script).posts| && j < |Run(Init(db), script).posts|
    ensures var posts := Run(Init(db), script).posts;
      && (posts[i].submission == posts[j].submission ==>
            posts[i].key == posts[j].key && posts[i].request == posts[j].request)
      && (posts[i].key.hash == posts[j].key.hash ==> posts[i].submission == posts[j].submission)
  {
    Reached(db, script);
  }

  /** An open submission keeps its request, preflight and key until it is confirmed, or the page reloads. */
  ghost predicate Kept(s: State, t: State) {
    s.workflow.Open() && t.confirmed == s.confirmed && t.abandoned == s.abandoned ==>
      && t.workflow.Open() && t.submissions == s.submissions
      && t.workflow.request == s.workflow.request && t.workflow.key == s.workflow.key
      && t.workflow.validation == s.workflow.validation
  }

  lemma StepKept(s: State, a: Action)
    requires Enabled(s, a)
    ensures var t := Apply(s, a); Kept(s, t) && t.confirmed >= s.confirmed && t.abandoned >= s.abandoned
    ensures Apply(s, a).abandoned > s.abandoned <==> a.Reload? && s.workflow.Open()
  {
  }

  /** No edit, failure, retry or server restart in between makes the page draw a fresh key. */
  lemma {:induction false} AmbiguityKeepsItsKey(s: State, script: seq<Action>)
    requires Legal(s, script)
    ensures var t := Run(s, script); Kept(s, t) && t.confirmed >= s.confirmed && t.abandoned >= s.abandoned
    decreases |script|
  {
    if script != [] {
      StepKept(s, script[0]);
      AmbiguityKeepsItsKey(Apply(s, script[0]), script[1..]);
    }
  }

  /** Every submit event but the open one has been confirmed, or was dropped by a reload while it was open. */
  lemma SubmissionsAreConfirmed(db: Db, script: seq<Action>)
    requires DbValid(db) && Legal(Init(db), script)
    ensures var s := Run(Init(db), script);
      s.submissions == s.confirmed + s.abandoned + (if s.workflow.Open() then 1 else 0)
  {
    Reached(db, script);
  }

  /** The server's jobs that carry the key of one of the first n submissions. */
  ghost function JobsOf(s: State, n: nat): (ids: set<JobId>)
    ensures ids <= s.db.jobs.Keys
  {
    set id | id in s.db.jobs
             && exists i :: 0 <= i < |s.posts| && s.posts[i].key.hash == id.keyHash && s.posts[i].submission <= n
  }

  lemma OneMoreSubmission(s: State, n: nat)
    requires Invariant(s)
    ensures |JobsOf(s, n + 1)| <= |JobsOf(s, n)| + 1
  {
    hide OpenMatches, ValidationMatches;
    if JobsOf(s, n + 1) <= JobsOf(s, n) {
      SubsetSize(JobsOf(s, n + 1), JobsOf(s, n));
    } else {
      var x :| x in JobsOf(s, n + 1) && x !in JobsOf(s, n);
      forall y | y in JobsOf(s, n + 1) && y !in JobsOf(s, n) ensures y == x {
        var i :| 0 <= i < |s.posts| && s.posts[i].key.hash == x.keyHash && s.posts[i].submission <= n + 1;
        var j :| 0 <= j < |s.posts| && s.posts[j].key.hash == y.keyHash && s.posts[j].submission <= n + 1;
        assert s.posts[i].submission == n + 1 == s.posts[j].submission;
      }
      SubsetSize(JobsOf(s, n + 1), JobsOf(s, n) + {x});
    }
  }

  lemma {:induction false} JobsPerSubmission(s: State, n: nat)
    requires Invariant(s)
    ensures |JobsOf(s, n)| <= n
  {
    if n == 0 {
      assert JobsOf(s, 0) == {};
    } else {
      JobsPerSubmission(s, n - 1);
      OneMoreSubmission(s, n - 1);
    }
  }

  /**
   * However POSTs are lost, delayed or repeated and the server restarts, one submit event has at
   * most one job, and there are never more of this client's jobs than submit events.
   */
  lemma AtMostOneJobPerSubmission(db: Db, script: seq<Action>, a: JobId, b: JobId, i: nat, j: nat)
    requires DbValid(db) && Legal(Init(db), script)
    ensures var s := Run(Init(db), script);
      && |JobsOf(s, s.submissions)| <= s.submissions
      && (i < |s.posts| && j < |s.posts| && s.posts[i].submission == s.posts[j].submission
          && a in s.db.jobs && b in s.db.jobs
          && a.keyHash == s.posts[i].key.hash && b.keyHash == s.posts[j].key.hash ==>
            a == b && a.requestHash == s.posts[i].request)
  {
    Reached(db, script);
    JobsPerSubmission(Run(Init(db), script), Run(Init(db), script).submissions);
  }

  /** What the client shows as submitted is the server's job for the key and request it POSTed last. */
  lemma ConfirmedJobIsTheSubmittedOne(db: Db, script: seq<Action>)
    requires DbValid(db) && Legal(Init(db), script)
    ensures var s := Run(Init(db), script);
      s.workflow.Submitted? ==>
        && s.workflow.job in s.db.jobs
        && exists i :: 0 <= i < |s.posts| && s.posts[i].submission == s.submissions
                       && s.workflow.job == JobId(s.posts[i].key.hash, s.posts[i].request)
  {
    Reached(db, script);
  }

  /** A retry after a lost response gets the job of the first POST back, and changes nothing. */
  lemma RetryReturnsTheSameJob(db: Db, script: seq<Action>, which: nat, at: int)
    requires DbValid(db) && Legal(Init(db), script)
    ensures var s := Run(Init(db), script);
      which < |s.posts| ==>
        var job := JobId(s.posts[which].key.hash, s.posts[which].request);
        job in s.db.jobs ==>
          JobStore.Submit(s.db, s.posts[which].request, s.posts[which].key, at) == Success((s.db, job, false))
  {
    Reached(db, script);
    var s := Run(Init(db), script);
    if which < |s.posts| {
      SubmitKeeps(s.db, s.posts[which].request, s.posts[which].key, at);
    }
  }

  /** A preflight in hand is the server's answer about the very request in hand; stale answers are inert. */
  lemma ValidationBelongsToItsRequest(db: Db, script: seq<Action>)
    requires DbValid(db) && Legal(Init(db), script)
    ensures var s := Run(Init(db), script);
      s.workflow.Validated? || s.workflow.Open() ==> (s.workflow.request, s.workflow.validation) in s.answers
  {
    Reached(db, script);
  }

  /** A submission can only be confirmed if the preflight named the digest of the request submitted. */
  lemma ConfirmationMatchesPreflight(db: Db, script: seq<Action>, job: JobId)
    requires DbValid(db) && Legal(Init(db), script)
    requires Enabled(Run(Init(db), script), SubmitReturns(job))
    ensures var s := Run(Init(db), script);
      && s.workflow.Submitting? && job == JobId(s.workflow.key.hash, s.workflow.request)
      && (Apply(s, SubmitReturns(job)).workflow.Submitted? <==>
            s.workflow.validation.requestHash == s.workflow.request)
  {
    hide Legal, Run, DbValid, Uniform, JobsMatch;
    Reached(db, script);
    ReplyIsOurs(Run(Init(db), script), job);
  }
}
