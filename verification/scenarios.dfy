/** Runs that show the bounds of the paper protocol are reached, and not by empty runs. */
module PaperScenarios {
  import opened Basics
  import opened PaperModels
  import opened PaperProtocol

  function Rules(): (c: Config)
    ensures c.Valid() && c.enabled
  {
    Config(true, 0, {1}, 20, 10, true, 100.0, 500.0, 25.0, 25.0, 1.0, 100, 10)
  }

  function Flat(): Account {
    Account(0, 1000.0, 1000.0, 1000.0, false, [], 0)
  }

  function Bought(): Order {
    Order(9, Intent(7, 1, Buy, 1.0, 50.0), Filled, 1.0, Some(49.0))
  }

  function FlatBook(stopped: bool, phase: Phase, decisions: map<Symbol, int>, rows: map<Id, Row>): Book {
    Book(Some(Flat()), Some(Flat()), phase, stopped, rows, decisions)
  }

  /** The legal run of a script, one action longer. */
  lemma Then(c: Config, script: seq<Action>, w: World, a: Action)
    requires Legal(c, Init(), script) && Run(c, Init(), script) == w && Enabled(c, w, a)
    ensures Legal(c, Init(), script + [a]) && Run(c, Init(), script + [a]) == Apply(c, w, a)
  {
    RunAppend(c, Init(), script, a);
  }

  lemma StartedRun() returns (script: seq<Action>, w: World)
    ensures Legal(Rules(), Init(), script) && Run(Rules(), Init(), script) == w
    ensures w == World(FlatBook(false, Ready, map[], map[]), map[], map[], Idle, [], 0)
  {
    var c := Rules();
    script, w := [], Init();
    Then(c, script, w, SetBaseline(Flat()));
    script, w := script + [SetBaseline(Flat())], Apply(c, w, SetBaseline(Flat()));
    Then(c, script, w, Record);
    script, w := script + [Record], Apply(c, w, Record);
    Then(c, script, w, MarkReady);
    script, w := script + [MarkReady], Apply(c, w, MarkReady);
  }

  lemma ReconciledRun() returns (script: seq<Action>, w: World)
    ensures Legal(Rules(), Init(), script) && Run(Rules(), Init(), script) == w
    ensures w == World(FlatBook(false, ReconciliationRequired, map[], map[]), map[], map[],
                       Matched(ForCycle(1), Flat()), [], 0)
  {
    var c := Rules();
    script, w := StartedRun();
    Then(c, script, w, Admit(1));
    script, w := script + [Admit(1)], Apply(c, w, Admit(1));
    Then(c, script, w, BeginReconcile);
    script, w := script + [BeginReconcile], Apply(c, w, BeginReconcile);
    assert w.pc.todo == {} && NonZero(w.pc.quantities) == Flat().Holdings() == map[];
    Then(c, script, w, Match(Flat()));
    script, w := script + [Match(Flat())], Apply(c, w, Match(Flat()));
  }

  lemma SizedRun() returns (script: seq<Action>, w: World)
    ensures Legal(Rules(), Init(), script) && Run(Rules(), Init(), script) == w
    ensures w == World(FlatBook(false, Ready, map[1 := 60], map[]), map[], map[], Deciding(1, Flat(), 1.0), [], 0)
  {
    var c := Rules();
    script, w := ReconciledRun();
    Then(c, script, w, Record);
    script, w := script + [Record], Apply(c, w, Record);
    Then(c, script, w, MarkReady);
    script, w := script + [MarkReady], Apply(c, w, MarkReady);
    Then(c, script, w, Decide(60, true));
    script, w := script + [Decide(60, true)], Apply(c, w, Decide(60, true));
  }

  lemma JournaledRun() returns (script: seq<Action>, w: World)
    ensures Legal(Rules(), Init(), script) && Run(Rules(), Init(), script) == w
    ensures w == World(FlatBook(false, Ready, map[1 := 60], map[7 := Row(Bought().intent, None)]),
                       map[], map[], Committed(Bought().intent), [], 0)
  {
    var c := Rules();
    script, w := SizedRun();
    Then(c, script, w, Price(7, 50.0));
    script, w := script + [Price(7, 50.0)], Apply(c, w, Price(7, 50.0));
    Then(c, script, w, Commit);
    script, w := script + [Commit], Apply(c, w, Commit);
  }

  lemma ClearedRun() returns (script: seq<Action>, w: World)
    ensures Legal(Rules(), Init(), script) && Run(Rules(), Init(), script) == w
    ensures w.pc == Pc.Cleared(Bought().intent) && w.posts == [] && w.orders == map[] && w.late == 0
    ensures 7 !in w.inflight && !w.book.stopped
  {
    var c := Rules();
    script, w := JournaledRun();
    Then(c, script, w, MarkRequired);
    script, w := script + [MarkRequired], Apply(c, w, MarkRequired);
    Then(c, script, w, Precheck);
    script, w := script + [Precheck], Apply(c, w, Precheck);
    Then(c, script, w, Clear);
    script, w := script + [Clear], Apply(c, w, Clear);
  }

  lemma StoppedRun() returns (script: seq<Action>, w: World)
    ensures Legal(Rules(), Init(), script) && Run(Rules(), Init(), script) == w
    ensures w.pc == Pc.Cleared(Bought().intent) && w.posts == [] && w.orders == map[] && w.late == 0
    ensures 7 !in w.inflight && w.book.stopped
  {
    script, w := ClearedRun();
    Then(Rules(), script, w, StopElsewhere);
    script, w := script + [StopElsewhere], Apply(Rules(), w, StopElsewhere);
  }

  /**
   * The one late POST does happen: a stop that commits between the transport's last check and the
   * request still sees the order leave, arrive and fill.
   */
  lemma OneLatePostIsPossible() returns (script: seq<Action>)
    ensures Legal(Rules(), Init(), script)
    ensures var w := Run(Rules(), Init(), script);
      w.book.stopped && w.late == 1 && w.posts == [7] && w.orders == map[7 := Bought()]
  {
    var c := Rules();
    var w;
    script, w := StoppedRun();
    Then(c, script, w, Send);
    script, w := script + [Send], Apply(c, w, Send);
    Then(c, script, w, Arrive(7, Bought()));
    script, w := script + [Arrive(7, Bought())], Apply(c, w, Arrive(7, Bought()));
  }

  /**
   * The state key says nothing about the rows: after a crash between the two transactions that
   * journal an intent, the book reads ready while the intent was never observed.
   */
  lemma ReadyDoesNotMeanObserved() returns (script: seq<Action>)
    ensures Legal(Rules(), Init(), script)
    ensures var b := Run(Rules(), Init(), script).book; b.phase.Ready? && 7 in b.rows && b.rows[7].order.None?
  {
    var c := Rules();
    var w;
    script, w := JournaledRun();
    Then(c, script, w, Abort);
    script, w := script + [Abort], Apply(c, w, Abort);
  }
}

/** Runs that reach each state in which a cancellation cannot find its job. */
module SchedulerScenarios {
  import opened Basics
  import opened JobStore
  import opened Scheduler

  function Fresh(state: JobState): Job {
    Job(state, 0, 0, None, None)
  }

  /** One job submitted, and the worker waiting. */
  lemma Submitted() returns (script: seq<Action>, s: State)
    ensures Legal(Init(), script) && Run(Init(), script) == s
    ensures s == Init().(db := s.db, queue := [JobId(1, 2)], created := [JobId(1, 2)])
    ensures s.db.jobs == map[JobId(1, 2) := Fresh(Queued)]
  {
    assert Pending(Init().db.jobs) == {};
    script := [] + [SubmitJob(2, Key(1, true), 0)];
    RunAppend(Init(), [], SubmitJob(2, Key(1, true), 0));
    s := Run(Init(), script);
  }

  /** ... and started. */
  lemma Started() returns (script: seq<Action>, s: State)
    ensures Legal(Init(), script) && Run(Init(), script) == s
    ensures var id := JobId(1, 2);
      && s == Init().(
           db := s.db, created := [id], taken := [id], active := Some(Active(id, false)), worker := Working(id))
      && s.db.jobs == map[id := Fresh(Running)]
  {
    script, s := Submitted();
    RunAppend(Init(), script, Take(0));
    script := script + [Take(0)];
    s := Run(Init(), script);
  }

  /** A worker that dies lets go of its job before the fault is recorded: until then cancelling it fails. */
  lemma DyingWorkerHidesItsJob() returns (script: seq<Action>, id: JobId)
    ensures Legal(Init(), script)
    ensures var s := Run(Init(), script);
      && id in s.db.jobs && s.db.jobs[id].state.Running? && Lost(s, id) && !Cancellable(s, id)
  {
    var s;
    id := JobId(1, 2);
    script, s := Started();
    RunAppend(Init(), script, Crash);
    RunAppend(Init(), script + [Crash], Unwind);
    script := script + [Crash] + [Unwind];
  }

  /**
   * A cancellation whose transaction rolls back has already cut the queue: with a healthy worker, the
   * job stays queued for ever, no later cancel finds it, and a clean close leaves it unfinished.
   */
  lemma RolledBackCancelForgetsItsJob() returns (script: seq<Action>, id: JobId)
    ensures Legal(Init(), script)
    ensures var s := Run(Init(), script);
      && s.worker.Waiting? && s.closed && !s.raised && !s.faulted
      && id in s.db.jobs && s.db.jobs[id].state.Queued? && id !in s.deserted && !Cancellable(s, id)
  {
    var s;
    id := JobId(1, 2);
    script, s := Submitted();
    assert id in s.queue;
    RunAppend(Init(), script, CancelRollsBack(id));
    script := script + [CancelRollsBack(id)];
    s := Run(Init(), script);
    RunAppend(Init(), script, Close(0));
    script := script + [Close(0)];
  }

  /** On the active job it leaves the row running: the worker skips publication and moves on. */
  lemma RolledBackCancelLosesTheEvidence(evidence: Evidence) returns (script: seq<Action>, id: JobId)
    ensures Legal(Init(), script)
    ensures var s := Run(Init(), script);
      && s.worker.Waiting? && !s.closed && !s.faulted
      && id in s.db.jobs && s.db.jobs[id].state.Running? && id !in s.deserted && !Cancellable(s, id)
  {
    var s;
    id := JobId(1, 2);
    script, s := Started();
    RunAppend(Init(), script, CancelRollsBack(id));
    script := script + [CancelRollsBack(id)];
    RunAppend(Init(), script, RunReturns(evidence));
    script := script + [RunReturns(evidence)];
    RunAppend(Init(), script, Deliver(0));
    script := script + [Deliver(0)];
    RunAppend(Init(), script, Release);
    script := script + [Release];
  }

  /** A close whose first cancellation raises leaves its job queued although admission has ended. */
  lemma RaisedCloseLeavesItsQueue() returns (script: seq<Action>, id: JobId)
    ensures Legal(Init(), script)
    ensures var s := Run(Init(), script);
      s.closed && s.raised && id in s.queue && id in s.db.jobs && s.db.jobs[id].state.Queued?
  {
    var s;
    id := JobId(1, 2);
    script, s := Submitted();
    assert Closing(s)[0] == id && Closing(s)[..0] == [];
    RunAppend(Init(), script, CloseRaises(0, false, 0));
    script := script + [CloseRaises(0, false, 0)];
  }
}

/** What a reload of the page costs. */
module WorkflowScenarios {
  import opened Basics
  import opened JobStore
  import opened Workflows

  /** The actions that take an idle page to a POST. */
  function Submitting(key: Key): seq<Action> {
    [ClickValidate, ValidateReturns(Validation(0, 0)), ClickSubmit(key), SendPost]
  }

  /** From an idle page: preflight, submit and POST the draft under a fresh key. */
  lemma SubmitDraft(s: State, key: Key)
    requires s.busy.None? && s.workflow.Editing? && Fresh(s, key)
    ensures Legal(s, Submitting(key))
    ensures var t := Run(s, Submitting(key));
      && t.posts == s.posts + [Post(s.submissions + 1, key, s.draft)] && t.db == s.db && t.draft == s.draft
      && t.abandoned == s.abandoned && t.submissions == s.submissions + 1 && t.confirmed == s.confirmed
      && t.workflow.Submitting? && t.busy.Some?
  {
    hide Legal, Run;
    NoActions(s);
    var asked, answered := [ClickValidate], [ClickValidate, ValidateReturns(Validation(0, 0))];
    RunAppend(s, [], ClickValidate);
    assert [] + [ClickValidate] == asked && asked + [ValidateReturns(Validation(0, 0))] == answered;
    RunAppend(s, asked, ValidateReturns(Validation(0, 0)));
    RunAppend(s, answered, ClickSubmit(key));
    RunAppend(s, answered + [ClickSubmit(key)], SendPost);
    assert Submitting(key) == answered + [ClickSubmit(key)] + [SendPost];
  }

  /** Reloading while a submission is open forgets its key: the same draft is POSTed again under another one. */
  lemma ReloadForgetsTheKey() returns (script: seq<Action>)
    ensures Legal(Init(Db(map[], [])), script)
    ensures var s := Run(Init(Db(map[], [])), script);
      && |s.posts| == 2 && s.posts[0].request == s.posts[1].request && s.posts[0].key != s.posts[1].key
      && s.confirmed == 0 && s.abandoned == 1
  {
    hide Legal, Run;
    var start := Init(Db(map[], []));
    var first := Submitting(Key(1, true));
    SubmitDraft(start, Key(1, true));
    RunAppend(start, first, Reload(0));
    var reloaded := first + [Reload(0)];
    SubmitDraft(Run(start, reloaded), Key(2, true));
    RunConcat(start, reloaded, Submitting(Key(2, true)));
    script := reloaded + Submitting(Key(2, true));
  }
}
