/** What the page does with the draft the user sees, and with events that come at the wrong time. */
module WorkflowLaws {
  import opened Basics
  import JobStore
  import opened Workflows

  // ----- the draft -----

  /** A preflight is under way or in hand. */
  predicate Preflighted(w: Workflow) {
    w.Validating? || w.Validated?
  }

  /** What is or has been preflighted is what the user sees. */
  predicate InHand(s: State) {
    Preflighted(s.workflow) ==> s.workflow.request == s.draft
  }

  /** The catalog arrives under a preflight and replaces the draft with another one; nothing is dispatched. */
  predicate Disturbs(s: State, a: Action) {
    a.LoadCatalog? && Preflighted(s.workflow) && a.draft != s.workflow.request
  }

  ghost predicate Undisturbed(s: State, script: seq<Action>)
    requires Legal(s, script)
    decreases |script|
  {
    script != [] ==> !Disturbs(s, script[0]) && Undisturbed(Apply(s, script[0]), script[1..])
  }

  /** A late catalog is the only step that can take draft and preflight apart, and always does. */
  lemma StepInHand(s: State, a: Action)
    requires Enabled(s, a) && InHand(s)
    ensures InHand(Apply(s, a)) <==> !Disturbs(s, a)
  {
  }

  lemma {:induction false} RunInHand(s: State, script: seq<Action>)
    requires Legal(s, script) && InHand(s) && Undisturbed(s, script)
    ensures InHand(Run(s, script))
    decreases |script|
  {
    hide InHand, Enabled, Apply, Disturbs;
    if script != [] {
      StepInHand(s, script[0]);
      RunInHand(Apply(s, script[0]), script[1..]);
    }
  }

  /**
   * Unless the catalog arrived under a preflight, the preflight in hand is of the draft the user sees,
   * and the request that a click submits, and every POST of it carries, is that draft.
   */
  lemma SubmitsWhatIsSeen(db: JobStore.Db, script: seq<Action>, key: JobStore.Key)
    requires Legal(Init(db), script) && Undisturbed(Init(db), script)
    ensures var s := Run(Init(db), script);
      && (s.workflow.Validated? ==> s.workflow.request == s.draft)
      && (s.workflow.Validated? && Enabled(s, ClickSubmit(key)) ==>
            var t := Apply(s, ClickSubmit(key));
            && t.workflow == Submitting(s.workflow.revision, s.draft, s.workflow.validation, key)
            && Enabled(t, SendPost)
            && Apply(t, SendPost).posts == s.posts + [Post(s.submissions + 1, key, s.draft)])
  {
    hide Legal, Run, Undisturbed, Fresh;
    RunInHand(Init(db), script);
  }

  predicate Asks(script: seq<Action>) {
    exists i :: 0 <= i < |script| && script[i].ClickValidate?
  }

  predicate Answered(script: seq<Action>) {
    exists i :: 0 <= i < |script| && script[i].ValidateReturns?
  }

  predicate Unready(w: Workflow) {
    w.Editing? || w.Submitted?
  }

  lemma StepUnready(s: State, a: Action)
    requires Enabled(s, a)
    ensures Unready(s.workflow) && !a.ClickValidate? ==> Unready(Apply(s, a).workflow)
    ensures !s.workflow.Open() && !s.workflow.Validated? && !a.ValidateReturns? ==>
      !Apply(s, a).workflow.Open() && !Apply(s, a).workflow.Validated?
  {
  }

  lemma {:induction false} StaysUnready(s: State, script: seq<Action>)
    requires Legal(s, script)
    ensures Unready(s.workflow) && !Asks(script) ==> Unready(Run(s, script).workflow)
    ensures !s.workflow.Open() && !s.workflow.Validated? && !Answered(script) ==>
      !Run(s, script).workflow.Open() && !Run(s, script).workflow.Validated?
    decreases |script|
  {
    hide Enabled, Apply, Unready, Workflow.Open;
    if script != [] {
      StepUnready(s, script[0]);
      assert Asks(script[1..]) ==> Asks(script) by {
        if Asks(script[1..]) {
          var i :| 0 <= i < |script| - 1 && script[1..][i].ClickValidate?;
          assert script[i + 1].ClickValidate?;
        }
      }
      assert Answered(script[1..]) ==> Answered(script) by {
        if Answered(script[1..]) {
          var i :| 0 <= i < |script| - 1 && script[1..][i].ValidateReturns?;
          assert script[i + 1].ValidateReturns?;
        }
      }
      StaysUnready(Apply(s, script[0]), script[1..]);
    }
  }

  /**
   * An edit with no submission open discards the preflight: whatever else happens, nothing can be
   * submitted before the user has asked for another one and it has been answered.
   */
  lemma EditDiscardsThePreflight(s: State, draft: Request, script: seq<Action>, key: JobStore.Key)
    requires !s.workflow.Open() && Legal(Apply(s, TypeDraft(draft)), script)
    requires Enabled(Run(Apply(s, TypeDraft(draft)), script), ClickSubmit(key))
    ensures Asks(script) && Answered(script)
    ensures Apply(s, TypeDraft(draft)).workflow == Editing(s.workflow.revision + 1)
  {
    hide Legal, Run, Fresh;
    StaysUnready(Apply(s, TypeDraft(draft)), script);
  }

  // ----- the reducer -----

  /** Whatever an event changes, it was waiting for it; answers of another revision change nothing. */
  lemma UnexpectedIsInert(w: Workflow, e: Event)
    ensures Transition(w, e) != w ==>
      match e
      case Edit => w.Editing? || w.Validating? || w.Validated? || w.Submitted?
      case Validate(_) => w.Editing?
      case ValidationArrived(revision, _) => w.Validating? && revision == w.revision
      case ValidationFailed(revision) => w.Validating? && revision == w.revision
      case Submit(_) => w.Validated?
      case SubmissionUnknown => w.Submitting?
      case RetrySubmission => w.Uncertain?
      case SubmissionConfirmed(job) => w.Submitting? && job.requestHash == w.validation.requestHash
  {
  }

  /** One submission from beginning to end: nothing is lost on the way, an unknown outcome is retried unchanged. */
  lemma OneSubmission(revision: nat, request: Request, validation: Validation, key: JobStore.Key, job: JobStore.JobId)
    ensures var asked := Transition(Editing(revision), Validate(request));
      var validated := Transition(asked, ValidationArrived(revision, validation));
      var submitted := Transition(validated, Submit(key));
      && Transition(asked, ValidationFailed(revision)) == Editing(revision)
      && submitted == Submitting(revision, request, validation, key)
      && Transition(Transition(submitted, SubmissionUnknown), RetrySubmission) == submitted
      && Transition(submitted, SubmissionUnknown).Uncertain?
      && (job.requestHash == validation.requestHash ==>
            Transition(submitted, SubmissionConfirmed(job)) == Submitted(revision, job))
  {
  }

  /** A revision is never used again: only an edit, or leaving the page, changes it, and an edit always moves on. */
  lemma RevisionsMoveOn(w: Workflow, e: Event)
    ensures Transition(w, e).revision == w.revision + (if e.Edit? && !w.Submitting? && !w.Uncertain? then 1 else 0)
  {
  }

  // ----- the late catalog -----

  /** The exception is real: a catalog that arrives under a preflight leaves the old one ready to be submitted. */
  lemma LateCatalogKeepsThePreflight() returns (script: seq<Action>)
    ensures Legal(Init(JobStore.Db(map[], [])), script)
    ensures var s := Run(Init(JobStore.Db(map[], [])), script);
      s.workflow.Validated? && s.workflow.request == 0 && s.draft == 5
  {
    hide Legal, Run;
    var s := Init(JobStore.Db(map[], []));
    NoActions(s);
    var asked := [ClickValidate];
    RunAppend(s, [], ClickValidate);
    assert [] + [ClickValidate] == asked;
    RunAppend(s, asked, LoadCatalog(5));
    var loaded := asked + [LoadCatalog(5)];
    RunAppend(s, loaded, ValidateReturns(Validation(0, 0)));
    script := loaded + [ValidateReturns(Validation(0, 0))];
  }
}
