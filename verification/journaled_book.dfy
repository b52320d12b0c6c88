/**
 * The operator's book in the journal: each of its fields is one key of the state table, so each of
 * the operator's writes is one journal transaction, and the book is what the log replays to.
 */
module JournaledBook {
  import opened Basics
  import opened PaperModels
  import opened PaperProtocol
  import opened JournalChain
  import opened Journals

  /** What one key of the table stands for. */
  datatype Field = Baseline | CurrentAccount | StateField | OrderOf(id: Id) | DecisionOf(symbol: Symbol)

  datatype Entry = AccountIs(account: Account) | PhaseIs(phase: Phase) | RowIs(row: Row) | MinuteIs(minute: int)

  /** The book read field by field; before initialization it has no state entry. */
  function EntryOf(book: Book, f: Field): Option<Entry> {
    match f
    case Baseline => if book.baseline.Some? then Some(AccountIs(book.baseline.value)) else None
    case CurrentAccount => if book.account.Some? then Some(AccountIs(book.account.value)) else None
    case StateField => if book.phase.Uninitialized? then None else Some(PhaseIs(book.phase))
    case OrderOf(id) => if id in book.rows then Some(RowIs(book.rows[id])) else None
    case DecisionOf(symbol) => if symbol in book.decisions then Some(MinuteIs(book.decisions[symbol])) else None
  }

  /** The writes of the operator, each to one field. */
  function Written(book: Book, f: Field, e: Entry): Book
    requires Fits(f, e)
  {
    match f
    case Baseline => book.(baseline := Some(e.account))
    case CurrentAccount => book.(account := Some(e.account))
    case StateField => book.(phase := e.phase)
    case OrderOf(id) => book.(rows := book.rows[id := e.row])
    case DecisionOf(symbol) => book.(decisions := book.decisions[symbol := e.minute])
  }

  predicate Fits(f: Field, e: Entry) {
    match f
    case Baseline => e.AccountIs?
    case CurrentAccount => e.AccountIs?
    case StateField => e.PhaseIs? && !e.phase.Uninitialized?
    case OrderOf(_) => e.RowIs?
    case DecisionOf(_) => e.MinuteIs?
  }

  /** What one protocol step does to the journal. */
  datatype Transaction =
    | Nothing
    | Sets(field: Field, entry: Entry)
    | RaisesStop

  /** Whoever takes it, a step is at most one transaction; a repeated stop and an unchanged row write nothing. */
  function WriteOf(c: Config, w: World, a: Action): Transaction
    requires Enabled(c, w, a)
  {
    match a
    case SetBaseline(account) => Sets(Baseline, AccountIs(account))
    case BeginReconcile => Sets(StateField, PhaseIs(ReconciliationRequired))
    case Observe(id, reply) =>
      var row := w.book.rows[id];
      var seen := Row(row.intent, Latest(row, reply));
      if seen == row then Nothing else Sets(OrderOf(id), RowIs(seen))
    case Record => Sets(CurrentAccount, AccountIs(w.pc.account))
    case MarkReady => Sets(StateField, PhaseIs(Ready))
    case Decide(minute, _) => Sets(DecisionOf(w.pc.symbol), MinuteIs(minute))
    case Commit => Sets(OrderOf(w.pc.intent.id), RowIs(Row(w.pc.intent, None)))
    case MarkRequired => Sets(StateField, PhaseIs(ReconciliationRequired))
    case Respond(order) => Sets(OrderOf(w.pc.intent.id), RowIs(Row(w.pc.intent, Some(order))))
    case LossStop(_) => if w.book.stopped then Nothing else RaisesStop
    case StopElsewhere => if w.book.stopped then Nothing else RaisesStop
    case _ => Nothing
  }

  /** Every step of the protocol, the operator's or anyone's, writes at most one field, or raises the stop. */
  lemma StepWritesOneField(c: Config, w: World, a: Action)
    requires Enabled(c, w, a)
    ensures var after := Apply(c, w, a).book;
      match WriteOf(c, w, a)
      case Nothing => after == w.book
      case Sets(f, e) => Fits(f, e) && after == Written(w.book, f, e)
      case RaisesStop => !w.book.stopped && after == w.book.(stopped := true)
  {
    hide WithinLimits, Honest, Acceptable, Snapshot, Executable, Evolves;
    if a.Observe? && WriteOf(c, w, a).Nothing? {
      assert w.book.rows[a.id := w.book.rows[a.id]] == w.book.rows;
    }
  }

  /** Key names and value encodings; keys differ from each other and from the two reserved ones. */
  datatype Code = Code(key: Field -> string, text: Entry -> string) {
    ghost predicate Valid() {
      && (forall f :: !Reserved(key(f)))
      && (forall f, g :: key(f) == key(g) ==> f == g)
    }
  }

  ghost predicate FieldShown(code: Code, state: map<string, Cell>, book: Book, f: Field) {
    match EntryOf(book, f)
    case None => code.key(f) !in state
    case Some(e) => code.key(f) in state && state[code.key(f)] == Json(code.text(e))
  }

  /** The table shows exactly this book. */
  ghost predicate Shows(code: Code, state: map<string, Cell>, book: Book) {
    && (forall f :: FieldShown(code, state, book, f))
    && ("stopped" in state <==> book.stopped)
  }

  lemma WriteIsOneSet(code: Code, state: map<string, Cell>, book: Book, f: Field, e: Entry)
    requires code.Valid() && Fits(f, e) && Shows(code, state, book)
    ensures Shows(code, state[code.key(f) := Json(code.text(e))], Written(book, f, e))
  {
    var after, next := state[code.key(f) := Json(code.text(e))], Written(book, f, e);
    assert !Reserved(code.key(f));
    forall g ensures FieldShown(code, after, next, g) {
      assert FieldShown(code, state, book, g);
      if g != f {
        assert code.key(g) != code.key(f);
        assert EntryOf(next, g) == EntryOf(book, g);
      }
    }
  }

  lemma StopIsOneWrite(code: Code, state: map<string, Cell>, book: Book)
    requires code.Valid() && Shows(code, state, book)
    ensures Shows(code, state["stopped" := Raised], book.(stopped := true))
  {
    var after, next := state["stopped" := Raised], book.(stopped := true);
    forall f ensures FieldShown(code, after, next, f) {
      assert FieldShown(code, state, book, f) && !Reserved(code.key(f));
    }
  }

  /** A write of the book is one journal transaction: it is shown afterwards exactly if that commits. */
  method Write(
    journal: Journal, code: Code, ghost book: Book, f: Field, e: Entry, kind: string, at: string, commits: bool)
    returns (r: Result<(), JournalError>)
    requires journal.Valid() && code.Valid() && Shows(code, journal.state, book) && Fits(f, e) && kind != "stop"
    modifies journal
    ensures journal.Valid()
    ensures Shows(code, journal.state, if r.Success? then Written(book, f, e) else book)
    ensures r.Success? <==>
      commits && |old(journal.events)| < MAX_EVENTS - 10 && |Assignment(code.key(f), code.text(e))| <= MAX_VALUE
  {
    WriteIsOneSet(code, journal.state, book, f, e);
    r := journal.Set(code.key(f), code.text(e), kind, at, commits);
  }

  /** The stop is one too, and is refused for no other reason than a lost commit. */
  method Stop(journal: Journal, code: Code, ghost book: Book, at: string, commits: bool)
    returns (r: Result<(), JournalError>)
    requires journal.Valid() && code.Valid() && Shows(code, journal.state, book)
    modifies journal
    ensures journal.Valid() && (r.Success? <==> commits)
    ensures Shows(code, journal.state, if r.Success? then book.(stopped := true) else book)
  {
    StopIsOneWrite(code, journal.state, book);
    r := journal.Stop(at, commits);
  }

  // ----- whole runs -----

  /** The state table and the log behind it. */
  datatype Table = Table(state: map<string, Cell>, events: seq<Event>)

  /** The kind and time of an event; only the stop has its own kind. */
  datatype Stamp = Stamp(kind: string, at: string)

  function Logged(h: Hash, events: seq<Event>, stamp: Stamp, payload: string): (e: Event)
    ensures e.payload == payload && e.kind == stamp.kind && Follows(h, events, e)
  {
    var seqNo, previous := |events| + 1, Head(events);
    Event(seqNo, stamp.at, stamp.kind, payload, previous,
      h(Prefix(seqNo, stamp.at, stamp.kind, previous) + payload))
  }

  /** One transaction: the event and the entry it assigns. */
  function Performed(h: Hash, code: Code, t: Table, write: Transaction, stamp: Stamp): Table {
    match write
    case Nothing => t
    case Sets(f, e) =>
      var text := code.text(e);
      Table(t.state[code.key(f) := Json(text)], t.events + [Logged(h, t.events, stamp, Assignment(code.key(f), text))])
    case RaisesStop =>
      Table(t.state["stopped" := Raised], t.events + [Logged(h, t.events, Stamp("stop", stamp.at), STOP_TEXT)])
  }

  /** The journal after a run, transaction by transaction; stamps names and dates the n-th event. */
  function Journaled(
    h: Hash, code: Code, c: Config, w: World, t: Table, script: seq<Action>, stamps: nat -> Stamp): Table
    requires Legal(c, w, script)
    decreases |script|
  {
    if script == [] then t
    else
      var next := Performed(h, code, t, WriteOf(c, w, script[0]), stamps(|t.events|));
      Journaled(h, code, c, Apply(c, w, script[0]), next, script[1..], stamps)
  }

  /** An accepted chain, a table that replays it, and a book that is what the table shows. */
  ghost predicate Keeps(h: Hash, code: Code, t: Table, book: Book) {
    Chained(h, t.events) && Replays(t.state, t.events) && Shows(code, t.state, book)
  }

  lemma PerformedKeeps(h: Hash, code: Code, c: Config, w: World, t: Table, a: Action, stamp: Stamp)
    requires code.Valid() && stamp.kind != "stop" && Enabled(c, w, a) && Keeps(h, code, t, w.book)
    ensures Keeps(h, code, Performed(h, code, t, WriteOf(c, w, a), stamp), Apply(c, w, a).book)
  {
    hide Chained, Follows, Replays, Shows, Enabled, Apply, WriteOf, Assignment, Logged;
    StepWritesOneField(c, w, a);
    match WriteOf(c, w, a)
    case Nothing =>
    case Sets(f, e) =>
      var event := Logged(h, t.events, stamp, Assignment(code.key(f), code.text(e)));
      ChainedMore(h, t.events, event);
      AssignKeepsReplay(t.state, t.events, event, code.key(f), code.text(e));
      WriteIsOneSet(code, t.state, w.book, f, e);
    case RaisesStop =>
      var event := Logged(h, t.events, Stamp("stop", stamp.at), STOP_TEXT);
      ChainedMore(h, t.events, event);
      FirstStop(code, t, w.book);
      NoteKeepsReplay(t.state, t.events, event);
      StopIsOneWrite(code, t.state, w.book);
  }

  lemma FirstStop(code: Code, t: Table, book: Book)
    requires Replays(t.state, t.events) && Shows(code, t.state, book) && !book.stopped
    ensures Stops(t.events) == 0 && IsNote(STOP_TEXT)
  {
    assert STOP_TEXT[2] == 'r';
  }

  lemma {:induction false} RunKeepsJournal(
    h: Hash, code: Code, c: Config, w: World, t: Table, script: seq<Action>, stamps: nat -> Stamp)
    requires code.Valid() && (forall n :: stamps(n).kind != "stop") && Legal(c, w, script)
    requires Keeps(h, code, t, w.book)
    ensures Keeps(h, code, Journaled(h, code, c, w, t, script, stamps), Run(c, w, script).book)
    decreases |script|
  {
    hide Keeps, Enabled, Apply, WriteOf, Performed;
    if script != [] {
      var stamp := stamps(|t.events|);
      PerformedKeeps(h, code, c, w, t, script[0], stamp);
      RunKeepsJournal(h, code, c, Apply(c, w, script[0]), Performed(h, code, t, WriteOf(c, w, script[0]), stamp),
                      script[1..], stamps);
    }
  }

  function Empty(): Table {
    Table(map[], [])
  }

  /**
   * Every run is a sequence of journal transactions: from an empty database, one per step at most,
   * they leave an accepted chain, whose replay is the table, which shows the operator's book.
   */
  lemma RunIsJournaled(h: Hash, code: Code, c: Config, script: seq<Action>, stamps: nat -> Stamp)
    requires code.Valid() && (forall n :: stamps(n).kind != "stop") && Legal(c, Init(), script)
    ensures Keeps(h, code, Journaled(h, code, c, Init(), Empty(), script, stamps), Run(c, Init(), script).book)
  {
    forall f ensures FieldShown(code, map[], Init().book, f) {
    }
    RunKeepsJournal(h, code, c, Init(), Empty(), script, stamps);
  }

  /** The encoding tells apart what two books hold under one key. */
  ghost predicate Distinguishes(code: Code, book: Book, other: Book, f: Field) {
    forall a, b ::
      EntryOf(book, f) == Some(a) && EntryOf(other, f) == Some(b) && code.text(a) == code.text(b) ==> a == b
  }

  /** The book is determined by the log: two valid journals over one log show the same fields. */
  lemma BookIsReplayed(code: Code, state: map<string, Cell>, other: map<string, Cell>, events: seq<Event>, f: Field,
                       book: Book, next: Book)
    requires code.Valid() && Replays(state, events) && Replays(other, events)
    requires Shows(code, state, book) && Shows(code, other, next)
    requires Distinguishes(code, book, next, f)
    ensures EntryOf(book, f) == EntryOf(next, f) && book.stopped == next.stopped
  {
    assert FieldShown(code, state, book, f) && FieldShown(code, other, next, f);
    assert KeyReplays(state, events, code.key(f)) && KeyReplays(other, events, code.key(f));
  }

  /**
   * The digest at the head of the chain determines the operator's book: two runs, of whatever length,
   * whose journals end in one digest have left the same book, or the hash has failed on their own texts.
   */
  lemma HeadDigestDeterminesBook(
    h: Hash, code: Code, c: Config, one: seq<Action>, two: seq<Action>, stamps: nat -> Stamp, other: nat -> Stamp,
    f: Field)
    requires code.Valid() && (forall n :: stamps(n).kind != "stop" && other(n).kind != "stop")
    requires Legal(c, Init(), one) && Legal(c, Init(), two)
    requires Distinguishes(code, Run(c, Init(), one).book, Run(c, Init(), two).book, f)
    ensures
      var t := Journaled(h, code, c, Init(), Empty(), one, stamps);
      var u := Journaled(h, code, c, Init(), Empty(), two, other);
      var book, next := Run(c, Init(), one).book, Run(c, Init(), two).book;
      Head(t.events) == Head(u.events) ==>
        || (EntryOf(book, f) == EntryOf(next, f) && book.stopped == next.stopped)
        || LogsCollide(h, t.events, u.events) || HashesToZero(h, t.events) || HashesToZero(h, u.events)
  {
    hide Chained, Replays, Shows, Legal, Run, Journaled, EntryOf, LogsCollide, HashesToZero, Distinguishes, Head;
    var t := Journaled(h, code, c, Init(), Empty(), one, stamps);
    var u := Journaled(h, code, c, Init(), Empty(), two, other);
    RunIsJournaled(h, code, c, one, stamps);
    RunIsJournaled(h, code, c, two, other);
    if Head(t.events) == Head(u.events) {
      HeadDigestDeterminesAnyLog(h, t.events, u.events);
      if t.events == u.events {
        BookIsReplayed(code, t.state, u.state, t.events, f, Run(c, Init(), one).book, Run(c, Init(), two).book);
      }
    }
  }
}
