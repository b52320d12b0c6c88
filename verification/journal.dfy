/**
 * The paper journal (signal_foundry/trading/store.py): a state table and the event log it is the
 * replay of, both changed inside one SQL transaction that commits as a whole or leaves no trace.
 * Clocks, the hash and whether a commit goes through are inputs.
 */
module Journals {
  import opened Basics
  import opened JournalChain

  const MAX_VALUE := 16_384
  const LIMIT := 100
  const WINDOW := 60.0

  datatype Cell = Json(text: string) | Times(values: seq<real>) | Raised

  datatype JournalError = PaperCapacity | EvidenceLimit | ClockRollback | ProviderRate | StoreFault

  // ----- what the payloads say -----

  /** encode({"key": key, "value": value}), for a value whose own encoding is text. */
  function Assignment(key: string, text: string): string {
    "{\"key\":" + (Quote(key) + (",\"value\":" + (text + "}")))
  }

  const STOP_TEXT := "{\"reason\":\"operator_stop\"}"

  /** A payload that starts with another field is not an assignment. */
  predicate IsNote(text: string) {
    !("{\"key\":" <= text)
  }

  /** The two keys that set is never called with. */
  predicate Reserved(key: string) {
    key == "requests" || key == "stopped"
  }

  lemma AssignmentInjective(k: string, v: string, k': string, v': string)
    requires Assignment(k, v) == Assignment(k', v')
    ensures k == k' && v == v'
  {
    hide Quote;
    var tail, tail' := ",\"value\":" + (v + "}"), ",\"value\":" + (v' + "}");
    Cut("{\"key\":", Quote(k) + tail);
    Cut("{\"key\":", Quote(k') + tail');
    QuoteEnds(k, k', tail, tail');
    Cut(",\"value\":", v + "}");
    Cut(",\"value\":", v' + "}");
    Cut(v, "}");
    Cut(v', "}");
    assert |v| == |v'|;
  }

  // ----- the meaning of a log -----

  ghost predicate Assigns(e: Event, key: string, text: string) {
    e.payload == Assignment(key, text)
  }

  ghost function Assigned(e: Event, key: string): Option<string> {
    if exists text :: Assigns(e, key, text) then
      var text :| Assigns(e, key, text);
      Some(text)
    else None
  }

  /** The value of the last set event of key. */
  ghost function LastSet(events: seq<Event>, key: string): Option<string> {
    if events == [] then None
    else
      var last := Assigned(events[|events| - 1], key);
      if last.Some? then last else LastSet(events[..|events| - 1], key)
  }

  function Stops(events: seq<Event>): nat {
    if events == [] then 0
    else Stops(events[..|events| - 1]) + (if events[|events| - 1].kind == "stop" then 1 else 0)
  }

  ghost predicate KeyReplays(state: map<string, Cell>, events: seq<Event>, key: string) {
    match LastSet(events, key)
    case None => key !in state
    case Some(text) => key in state && state[key] == Json(text)
  }

  /** The state table is the replay of the log; the stop flag says whether a stop event exists. */
  ghost predicate Replays(state: map<string, Cell>, events: seq<Event>) {
    && (forall key :: !Reserved(key) ==> KeyReplays(state, events, key))
    && Stops(events) <= 1
    && ("stopped" in state <==> Stops(events) == 1)
    && ("stopped" in state ==> state["stopped"] == Raised)
  }

  /** Ten places are kept free, so that a stop always fits. */
  ghost predicate Roomy(events: seq<Event>) {
    |events| <= MAX_EVENTS - 10 + Stops(events)
  }

  lemma LastSetOf(events: seq<Event>, e: Event, key: string)
    ensures (forall text :: !Assigns(e, key, text)) ==> LastSet(events + [e], key) == LastSet(events, key)
    ensures forall text :: Assigns(e, key, text) ==> LastSet(events + [e], key) == Some(text)
  {
    var more := events + [e];
    assert more[..|events|] == events && more[|more| - 1] == e;
    forall text | Assigns(e, key, text) ensures LastSet(more, key) == Some(text) {
      AssignmentInjective(key, text, key, Assigned(e, key).value);
    }
  }

  lemma StopsOf(events: seq<Event>, e: Event)
    ensures Stops(events + [e]) == Stops(events) + (if e.kind == "stop" then 1 else 0)
  {
    assert (events + [e])[..|events|] == events;
  }

  /** One set event and the same assignment to the table keep table and log together. */
  lemma AssignKeepsReplay(state: map<string, Cell>, events: seq<Event>, e: Event, key: string, text: string)
    requires Replays(state, events) && !Reserved(key) && Assigns(e, key, text) && e.kind != "stop"
    ensures Replays(state[key := Json(text)], events + [e])
  {
    hide Assignment, LastSet, Stops;
    StopsOf(events, e);
    forall other | !Reserved(other) ensures KeyReplays(state[key := Json(text)], events + [e], other) {
      LastSetOf(events, e, other);
      assert KeyReplays(state, events, other);
      if other != key {
        forall t ensures !Assigns(e, other, t) {
          OtherKey(e, key, text, other, t);
        }
      }
    }
  }

  lemma OtherKey(e: Event, key: string, text: string, other: string, t: string)
    requires Assigns(e, key, text) && other != key
    ensures !Assigns(e, other, t)
  {
    if Assigns(e, other, t) {
      AssignmentInjective(key, text, other, t);
    }
  }

  /** An event that assigns nothing leaves every key as it was. */
  lemma NoteKeepsReplay(state: map<string, Cell>, events: seq<Event>, e: Event)
    requires Replays(state, events) && IsNote(e.payload)
    requires e.kind == "stop" ==> Stops(events) == 0
    ensures Replays(if e.kind == "stop" then state["stopped" := Raised] else state, events + [e])
  {
    hide LastSet, Stops;
    StopsOf(events, e);
    var after := if e.kind == "stop" then state["stopped" := Raised] else state;
    forall key | !Reserved(key) ensures KeyReplays(after, events + [e], key) {
      LastSetOf(events, e, key);
      assert KeyReplays(state, events, key);
      forall t ensures !Assigns(e, key, t) {
        Cut("{\"key\":", Quote(key) + (",\"value\":" + (t + "}")));
      }
    }
  }

  // ----- the request budget -----

  /** The times less than a window before now, in order. */
  function Recent(times: seq<real>, now: real): seq<real> {
    if times == [] then []
    else
      var last := times[|times| - 1];
      Recent(times[..|times| - 1], now) + (if now - last < WINDOW then [last] else [])
  }

  ghost predicate Ordered(times: seq<real>) {
    forall i, j :: 0 <= i < j < |times| ==> times[i] <= times[j]
  }

  /** Any LIMIT + 1 consecutive requests span a window or more. */
  ghost predicate Spaced(times: seq<real>) {
    forall i :: 0 <= i < |times| - LIMIT ==> times[i + LIMIT] - times[i] >= WINDOW
  }

  /** The rule over the full history: time does not run back, and at most LIMIT per window. */
  predicate Permitted(history: seq<real>, now: real) {
    && (history == [] || history[|history| - 1] <= now)
    && |Recent(history, now)| < LIMIT
  }

  lemma RecentMore(times: seq<real>, t: real, now: real)
    ensures Recent(times + [t], now) == Recent(times, now) + (if now - t < WINDOW then [t] else [])
  {
    assert (times + [t])[..|times|] == times;
  }

  /** Times dropped earlier would be dropped now. */
  lemma {:induction false} RecentAgain(times: seq<real>, before: real, now: real)
    requires before <= now
    ensures Recent(Recent(times, before), now) == Recent(times, now)
    decreases |times|
  {
    if times != [] {
      var last := times[|times| - 1];
      RecentAgain(times[..|times| - 1], before, now);
      if before - last < WINDOW {
        RecentMore(Recent(times[..|times| - 1], before), last, now);
      } else {
        assert Recent(times, before) == Recent(times[..|times| - 1], before);
      }
    }
  }

  lemma {:induction false} RecentCounts(times: seq<real>, now: real, i: nat)
    requires Ordered(times) && i < |times| && now - times[i] < WINDOW
    ensures |Recent(times, now)| >= |times| - i
    decreases |times|
  {
    if i < |times| - 1 {
      assert times[..|times| - 1][i] == times[i];
      RecentCounts(times[..|times| - 1], now, i);
    }
  }

  lemma PermittedKeeps(history: seq<real>, now: real)
    requires Ordered(history) && Spaced(history) && Permitted(history, now)
    ensures Ordered(history + [now]) && Spaced(history + [now])
  {
    var n := |history|;
    if n >= LIMIT && now - history[n - LIMIT] < WINDOW {
      RecentCounts(history, now, n - LIMIT);
    }
  }

  /** A log of accepted requests in which the rule held at every step. */
  ghost predicate Accepted(history: seq<real>) {
    forall i :: 0 <= i < |history| ==> Permitted(history[..i], history[i])
  }

  /** However requests were spread, no window ever holds more than LIMIT of the accepted ones. */
  lemma {:induction false} BudgetHolds(history: seq<real>)
    requires Accepted(history)
    ensures Ordered(history) && Spaced(history)
    decreases |history|
  {
    if history != [] {
      var n := |history| - 1;
      assert forall i :: 0 <= i < n ==> history[..n][..i] == history[..i];
      BudgetHolds(history[..n]);
      assert history == history[..n] + [history[n]];
      assert Permitted(history[..n], history[n]);
      PermittedKeeps(history[..n], history[n]);
    }
  }

  lemma {:induction false} RecentIsTail(times: seq<real>, now: real)
    requires Ordered(times)
    ensures var n := |Recent(times, now)|;
      && n <= |times|
      && (forall i :: |times| - n <= i < |times| ==> now - times[i] < WINDOW)
      && (forall i :: 0 <= i < |times| - n ==> now - times[i] >= WINDOW)
  {
    if times != [] {
      var init := times[..|times| - 1];
      RecentIsTail(init, now);
      assert forall i :: 0 <= i < |init| ==> init[i] == times[i];
    }
  }

  /** A request is refused only if time runs back, or the hundredth accepted one before it is under a minute old. */
  lemma PermittedMeans(history: seq<real>, now: real)
    requires Accepted(history)
    ensures Permitted(history, now) <==>
      && (history == [] || history[|history| - 1] <= now)
      && (|history| < 100 || now - history[|history| - 100] >= 60.0)
  {
    BudgetHolds(history);
    RecentIsTail(history, now);
  }

  /** What the table keeps of the history: the times recent at the last request. */
  ghost function Pruned(history: seq<real>): seq<real> {
    if history == [] then [] else Recent(history, history[|history| - 1])
  }

  /** Deciding on the pruned list is deciding on the full history. */
  lemma PrunedDecides(history: seq<real>, now: real)
    ensures var prior := Pruned(history);
      && (prior == [] <==> history == [])
      && (prior != [] ==> prior[|prior| - 1] == history[|history| - 1])
      && (Permitted(prior, now) <==> Permitted(history, now))
      && (Permitted(history, now) ==> Pruned(history + [now]) == Recent(prior, now) + [now])
  {
    if history != [] {
      var last := history[|history| - 1];
      assert Pruned(history) == Recent(history[..|history| - 1], last) + [last];
      if last <= now {
        RecentAgain(history, last, now);
      }
    }
    RecentMore(history, now, now);
  }

  // ----- the journal -----

  class Journal {
    const sha: Hash
    var state: map<string, Cell>
    var events: seq<Event>
    ghost var accepted: seq<real>

    ghost predicate Valid()
      reads this
    {
      && Chained(sha, events) && Roomy(events)
      && Replays(state, events)
      && Accepted(accepted) && Budgeted(state, accepted)
    }

    constructor (sha: Hash)
      ensures Valid() && this.sha == sha && events == [] && state == map[] && accepted == []
    {
      this.sha, state, events, accepted := sha, map[], [], [];
    }

    /** Opening a journal verifies its chain; one that these operations built always passes. */
    method Reopen() returns (ok: bool)
      requires Valid()
      ensures ok
    {
      StopFits(state, events);
      ok := Verify(sha, events);
    }

    /** Inside a transaction: the next event of the chain, unless the log is full or the payload too long. */
    method Append(kind: string, raw: string, at: string) returns (r: Result<(), JournalError>)
      requires Chained(sha, events)
      modifies this`events
      ensures r.Success? <==>
        && |old(events)| < (if kind == "stop" then 100_000 else 99_990) && |raw| <= 16_384
      ensures r.Success? ==> Chained(sha, events) && Grew(old(events), events, kind, raw, at)
      ensures r.Failure? ==>
        && events == old(events)
        && r.error == (if |events| >= MAX_EVENTS || (kind != "stop" && |events| >= MAX_EVENTS - 10)
                       then PaperCapacity else EvidenceLimit)
    {
      var seqNo, previous := 1, ZERO;
      if events != [] {
        seqNo, previous := events[|events| - 1].seqNo + 1, events[|events| - 1].digest;
      }
      assert seqNo == |events| + 1 && previous == Head(events) by {
        assert events != [] ==> Follows(sha, events[..|events| - 1], events[|events| - 1]);
      }
      if seqNo > MAX_EVENTS - 10 && kind != "stop" {
        return Failure(PaperCapacity);
      }
      if seqNo > MAX_EVENTS {
        return Failure(PaperCapacity);
      }
      if |raw| > MAX_VALUE {
        return Failure(EvidenceLimit);
      }
      var e := Event(seqNo, at, kind, raw, previous, sha(Prefix(seqNo, at, kind, previous) + raw));
      ChainedMore(sha, events, e);
      events := events + [e];
      r := Success(());
    }

    /** One transaction: the event and the table entry, or neither. */
    method Set(key: string, text: string, kind: string, at: string, commits: bool)
      returns (r: Result<(), JournalError>)
      requires Valid() && !Reserved(key) && kind != "stop"
      modifies this`events, this`state
      ensures Valid()
      ensures r.Success? <==>
        commits && |old(events)| < MAX_EVENTS - 10 && |Assignment(key, text)| <= MAX_VALUE
      ensures r.Success? ==>
        state == old(state)[key := Json(text)] && Grew(old(events), events, kind, Assignment(key, text), at)
      ensures r.Failure? ==> state == old(state) && events == old(events)
    {
      hide Chained, Roomy, Replays, Accepted, Budgeted, Grew, Assignment;
      var table, log := state, events;
      var raw := Assignment(key, text);
      r := Append(kind, raw, at);
      if r.Failure? {
        return;
      }
      state := state[key := Json(text)];
      if !commits {
        state, events := table, log;
        return Failure(StoreFault);
      }
      SetKeeps(table, log, events, accepted, key, text, kind, at);
    }

    /** An event without a table entry. */
    method Note(kind: string, raw: string, at: string, commits: bool) returns (r: Result<(), JournalError>)
      requires Valid() && IsNote(raw) && kind != "stop"
      modifies this`events
      ensures Valid()
      ensures r.Success? <==> commits && |old(events)| < MAX_EVENTS - 10 && |raw| <= MAX_VALUE
      ensures r.Success? ==> Grew(old(events), events, kind, raw, at)
      ensures r.Failure? ==> events == old(events)
    {
      hide Chained, Roomy, Replays, Accepted, Budgeted, Grew;
      var log := events;
      r := Append(kind, raw, at);
      if r.Failure? {
        return;
      }
      if !commits {
        events := log;
        return Failure(StoreFault);
      }
      NoteKeeps(state, log, events, kind, raw, at);
    }

    /** Idempotent and irreversible; never refused for capacity, however full the journal is. */
    method Stop(at: string, commits: bool) returns (r: Result<(), JournalError>)
      requires Valid()
      modifies this`events, this`state
      ensures Valid()
      ensures r.Success? <==> commits
      ensures r.Success? ==> "stopped" in state && Stops(events) == 1
      ensures r.Success? && "stopped" !in old(state) ==>
        state == old(state)["stopped" := Raised] && Grew(old(events), events, "stop", STOP_TEXT, at)
      ensures r.Failure? || "stopped" in old(state) ==> state == old(state) && events == old(events)
    {
      hide Chained, Roomy, Replays, Accepted, Budgeted, Grew, Stops;
      var table, log := state, events;
      StopFits(state, events);
      if "stopped" !in state {
        var appended := Append("stop", STOP_TEXT, at);
        StopKeeps(table, log, events, accepted, at);
        state := state["stopped" := Raised];
      }
      if !commits {
        state, events := table, log;
        return Failure(StoreFault);
      }
      r := Success(());
    }

    /** Reserves one request. The decision made on the stored times is the one over the whole history. */
    method Request(now: real, commits: bool) returns (r: Result<(), JournalError>)
      requires Valid()
      modifies this`state, this`accepted
      ensures Valid()
      ensures r.Success? <==> commits && Permitted(old(accepted), now)
      ensures accepted == if r.Success? then old(accepted) + [now] else old(accepted)
      ensures r.Failure? ==> state == old(state)
      ensures r.Success? ==> state == old(state)["requests" := state["requests"]]
      ensures r.Failure? && r.error == ClockRollback <==>
        old(accepted) != [] && now < old(accepted)[|old(accepted)| - 1]
    {
      var prior := if "requests" in state && state["requests"].Times? then state["requests"].values else [];
      PrunedDecides(accepted, now);
      if prior != [] && now < prior[|prior| - 1] {
        return Failure(ClockRollback);
      }
      var recent := Recent(prior, now);
      if |recent| >= LIMIT {
        return Failure(ProviderRate);
      }
      if !commits {
        return Failure(StoreFault);
      }
      RequestKeepsReplay(state, events, recent + [now]);
      AcceptedMore(accepted, now);
      state := state["requests" := Times(recent + [now])];
      accepted := accepted + [now];
      r := Success(());
    }
  }

  /** The stored request times are the pruned history. */
  ghost predicate Budgeted(state: map<string, Cell>, accepted: seq<real>) {
    && ("requests" in state <==> accepted != [])
    && ("requests" in state ==> state["requests"] == Times(Pruned(accepted)))
  }

  /** One event was appended, numbered and chained, with these contents. */
  ghost predicate Grew(before: seq<Event>, after: seq<Event>, kind: string, raw: string, at: string) {
    && |after| == |before| + 1 && before <= after
    && after[|before|].kind == kind && after[|before|].payload == raw && after[|before|].at == at
  }

  lemma SetKeeps(
    state: map<string, Cell>, before: seq<Event>, after: seq<Event>, accepted: seq<real>,
    key: string, text: string, kind: string, at: string)
    requires Replays(state, before) && Roomy(before) && Budgeted(state, accepted)
    requires Grew(before, after, kind, Assignment(key, text), at)
    requires !Reserved(key) && kind != "stop" && |before| < MAX_EVENTS - 10
    ensures Replays(state[key := Json(text)], after) && Roomy(after) && Budgeted(state[key := Json(text)], accepted)
  {
    hide Replays, Assignment;
    var e := after[|before|];
    assert after == before + [e];
    StopsOf(before, e);
    AssignKeepsReplay(state, before, e, key, text);
  }

  lemma NoteKeeps(
    state: map<string, Cell>, before: seq<Event>, after: seq<Event>, kind: string, raw: string, at: string)
    requires Replays(state, before) && Roomy(before)
    requires Grew(before, after, kind, raw, at) && IsNote(raw)
    requires kind != "stop" && |before| < MAX_EVENTS - 10
    ensures Replays(state, after) && Roomy(after)
  {
    hide Replays;
    var e := after[|before|];
    assert after == before + [e];
    StopsOf(before, e);
    NoteKeepsReplay(state, before, e);
  }

  /** Before the first stop the log still has room for it. */
  lemma StopFits(state: map<string, Cell>, events: seq<Event>)
    requires Replays(state, events) && Roomy(events)
    ensures "stopped" !in state ==> |events| < MAX_EVENTS
    ensures "stopped" in state <==> Stops(events) == 1
  {
  }

  lemma StopKeeps(
    state: map<string, Cell>, before: seq<Event>, after: seq<Event>, accepted: seq<real>, at: string)
    requires Replays(state, before) && Roomy(before) && Budgeted(state, accepted) && "stopped" !in state
    requires Grew(before, after, "stop", STOP_TEXT, at)
    ensures Replays(state["stopped" := Raised], after) && Roomy(after)
    ensures Budgeted(state["stopped" := Raised], accepted) && Stops(after) == 1
  {
    var e := after[|before|];
    assert after == before + [e];
    assert "{\"key\":"[2] != STOP_TEXT[2];
    StopsOf(before, e);
    NoteKeepsReplay(state, before, e);
  }

  lemma RequestKeepsReplay(state: map<string, Cell>, events: seq<Event>, times: seq<real>)
    requires Replays(state, events)
    ensures Replays(state["requests" := Times(times)], events)
  {
    forall key | !Reserved(key) ensures KeyReplays(state["requests" := Times(times)], events, key) {
      assert KeyReplays(state, events, key);
    }
  }

  lemma AcceptedMore(history: seq<real>, now: real)
    requires Accepted(history) && Permitted(history, now)
    ensures Accepted(history + [now])
  {
    var more := history + [now];
    assert more[..|history|] == history;
    assert forall i :: 0 <= i < |history| ==> more[..i] == history[..i] && more[i] == history[i];
  }
}
