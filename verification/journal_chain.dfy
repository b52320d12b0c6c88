/**
 * The append-only event chain of signal_foundry/trading/store.py. Every event's digest covers the
 * encoded array [seq, at, kind, previous] followed directly by the raw payload, so the chain is
 * only as good as that prefix is self-delimiting (RFC 8259, sections 5 and 7).
 */
module JournalChain {
  import opened Basics

  const MAX_EVENTS := 100_000
  const ZERO := "0000000000000000000000000000000000000000000000000000000000000000"

  /** Any digest function: the results say where two inputs would have to collide. */
  type Hash = string -> string

  ghost predicate Collides(h: Hash, x: string, y: string) {
    x != y && h(x) == h(y)
  }

  // ----- JSON text of the prefix -----

  function HexDigit(d: nat): char
    requires d < 16
  {
    "0123456789abcdef"[d]
  }

  function FromHex(c: char): (d: nat)
    ensures d < 16
  {
    if '0' <= c <= '9' then (c - '0') as nat
    else if 'a' <= c <= 'f' then (c - 'a') as nat + 10
    else 0
  }

  /** A \u escape of one UTF-16 code unit. */
  function Unit(n: nat): (u: string)
    requires n < 0x10000
    ensures |u| == 6 && u[0] == '\\' && u[1] == 'u'
  {
    ['\\', 'u', HexDigit(n / 4096), HexDigit(n / 256 % 16), HexDigit(n / 16 % 16), HexDigit(n % 16)]
  }

  function UnitValue(s: string): nat
    requires |s| >= 6
  {
    FromHex(s[2]) * 4096 + FromHex(s[3]) * 256 + FromHex(s[4]) * 16 + FromHex(s[5])
  }

  /** ensure_ascii: printable ASCII as itself, short escapes, then one or two UTF-16 units. */
  function Escape(c: char): string {
    if c == '"' then "\\\""
    else if c == '\\' then "\\\\"
    else if c == '\n' then "\\n"
    else if c == '\r' then "\\r"
    else if c == '\t' then "\\t"
    else if c as int == 8 then "\\b"
    else if c as int == 12 then "\\f"
    else if ' ' <= c <= '~' then [c]
    else if c as int < 0x10000 then Unit(c as int)
    else Unit(0xD800 + (c as int - 0x10000) / 1024) + Unit(0xDC00 + (c as int - 0x10000) % 1024)
  }

  function EscapeAll(s: string): string {
    if s == "" then "" else Escape(s[0]) + EscapeAll(s[1..])
  }

  function Quote(s: string): string {
    "\"" + EscapeAll(s) + "\""
  }

  function Digits(n: nat): string {
    (if n < 10 then "" else Digits(n / 10)) + ["0123456789"[n % 10]]
  }

  function Number(n: int): string {
    if n < 0 then "-" + Digits(-n) else Digits(n)
  }

  /** encode([seq, at, kind, previous]). */
  function Prefix(seqNo: int, at: string, kind: string, previous: string): string {
    "[" + Number(seqNo) + "," + Quote(at) + "," + Quote(kind) + "," + Quote(previous) + "]"
  }

  // ----- the prefix is self-delimiting -----

  /** How many characters the escape at the front of s takes. */
  function EscapeLength(s: string): nat
    requires s != ""
  {
    if s[0] != '\\' || |s| < 2 then 1
    else if s[1] != 'u' then 2
    else if |s| >= 12 && 0xD800 <= UnitValue(s) < 0xDC00 then 12
    else 6
  }

  lemma HexRoundTrip(d: nat)
    requires d < 16
    ensures FromHex(HexDigit(d)) == d
  {
  }

  lemma Base16(n: nat)
    requires n < 0x10000
    ensures n / 4096 < 16
    ensures n == n / 4096 * 4096 + n / 256 % 16 * 256 + n / 16 % 16 * 16 + n % 16
  {
    assert n / 256 == n / 4096 * 16 + n / 256 % 16;
    assert n / 16 == n / 256 * 16 + n / 16 % 16;
  }

  lemma UnitRoundTrip(n: nat, rest: string)
    requires n < 0x10000
    ensures UnitValue(Unit(n) + rest) == n
  {
    HexRoundTrip(n / 4096);
    HexRoundTrip(n / 256 % 16);
    HexRoundTrip(n / 16 % 16);
    HexRoundTrip(n % 16);
    Base16(n);
    hide FromHex, HexDigit;
  }

  lemma PairEnds(c: char, rest: string)
    requires c as int >= 0x10000
    ensures |Escape(c)| == 12 && Escape(c)[0] != '"' && EscapeLength(Escape(c) + rest) == 12
  {
    hide Unit, UnitValue;
    var n := c as int - 0x10000;
    var high, low := Unit(0xD800 + n / 1024), Unit(0xDC00 + n % 1024);
    UnitRoundTrip(0xD800 + n / 1024, low + rest);
    assert Escape(c) + rest == high + (low + rest);
  }

  /** The escape of one character tells where it ends, whatever follows. */
  lemma EscapeEnds(c: char, rest: string)
    ensures EscapeLength(Escape(c) + rest) == |Escape(c)|
    ensures Escape(c)[0] != '"'
  {
    hide Unit, UnitValue;
    if c as int >= 0x10000 {
      PairEnds(c, rest);
    } else {
      UnitRoundTrip(c as int, rest);
    }
  }

  lemma EscapeInjective(c: char, d: char)
    requires Escape(c) == Escape(d)
    ensures c == d
  {
    assert |Escape(c)| <= 12;
    if |Escape(c)| == 6 {
      UnitRoundTrip(c as int, "");
      UnitRoundTrip(d as int, "");
      assert Escape(c) + "" == Escape(c);
    } else if |Escape(c)| == 12 {
      var m, n := c as int - 0x10000, d as int - 0x10000;
      SplitUnits(c);
      SplitUnits(d);
      assert m == m / 1024 * 1024 + m % 1024 && n == n / 1024 * 1024 + n % 1024;
    }
  }

  lemma SplitUnits(c: char)
    requires c as int >= 0x10000
    ensures |Escape(c)| == 12
    ensures UnitValue(Escape(c)) == 0xD800 + (c as int - 0x10000) / 1024
    ensures UnitValue(Escape(c)[6..]) == 0xDC00 + (c as int - 0x10000) % 1024
  {
    hide Unit, UnitValue;
    var n := c as int - 0x10000;
    UnitRoundTrip(0xD800 + n / 1024, Unit(0xDC00 + n % 1024));
    UnitRoundTrip(0xDC00 + n % 1024, "");
    PairParts(Unit(0xD800 + n / 1024), Unit(0xDC00 + n % 1024));
  }

  lemma PairParts(a: string, b: string)
    requires |a| == 6
    ensures (a + b)[6..] == b + ""
  {
  }

  lemma Cut(head: string, tail: string)
    ensures (head + tail)[..|head|] == head && (head + tail)[|head|..] == tail
  {
  }

  lemma EscapeFront(s: string, x: string)
    requires s != ""
    ensures var text := EscapeAll(s) + "\"" + x;
      && text[0] != '"' && EscapeLength(text) == |Escape(s[0])| <= |text|
      && text[..|Escape(s[0])|] == Escape(s[0]) && text[|Escape(s[0])|..] == EscapeAll(s[1..]) + "\"" + x
  {
    hide EscapeLength, Escape;
    var rest := EscapeAll(s[1..]) + "\"" + x;
    EscapeEnds(s[0], rest);
    Cut(Escape(s[0]), rest);
    Regroup(Escape(s[0]), EscapeAll(s[1..]), x);
    NotEmpty(s[0]);
  }

  lemma Regroup(a: string, b: string, x: string)
    ensures a + b + "\"" + x == a + (b + "\"" + x)
  {
  }

  lemma NotEmpty(c: char)
    ensures |Escape(c)| > 0
  {
  }

  /** A quoted text ends at its own closing quote, whatever is appended to it. */
  lemma {:induction false} EscapedTextEnds(s: string, t: string, x: string, y: string)
    requires EscapeAll(s) + "\"" + x == EscapeAll(t) + "\"" + y
    ensures s == t && x == y
    decreases |s|
  {
    hide EscapeLength, Escape;
    if s != "" {
      EscapeFront(s, x);
    }
    if t != "" {
      EscapeFront(t, y);
    }
    if s == "" {
      assert EscapeAll(s) + "\"" + x == "\"" + x;
      assert t == "";
      Cut("\"", x);
      Cut("\"", y);
    } else {
      assert t == "" ==> EscapeAll(t) + "\"" + y == "\"" + y;
      assert t != "";
      EscapeInjective(s[0], t[0]);
      EscapedTextEnds(s[1..], t[1..], x, y);
    }
  }

  /** So does the text with its quotes. */
  lemma QuoteEnds(s: string, t: string, x: string, y: string)
    requires Quote(s) + x == Quote(t) + y
    ensures s == t && x == y
  {
    hide EscapeAll;
    QuoteTail(s, x);
    QuoteTail(t, y);
    EscapedTextEnds(s, t, x, y);
  }

  lemma QuoteTail(s: string, x: string)
    ensures (Quote(s) + x)[1..] == EscapeAll(s) + "\"" + x
  {
    hide EscapeAll;
  }

  lemma {:induction false} DigitsAreDigits(n: nat)
    ensures |Digits(n)| > 0 && forall i :: 0 <= i < |Digits(n)| ==> '0' <= Digits(n)[i] <= '9'
  {
    if n >= 10 {
      DigitsAreDigits(n / 10);
    }
  }

  function DigitsValue(s: string): int {
    if s == "" then 0 else 10 * DigitsValue(s[..|s| - 1]) + (s[|s| - 1] as int - '0' as int)
  }

  lemma DigitRoundTrip(d: nat)
    requires d < 10
    ensures "0123456789"[d] as int - '0' as int == d
  {
  }

  lemma {:induction false} DigitsRoundTrip(n: nat)
    ensures DigitsValue(Digits(n)) == n
  {
    DigitRoundTrip(n % 10);
    var leading := if n < 10 then "" else Digits(n / 10);
    Cut(leading, ["0123456789"[n % 10]]);
    if n >= 10 {
      DigitsRoundTrip(n / 10);
    }
    DigitsSplit(leading, "0123456789"[n % 10]);
    assert n == n / 10 * 10 + n % 10;
    hide DigitsValue;
  }

  lemma DigitsSplit(leading: string, last: char)
    ensures DigitsValue(leading + [last]) == 10 * DigitsValue(leading) + (last as int - '0' as int)
  {
    Cut(leading, [last]);
  }

  lemma NumberIs(n: int)
    ensures |Number(n)| > 0 && (Number(n)[0] == '-' <==> n < 0)
    ensures DigitsValue(if n < 0 then Number(n)[1..] else Number(n)) == if n < 0 then -n else n
    ensures forall i :: 0 <= i < |Number(n)| ==> Number(n)[i] != ','
  {
    var m: nat := if n < 0 then -n else n;
    DigitsAreDigits(m);
    DigitsRoundTrip(m);
    hide Digits, DigitsValue;
    assert n < 0 ==> Number(n)[1..] == Digits(m);
  }

  /** A text without commas ends at the first comma. */
  lemma CommaEnds(a: string, b: string, x: string, y: string)
    requires a + ("," + x) == b + ("," + y)
    requires (forall i :: 0 <= i < |a| ==> a[i] != ',') && (forall i :: 0 <= i < |b| ==> b[i] != ',')
    ensures a == b && x == y
  {
    var whole := a + ("," + x);
    assert whole[|a|] == ',' && whole[|b|] == ',';
    assert forall i :: 0 <= i < |a| ==> whole[i] == a[i];
    assert forall i :: 0 <= i < |b| ==> whole[i] == b[i];
    assert |a| == |b|;
    Cut(a, "," + x);
    Cut(b, "," + y);
    Cut(",", x);
    Cut(",", y);
  }

  lemma NumberEnds(m: int, n: int, x: string, y: string)
    requires Number(m) + ("," + x) == Number(n) + ("," + y)
    ensures m == n && x == y
  {
    hide Number, DigitsValue;
    NumberIs(m);
    NumberIs(n);
    CommaEnds(Number(m), Number(n), x, y);
  }

  lemma Unfold(a: string, b: string, c: string, d: string, x: string)
    ensures "[" + a + "," + b + "," + c + "," + d + "]" + x ==
      "[" + (a + ("," + (b + ("," + (c + ("," + (d + ("]" + x))))))))
  {
  }

  /** The encoded array ends at its own bracket: its fields and what follows can be read back. */
  lemma PrefixEnds(
    m: int, at: string, kind: string, previous: string, x: string,
    n: int, at': string, kind': string, previous': string, y: string)
    requires Prefix(m, at, kind, previous) + x == Prefix(n, at', kind', previous') + y
    ensures m == n && at == at' && kind == kind' && previous == previous' && x == y
  {
    hide Number, Quote;
    Unfold(Number(m), Quote(at), Quote(kind), Quote(previous), x);
    Unfold(Number(n), Quote(at'), Quote(kind'), Quote(previous'), y);
    var p, p' := "]" + x, "]" + y;
    var c, c' := "," + (Quote(previous) + p), "," + (Quote(previous') + p');
    var b, b' := "," + (Quote(kind) + c), "," + (Quote(kind') + c');
    var a, a' := Quote(at) + b, Quote(at') + b';
    Cut("[", Number(m) + ("," + a));
    Cut("[", Number(n) + ("," + a'));
    NumberEnds(m, n, a, a');
    QuoteEnds(at, at', b, b');
    Cut(",", Quote(kind) + c);
    Cut(",", Quote(kind') + c');
    QuoteEnds(kind, kind', c, c');
    Cut(",", Quote(previous) + p);
    Cut(",", Quote(previous') + p');
    QuoteEnds(previous, previous', p, p');
    Cut("]", x);
    Cut("]", y);
  }

  // ----- the chain -----

  /** A row of the events table; payload is the raw encoded text. */
  datatype Event = Event(
    seqNo: int, at: string, kind: string, payload: string, previous: string, digest: string)
  {
    function Covered(): string {
      Prefix(seqNo, at, kind, previous) + payload
    }
  }

  /** The digest the next event must name as its parent. */
  function Head(events: seq<Event>): string {
    if events == [] then ZERO else events[|events| - 1].digest
  }

  ghost predicate Follows(h: Hash, events: seq<Event>, e: Event) {
    e.seqNo == |events| + 1 && e.previous == Head(events) && e.digest == h(e.Covered())
  }

  /** Every event is numbered from one, names its parent's digest, and carries its own. */
  ghost predicate Chained(h: Hash, events: seq<Event>) {
    forall i :: 0 <= i < |events| ==> Follows(h, events[..i], events[i])
  }

  lemma ChainedMore(h: Hash, events: seq<Event>, e: Event)
    ensures Chained(h, events + [e]) <==> Chained(h, events) && Follows(h, events, e)
  {
    hide Follows;
    var more := events + [e];
    assert more[..|events|] == events;
    assert forall i :: 0 <= i < |events| ==> more[..i] == events[..i] && more[i] == events[i];
  }

  /** What the loop compares is what following means. */
  lemma Compared(h: Hash, events: seq<Event>, e: Event)
    ensures Follows(h, events, e) <==>
      && e.seqNo == |events| + 1 && e.previous == Head(events)
      && e.digest == h(Prefix(e.seqNo, e.at, e.kind, e.previous) + e.payload)
    ensures Head(events + [e]) == e.digest
  {
    hide Prefix;
  }

  lemma NothingChained(h: Hash)
    ensures Chained(h, []) && Head([]) == ZERO
  {
  }

  lemma ChainedSoFar(h: Hash, events: seq<Event>, n: nat)
    requires Chained(h, events) && n < |events|
    ensures Follows(h, events[..n], events[n])
  {
    hide Follows;
  }

  /** Reads the table in order and accepts exactly the bounded, unbroken chains. */
  method Verify(h: Hash, events: seq<Event>) returns (ok: bool)
    ensures ok <==> Chained(h, events) && |events| <= 100_000
  {
    hide Chained, Follows, Prefix, Event.Covered;
    var previous, count := ZERO, 0;
    NothingChained(h);
    assert events[..0] == [];
    while count < |events|
      invariant 0 <= count <= |events| && count <= MAX_EVENTS
      invariant previous == Head(events[..count]) && Chained(h, events[..count])
    {
      var e := events[count];
      assert events[..count + 1] == events[..count] + [e];
      ChainedMore(h, events[..count], e);
      Compared(h, events[..count], e);
      count := count + 1;
      var expected := h(Prefix(e.seqNo, e.at, e.kind, e.previous) + e.payload);
      if e.seqNo != count || e.previous != previous || e.digest != expected || count > MAX_EVENTS {
        if Chained(h, events) {
          ChainedSoFar(h, events, count - 1);
        }
        return false;
      }
      previous := e.digest;
    }
    assert events[..count] == events;
    ok := true;
  }

  /** Some event of one log and some event of the other cover different texts with one digest. */
  ghost predicate LogsCollide(h: Hash, a: seq<Event>, b: seq<Event>) {
    exists i, j :: 0 <= i < |a| && 0 <= j < |b| && Collides(h, a[i].Covered(), b[j].Covered())
  }

  lemma LogsCollideMore(h: Hash, a: seq<Event>, b: seq<Event>, e: Event, f: Event)
    requires LogsCollide(h, a, b)
    ensures LogsCollide(h, a + [e], b + [f])
  {
    hide Collides, Event.Covered;
    var i, j :| 0 <= i < |a| && 0 <= j < |b| && Collides(h, a[i].Covered(), b[j].Covered());
    assert (a + [e])[i] == a[i] && (b + [f])[j] == b[j];
  }

  lemma LastCollide(h: Hash, a: seq<Event>, b: seq<Event>)
    requires a != [] && b != [] && Collides(h, a[|a| - 1].Covered(), b[|b| - 1].Covered())
    ensures LogsCollide(h, a, b)
  {
  }

  /**
   * The head digest determines the whole log: two accepted logs that end in the same digest are
   * the same log, or two of the texts they hash collide.
   */
  lemma {:induction false} HeadDigestDeterminesLog(h: Hash, a: seq<Event>, b: seq<Event>)
    requires Chained(h, a) && Chained(h, b) && Head(a) == Head(b)
    requires a == [] <==> b == []
    ensures a == b || LogsCollide(h, a, b)
    decreases |a|
  {
    hide Prefix, Chained, LogsCollide;
    if a != [] {
      var c, d, e, f := a[..|a| - 1], b[..|b| - 1], a[|a| - 1], b[|b| - 1];
      assert a == c + [e] && b == d + [f];
      ChainedMore(h, c, e);
      ChainedMore(h, d, f);
      assert h(e.Covered()) == h(f.Covered());
      if e.Covered() != f.Covered() {
        LastCollide(h, a, b);
      } else {
        PrefixEnds(e.seqNo, e.at, e.kind, e.previous, e.payload, f.seqNo, f.at, f.kind, f.previous, f.payload);
        HeadDigestDeterminesLog(h, c, d);
        if c != d {
          LogsCollideMore(h, c, d, e, f);
        }
      }
    }
  }

  /** An event of the log covers a text that hashes to the all-zero root. */
  ghost predicate HashesToZero(h: Hash, events: seq<Event>) {
    exists i :: 0 <= i < |events| && h(events[i].Covered()) == ZERO
  }

  /** With an empty log on one side, the only other way is a text of the other log that hashes to the root. */
  lemma HeadDigestDeterminesAnyLog(h: Hash, a: seq<Event>, b: seq<Event>)
    requires Chained(h, a) && Chained(h, b) && Head(a) == Head(b)
    ensures a == b || LogsCollide(h, a, b) || (b == [] && HashesToZero(h, a)) || (a == [] && HashesToZero(h, b))
  {
    if a == [] <==> b == [] {
      HeadDigestDeterminesLog(h, a, b);
    } else {
      var longer := if a == [] then b else a;
      var last := longer[|longer| - 1];
      assert Follows(h, longer[..|longer| - 1], last);
      assert h(last.Covered()) == ZERO;
    }
  }
}
