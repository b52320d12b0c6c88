/** The text of the chain's prefix, read back by the rules of JSON (RFC 8259, section 7). */
module JournalText {
  import opened Basics
  import opened JournalChain

  /** The character that one escape, or one plain character, stands for. */
  function Meant(e: string): Option<char> {
    if |e| == 1 then Some(e[0])
    else if |e| == 2 && e[0] == '\\' then
      match e[1]
      case '"' => Some('"')
      case '\\' => Some('\\')
      case 'n' => Some('\n')
      case 'r' => Some('\r')
      case 't' => Some('\t')
      case 'b' => Some(8 as char)
      case 'f' => Some(12 as char)
      case _ => None
    else if |e| == 6 && !(0xD800 <= UnitValue(e) < 0xE000) && UnitValue(e) < 0x10000 then Some(UnitValue(e) as char)
    else if |e| == 12 && 0xD800 <= UnitValue(e) < 0xDC00 && 0xDC00 <= UnitValue(e[6..]) < 0xE000 then
      Some((0x10000 + (UnitValue(e) - 0xD800) * 0x400 + (UnitValue(e[6..]) - 0xDC00)) as char)
    else None
  }

  /** Escapes are read one after the other to the end of the text. */
  function ReadAll(s: string): Option<string>
    decreases |s|
  {
    if s == "" then Some("")
    else if EscapeLength(s) > |s| then None
    else
      var c, rest := Meant(s[..EscapeLength(s)]), ReadAll(s[EscapeLength(s)..]);
      if c.None? || rest.None? then None else Some([c.value] + rest.value)
  }

  lemma EscapeMeans(c: char)
    ensures Meant(Escape(c)) == Some(c)
  {
    if c as int >= 0x10000 {
      PairMeans(c);
    } else if |Escape(c)| == 6 {
      UnitRoundTrip(c as int, "");
      assert Unit(c as int) + "" == Unit(c as int);
      hide Unit, UnitValue;
    }
  }

  lemma PairMeans(c: char)
    requires c as int >= 0x10000
    ensures Meant(Escape(c)) == Some(c)
  {
    hide Unit, UnitValue;
    SplitUnits(c);
    var n := c as int - 0x10000;
    assert n == n / 1024 * 1024 + n % 1024;
  }

  /** A reader of JSON gets back exactly the text that was quoted. */
  lemma {:induction false} ReadsBack(s: string)
    ensures ReadAll(EscapeAll(s)) == Some(s)
    decreases |s|
  {
    hide Meant, EscapeLength, Escape;
    if s != "" {
      ReadsBack(s[1..]);
      EscapeMeans(s[0]);
      EscapeEnds(s[0], EscapeAll(s[1..]));
      NotEmpty(s[0]);
      Cut(Escape(s[0]), EscapeAll(s[1..]));
      assert EscapeAll(s)[..|Escape(s[0])|] == Escape(s[0]);
      assert [s[0]] + s[1..] == s;
    }
  }

  predicate Printable(s: string) {
    forall i :: 0 <= i < |s| ==> ' ' <= s[i] <= '~'
  }

  lemma EscapeIsPrintable(c: char)
    ensures Printable(Escape(c))
  {
    if |Escape(c)| >= 6 {
      UnitsArePrintable(c);
    }
  }

  lemma HexIsPrintable(n: nat)
    requires n < 0x10000
    ensures Printable(Unit(n))
  {
  }

  lemma UnitsArePrintable(c: char)
    requires |Escape(c)| >= 6
    ensures Printable(Escape(c))
  {
    hide Unit;
    if c as int < 0x10000 {
      HexIsPrintable(c as int);
    } else {
      HexIsPrintable(0xD800 + (c as int - 0x10000) / 1024);
      HexIsPrintable(0xDC00 + (c as int - 0x10000) % 1024);
    }
  }

  /** The encoded text is printable ASCII; a text of plain characters is encoded as itself. */
  lemma {:induction false} EncodedIsAscii(s: string)
    ensures Printable(EscapeAll(s))
    ensures Plain(s) ==> EscapeAll(s) == s
    decreases |s|
  {
    hide Escape;
    if s != "" {
      EscapeIsPrintable(s[0]);
      EncodedIsAscii(s[1..]);
      PlainIsItself(s[0]);
    }
  }

  lemma PlainIsItself(c: char)
    ensures ' ' <= c <= '~' && c != '"' && c != '\\' ==> Escape(c) == [c]
  {
  }

  predicate Plain(s: string) {
    Printable(s) && forall i :: 0 <= i < |s| ==> s[i] != '"' && s[i] != '\\'
  }

  lemma Joined(n: string, a: string, b: string, c: string)
    ensures "[" + n + "," + ("\"" + a + "\"") + "," + ("\"" + b + "\"") + "," + ("\"" + c + "\"") + "]" ==
      "[" + n + ",\"" + a + "\",\"" + b + "\",\"" + c + "\"]"
  {
    assert "," + ("\"" + a + "\"") + "," == ",\"" + a + "\",";
    assert ("\"" + b + "\"") + "," + ("\"" + c + "\"") + "]" == "\"" + b + "\",\"" + c + "\"]";
  }

  /** The fields of an event stand in the order number, time, kind, parent. */
  lemma PrefixIsAnArray(seqNo: int, at: string, kind: string, previous: string)
    requires Plain(at) && Plain(kind) && Plain(previous)
    ensures Prefix(seqNo, at, kind, previous) ==
      "[" + Number(seqNo) + ",\"" + at + "\",\"" + kind + "\",\"" + previous + "\"]"
  {
    EncodedIsAscii(at);
    EncodedIsAscii(kind);
    EncodedIsAscii(previous);
    hide EscapeAll, Number, Plain;
    Joined(Number(seqNo), at, kind, previous);
  }
}
