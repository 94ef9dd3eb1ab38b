/**
  From a JSON reply that arrives in pieces to the sentences of its `say` value.

  `Spoken` reads a whole reply; the class `Stream` reads it delta by delta. They say the same
  list of sentences for every way of cutting the reply.
*/
module SayStream {
  import opened Options
  import opened Audio
  import Sequences

  const KEY: string := "\"say\""

  // ---------------------------------------------------------------------------------------
  // Characters and searching
  // ---------------------------------------------------------------------------------------

  /** The Unicode property White_Space. */
  predicate IsWhitespace(c: char) {
    var v := c as int;
    || 0x9 <= v <= 0xD || v == 0x20 || v == 0x85 || v == 0xA0 || v == 0x1680 || 0x2000 <= v <= 0x200A
    || v == 0x2028 || v == 0x2029 || v == 0x202F || v == 0x205F || v == 0x3000
  }

  predicate IsMark(c: char) {
    c == '.' || c == '?' || c == '!'
  }

  function TrimStart(s: string): string {
    if s != [] && IsWhitespace(s[0]) then TrimStart(s[1..]) else s
  }

  function TrimEnd(s: string): string {
    if s != [] && IsWhitespace(s[|s| - 1]) then TrimEnd(s[..|s| - 1]) else s
  }

  function Trim(s: string): string {
    TrimEnd(TrimStart(s))
  }

  /** Nothing is left of `s[i..j]` once it is trimmed. */
  predicate Blank(s: string, i: nat, j: nat)
    requires i <= j <= |s|
  {
    forall k :: i <= k < j ==> IsWhitespace(s[k])
  }

  lemma {:induction false} TrimmedAway(s: string)
    ensures Trim(s) == [] <==> Blank(s, 0, |s|)
  {
    TrimStartIsBlank(s);
    if TrimStart(s) != [] {
      TrimEndKeeps(TrimStart(s));
    }
  }

  lemma {:induction false} TrimStartIsBlank(s: string)
    ensures TrimStart(s) == [] <==> Blank(s, 0, |s|)
    ensures TrimStart(s) != [] ==> !IsWhitespace(TrimStart(s)[0])
  {
    if s != [] && IsWhitespace(s[0]) {
      TrimStartIsBlank(s[1..]);
      assert Blank(s, 0, |s|) <==> Blank(s[1..], 0, |s| - 1) by {
        assert forall k :: 1 <= k < |s| ==> s[k] == s[1..][k - 1];
      }
    }
  }

  lemma {:induction false} TrimEndKeeps(s: string)
    requires s != [] && !IsWhitespace(s[0])
    ensures TrimEnd(s) != []
  {
    if IsWhitespace(s[|s| - 1]) {
      TrimEndKeeps(s[..|s| - 1]);
    }
  }

  /** The first index at or after `i` where `what` stands in `s`. */
  function Find(s: string, what: string, i: nat): (r: Option<nat>)
    ensures r.Some? ==> i <= r.value && r.value + |what| <= |s|
    decreases |s| - i
  {
    if i + |what| > |s| then None
    else if s[i..i + |what|] == what then Some(i)
    else Find(s, what, i + 1)
  }

  /** The first index at or after `i` where `c` stands in `s`. */
  function FindChar(s: string, c: char, i: nat): (r: Option<nat>)
    ensures r.Some? ==> i <= r.value < |s| && s[r.value] == c && forall k :: i <= k < r.value ==> s[k] != c
    ensures r.None? ==> forall k :: i <= k < |s| ==> s[k] != c
    decreases |s| - i
  {
    if i >= |s| then None
    else if s[i] == c then Some(i)
    else FindChar(s, c, i + 1)
  }

  /** What is found stays found when the text grows. */
  lemma {:induction false} FindExtends(s: string, t: string, what: string, i: nat)
    requires s <= t && Find(s, what, i).Some?
    ensures Find(t, what, i) == Find(s, what, i)
    decreases |s| - i
  {
    assert t[i..i + |what|] == s[i..i + |what|];
    if s[i..i + |what|] != what {
      FindExtends(s, t, what, i + 1);
    }
  }

  // ---------------------------------------------------------------------------------------
  // The string being said
  // ---------------------------------------------------------------------------------------

  function Utf8Size(c: char): nat {
    var v := c as int;
    if v < 0x80 then 1 else if v < 0x800 then 2 else if v < 0x1_0000 then 3 else 4
  }

  function Utf8Length(s: string): nat {
    if s == [] then 0 else Utf8Size(s[0]) + Utf8Length(s[1..])
  }

  function HexDigit(c: char): Option<nat> {
    if '0' <= c <= '9' then Some(c as int - '0' as int)
    else if 'a' <= c <= 'f' then Some(c as int - 'a' as int + 10)
    else if 'A' <= c <= 'F' then Some(c as int - 'A' as int + 10)
    else None
  }

  function HexDigits(s: string): Option<nat> {
    if s == [] then Some(0)
    else
      var high, low := HexDigits(s[..|s| - 1]), HexDigit(s[|s| - 1]);
      if high.Some? && low.Some? then Some(16 * high.value + low.value) else None
  }

  /** Reading an unsigned number in base 16: one leading plus is taken, nothing else. */
  function ParseHex(s: string): Option<nat> {
    if s == [] || s == "+" then None
    else HexDigits(if s[0] == '+' then s[1..] else s)
  }

  predicate IsScalar(v: nat) {
    v < 0xD800 || 0xE000 <= v < 0x11_0000
  }

  /** The character four letters after `\u` stand for, if they stand for one. */
  function Escaped(hex: string): string {
    var v := ParseHex(hex);
    if v.Some? && IsScalar(v.value) then [v.value as char] else []
  }

  /** One character of a string being read: the end of it, or what it adds and where the next one is. */
  datatype Step = Stop(closed: bool) | Go(next: nat, text: string)

  function StepAt(s: string, i: nat): (r: Step)
    requires i < |s|
    ensures r.Go? ==> i < r.next <= |s|
  {
    if s[i] == '"' then Stop(true)
    else if s[i] != '\\' then Go(i + 1, [s[i]])
    else if i + 1 == |s| then Stop(false)
    else if s[i + 1] == 'n' || s[i + 1] == 't' || s[i + 1] == 'r' then Go(i + 2, " ")
    else if s[i + 1] == 'u' then
      var end := if i + 6 <= |s| then i + 6 else |s|;
      var hex := s[i + 2..end];
      if Utf8Length(hex) < 4 then Stop(false) else Go(end, Escaped(hex))
    else Go(i + 2, [s[i + 1]])
  }

  /** Reading on at `i`, with `out` read before: all the text, and true when a quote ended it. */
  function Body(s: string, i: nat, out: string): (string, bool)
    requires i <= |s|
    decreases |s| - i
  {
    if i == |s| then (out, false)
    else
      match StepAt(s, i)
      case Stop(closed) => (out, closed)
      case Go(next, text) => Body(s, next, out + text)
  }

  function QuoteAt(raw: string, from: nat): (r: Option<nat>)
    ensures r.Some? ==> r.value < |raw|
  {
    var quote := FindChar(raw, '"', from);
    if quote.None? || !Blank(raw, from, quote.value) then None else quote
  }

  /** The quote that opens the value after a key that ends at `from`: only white space may come before it. */
  function OpeningQuote(raw: string, from: nat): (r: Option<nat>)
    ensures r.Some? ==> r.value < |raw|
  {
    var colon := FindChar(raw, ':', from);
    if colon.None? then None else QuoteAt(raw, colon.value + 1)
  }

  /** Where the body of the string value of `key` starts. */
  function ValueStart(raw: string, key: string): (r: Option<nat>)
    ensures r.Some? ==> r.value <= |raw|
  {
    var at := Find(raw, key, 0);
    if at.None? then None else
      var quote := OpeningQuote(raw, at.value + |key|);
      if quote.None? then None else Some(quote.value + 1)
  }

  function BodyStart(raw: string): (r: Option<nat>)
    ensures r.Some? ==> r.value <= |raw|
  {
    ValueStart(raw, KEY)
  }

  /** What the reader makes of `raw`: the text of the value, and true when its end is in. */
  function DecodeSay(raw: string): Option<(string, bool)> {
    var start := BodyStart(raw);
    if start.None? then None else Some(Body(raw, start.value, []))
  }

  lemma {:induction false} Utf8AtLeastLength(s: string)
    ensures |s| <= Utf8Length(s)
    ensures HexDigits(s).Some? ==> Utf8Length(s) == |s|
  {
    if s != [] {
      Utf8AtLeastLength(s[1..]);
      if HexDigits(s).Some? {
        HexDigitsTail(s);
      }
    }
  }

  lemma {:induction false} HexDigitsTail(s: string)
    requires s != [] && HexDigits(s).Some?
    ensures HexDigit(s[0]).Some? && HexDigits(s[1..]).Some?
  {
    var front := s[..|s| - 1];
    if front != [] {
      HexDigitsTail(front);
      Sequences.Inner(s);
    }
  }

  /** A `\u` cut short gives no character, whatever letters follow it. */
  lemma ShortEscapeIsNothing(hex: string)
    requires |hex| < 4 <= Utf8Length(hex)
    ensures Escaped(hex) == []
  {
    if ParseHex(hex).Some? {
      var digits := if hex[0] == '+' then hex[1..] else hex;
      Utf8AtLeastLength(digits);
      assert false;
    }
  }

  lemma {:induction false} BodyKeeps(s: string, i: nat, out: string)
    requires i <= |s|
    ensures out <= Body(s, i, out).0
    decreases |s| - i
  {
    if i < |s| && StepAt(s, i).Go? {
      BodyKeeps(s, StepAt(s, i).next, out + StepAt(s, i).text);
    }
  }

  /** More of the reply leaves a step as it was, unless the reply stopped in the middle of it. */
  lemma StepExtends(s: string, t: string, i: nat)
    requires s <= t && i < |s|
    ensures StepAt(t, i) == StepAt(s, i) || StepAt(s, i) == Stop(false) || StepAt(s, i) == Go(|s|, [])
  {
    if s[i] == '\\' && i + 1 < |s| && s[i + 1] == 'u' {
      if i + 6 <= |s| {
        assert t[i + 2..i + 6] == s[i + 2..i + 6];
      } else if Utf8Length(s[i + 2..|s|]) >= 4 {
        ShortEscapeIsNothing(s[i + 2..|s|]);
      }
    }
  }

  /** More of the reply only adds to the text, and nothing once it is closed. */
  lemma {:induction false} BodyExtends(s: string, t: string, i: nat, out: string)
    requires s <= t && i <= |s|
    ensures Body(s, i, out).0 <= Body(t, i, out).0
    ensures Body(s, i, out).1 ==> Body(t, i, out) == Body(s, i, out)
    decreases |s| - i
  {
    if i == |s| {
      BodyKeeps(t, i, out);
    } else {
      StepExtends(s, t, i);
      if StepAt(t, i) == StepAt(s, i) {
        if StepAt(s, i).Go? {
          BodyExtends(s, t, StepAt(s, i).next, out + StepAt(s, i).text);
        }
      } else {
        BodyKeeps(t, i, out);
        assert out + [] == out;
      }
    }
  }

  lemma QuoteAtExtends(s: string, t: string, from: nat)
    requires s <= t && QuoteAt(s, from).Some?
    ensures QuoteAt(t, from) == QuoteAt(s, from)
  {
    var quote := FindChar(s, '"', from).value;
    assert FindChar(t, '"', from) == Some(quote);
  }

  lemma OpeningQuoteExtends(s: string, t: string, from: nat)
    requires s <= t && OpeningQuote(s, from).Some?
    ensures OpeningQuote(t, from) == OpeningQuote(s, from)
  {
    var colon := FindChar(s, ':', from).value;
    assert FindChar(t, ':', from) == Some(colon);
    QuoteAtExtends(s, t, colon + 1);
  }

  lemma ValueStartExtends(s: string, t: string, key: string)
    requires s <= t && ValueStart(s, key).Some?
    ensures ValueStart(t, key) == ValueStart(s, key)
  {
    FindExtends(s, t, key, 0);
    var from := Find(s, key, 0).value + |key|;
    assert OpeningQuote(s, from).Some?;
    OpeningQuoteExtends(s, t, from);
  }

  /** The decoded text only grows, and a closed one is final. */
  lemma DecodeExtends(s: string, t: string)
    requires s <= t && DecodeSay(s).Some?
    ensures DecodeSay(t).Some?
    ensures DecodeSay(s).value.0 <= DecodeSay(t).value.0
    ensures DecodeSay(s).value.1 ==> DecodeSay(t) == DecodeSay(s)
  {
    ValueStartExtends(s, t, KEY);
    BodyExtends(s, t, BodyStart(s).value, []);
  }

  // ---------------------------------------------------------------------------------------
  // Sentences
  // ---------------------------------------------------------------------------------------

  /** The sentence is over at `i`: a mark is there, and then white space, or the end of a closed text. */
  predicate Ends(text: string, closed: bool, i: nat)
    requires i < |text|
  {
    IsMark(text[i]) && if i + 1 < |text| then IsWhitespace(text[i + 1]) else closed
  }

  /** The sentences ended from `i` on, the first of them begun at `start`, and where the rest begins. */
  function Cut(text: string, closed: bool, start: nat, i: nat): (r: (seq<string>, nat))
    requires start <= i <= |text|
    ensures start <= r.1 <= |text|
    decreases |text| - i
  {
    if i == |text| then ([], start)
    else if Ends(text, closed, i) then
      var later := Cut(text, closed, i + 1, i + 1);
      ([text[start..i + 1]] + later.0, later.1)
    else Cut(text, closed, start, i + 1)
  }

  /** A text as its sentences, the last one with or without its mark. */
  function Pieces(text: string): seq<string> {
    var cut := Cut(text, true, 0, 0);
    cut.0 + [text[cut.1..]]
  }

  /** What is said of a piece: nothing of one that is all white space. */
  function Said(pieces: seq<string>): seq<string> {
    if pieces == [] then []
    else Said(pieces[..|pieces| - 1]) + SaidPiece(pieces[|pieces| - 1])
  }

  function SaidPiece(piece: string): seq<string> {
    if Trim(piece) == [] then [] else [Trim(piece)]
  }

  /** What is said of a whole reply. */
  function Spoken(raw: string): seq<string> {
    match DecodeSay(raw)
    case None => []
    case Some((text, _)) => Said(Pieces(text))
  }

  lemma {:induction false} SaidAppend(a: seq<string>, b: seq<string>)
    ensures Said(a + b) == Said(a) + Said(b)
  {
    if b == [] {
      assert a + b == a;
    } else {
      var front := b[..|b| - 1];
      assert (a + b)[..|a + b| - 1] == a + front;
      SaidAppend(a, front);
    }
  }

  lemma SaidThen(pieces: seq<string>, piece: string)
    ensures Said(pieces + [piece]) == Said(pieces) + SaidPiece(piece)
  {
    assert (pieces + [piece])[..|pieces|] == pieces;
  }

  lemma SaidOne(piece: string)
    ensures Said([piece]) == SaidPiece(piece)
  {
    assert [] + [piece] == [piece];
    SaidThen([], piece);
  }

  lemma NothingSaid()
    ensures SaidPiece([]) == []
  {
  }

  /** Cutting loses and repeats nothing. */
  lemma {:induction false} CutKeepsAll(text: string, closed: bool, start: nat, i: nat)
    requires start <= i <= |text|
    ensures var cut := Cut(text, closed, start, i); Flatten(cut.0) + text[cut.1..] == text[start..]
    decreases |text| - i
  {
    if i < |text| {
      if Ends(text, closed, i) {
        CutKeepsAll(text, closed, i + 1, i + 1);
        var later := Cut(text, closed, i + 1, i + 1);
        FlattenPrepend(text[start..i + 1], later.0);
        assert text[start..] == text[start..i + 1] + text[i + 1..];
      } else {
        CutKeepsAll(text, closed, start, i + 1);
      }
    }
  }

  lemma {:induction false} FlattenPrepend<T>(first: seq<T>, rest: seq<seq<T>>)
    ensures Flatten([first] + rest) == first + Flatten(rest)
  {
    var all := [first] + rest;
    if rest == [] {
      assert all[..0] == [];
      assert Flatten(all) == Flatten(all[..0]) + all[0];
    } else {
      var front := rest[..|rest| - 1];
      assert all[..|all| - 1] == [first] + front;
      FlattenPrepend(first, front);
    }
  }

  /** The pieces of a text put together are the text. */
  lemma PiecesRebuild(text: string)
    ensures Flatten(Pieces(text)) == text
  {
    CutKeepsAll(text, true, 0, 0);
    var cut := Cut(text, true, 0, 0);
    assert Pieces(text)[..|cut.0|] == cut.0;
  }

  lemma {:induction false} CutSkips(text: string, closed: bool, start: nat, i: nat, j: nat)
    requires start <= i <= j <= |text|
    requires forall k :: i <= k < j ==> !Ends(text, closed, k)
    ensures Cut(text, closed, start, i) == Cut(text, closed, start, j)
    decreases j - i
  {
    if i < j {
      CutSkips(text, closed, start, i + 1, j);
    }
  }

  /** Cutting a longer text: first what the shorter one gave, then the rest from where it stopped. */
  lemma {:induction false} CutExtends(s: string, c: bool, t: string, d: bool, start: nat, i: nat)
    requires s <= t && (c ==> t == s && d)
    requires start <= i <= |s| && (i == |s| ==> start == i)
    requires forall k :: start <= k < i ==> !Ends(t, d, k)
    ensures var short := Cut(s, c, start, i);
      var more := Cut(t, d, short.1, short.1);
      Cut(t, d, start, i) == (short.0 + more.0, more.1)
    decreases |s| - i
  {
    if i < |s| {
      if Ends(s, c, i) {
        CutExtends(s, c, t, d, i + 1, i + 1);
        var short := Cut(s, c, i + 1, i + 1);
        var more := Cut(t, d, short.1, short.1);
        assert [s[start..i + 1]] + short.0 + more.0 == [s[start..i + 1]] + (short.0 + more.0);
        assert t[start..i + 1] == s[start..i + 1];
      } else if i + 1 < |s| {
        CutExtends(s, c, t, d, start, i + 1);
      } else {
        CutSkips(t, d, start, start, i);
        var more := Cut(t, d, start, start);
        assert [] + more.0 == more.0;
      }
    } else {
      var more := Cut(t, d, start, start);
      assert [] + more.0 == more.0;
    }
  }

  lemma SaidCut(first: string, middle: seq<string>, last: string)
    ensures Said([first] + middle + [last]) == SaidPiece(first) + Said(middle + [last])
  {
    assert [first] + middle + [last] == [first] + (middle + [last]);
    SaidAppend([first], middle + [last]);
    SaidOne(first);
  }

  /** Where a mark stands at the very end, a closed text is cut and an open one is not. */
  lemma {:induction false} CutAtTheEnd(text: string, start: nat, i: nat)
    requires start <= i && i + 1 == |text| && IsMark(text[i])
    ensures Cut(text, true, start, i) == ([text[start..]], i + 1)
    ensures Cut(text, false, start, i) == ([], start)
  {
    assert text[start..i + 1] == text[start..];
    assert Cut(text, true, i + 1, i + 1) == ([], i + 1);
    assert [text[start..]] + [] == [text[start..]];
    assert Cut(text, false, start, i + 1) == ([], start);
  }

  lemma {:induction false} SaidWithNothing(rest: string)
    ensures Said([rest] + [[]]) == Said([] + [rest])
  {
    SaidThen([rest], []);
    NothingSaid();
    assert Said([rest]) + [] == Said([rest]);
    assert [] + [rest] == [rest];
  }

  /** A mark at the very end: its sentence is said whether it is cut there or left as the rest. */
  lemma {:induction false} LastSentence(text: string, start: nat, i: nat)
    requires start <= i && i + 1 == |text| && IsMark(text[i])
    ensures var open, closed := Cut(text, false, start, i), Cut(text, true, start, i);
      Said(open.0 + [text[open.1..]]) == Said(closed.0 + [text[closed.1..]])
  {
    CutAtTheEnd(text, start, i);
    SaidWithNothing(text[start..]);
    assert text[i + 1..] == [];
  }

  /** Whether the reply closed its string makes no difference to what is said in the end. */
  lemma {:induction false} CutClosed(text: string, start: nat, i: nat)
    requires start <= i <= |text|
    ensures var open, closed := Cut(text, false, start, i), Cut(text, true, start, i);
      Said(open.0 + [text[open.1..]]) == Said(closed.0 + [text[closed.1..]])
    decreases |text| - i
  {
    if i < |text| {
      if Ends(text, false, i) {
        CutClosed(text, i + 1, i + 1);
        var open, closed := Cut(text, false, i + 1, i + 1), Cut(text, true, i + 1, i + 1);
        SaidCut(text[start..i + 1], open.0, text[open.1..]);
        SaidCut(text[start..i + 1], closed.0, text[closed.1..]);
      } else if Ends(text, true, i) {
        LastSentence(text, start, i);
      } else {
        CutClosed(text, start, i + 1);
      }
    }
  }

  lemma RestCompletes(text: string, closed: bool)
    ensures var cut := Cut(text, closed, 0, 0); Said(cut.0) + SaidPiece(text[cut.1..]) == Said(Pieces(text))
  {
    var cut := Cut(text, closed, 0, 0);
    SaidThen(cut.0, text[cut.1..]);
    CutClosed(text, 0, 0);
  }

  // ---------------------------------------------------------------------------------------
  // Strings as section 7 of RFC 8259 writes them
  // ---------------------------------------------------------------------------------------

  /** A scalar value as a character; anything else is the replacement character. */
  function CodePoint(v: Option<nat>): char {
    if v.Some? && IsScalar(v.value) then v.value as char else 0xFFFD as char
  }

  /** One character as a JSON string may write it. */
  datatype Written =
    | Plain(c: char)             // the character itself
    | Quoted(c: char)            // \" \\ \/
    | Control(letter: char)      // \b \f \n \r \t
    | Hex(digits: string)        // \uXXXX, not a surrogate
    | Pair(high: string, low: string)  // two surrogates, one character
  {
    predicate Valid() {
      match this
      case Plain(c) => c != '"' && c != '\\' && c as int >= 0x20
      case Quoted(c) => c == '"' || c == '\\' || c == '/'
      case Control(l) => l == 'b' || l == 'f' || l == 'n' || l == 'r' || l == 't'
      case Hex(d) => |d| == 4 && HexDigits(d).Some? && IsScalar(HexDigits(d).value)
      case Pair(h, l) =>
        && |h| == 4 && HexDigits(h).Some? && 0xD800 <= HexDigits(h).value < 0xDC00
        && |l| == 4 && HexDigits(l).Some? && 0xDC00 <= HexDigits(l).value < 0xE000
    }

    /** How it is spelled. */
    function Spelling(): string {
      match this
      case Plain(c) => [c]
      case Quoted(c) => ['\\', c]
      case Control(l) => ['\\', l]
      case Hex(d) => "\\u" + d
      case Pair(h, l) => "\\u" + h + "\\u" + l
    }

    /** The character it stands for. */
    function Meaning(): char {
      match this
      case Plain(c) => c
      case Quoted(c) => c
      case Control(l) =>
        (if l == 'b' then 8 else if l == 'f' then 12 else if l == 'n' then 10 else if l == 'r' then 13 else 9) as char
      case Hex(d) => CodePoint(HexDigits(d))
      case Pair(h, l) =>
        var high, low := HexDigits(h), HexDigits(l);
        if high.Some? && high.value >= 0xD800 && low.Some? && low.value >= 0xDC00 then
          CodePoint(Some(0x1_0000 + (high.value - 0xD800) * 0x400 + (low.value - 0xDC00)))
        else CodePoint(None)
    }

    /** What the reader makes of it. */
    function Heard(): string {
      match this
      case Control(l) => if l == 'b' || l == 'f' then [l] else " "
      case Pair(_, _) => []
      case _ => [Meaning()]
    }

    /** The reader takes it for what it stands for. */
    predicate Faithful() {
      !Control? && !Pair?
    }
  }

  predicate ValidText(ws: seq<Written>) {
    forall w <- ws :: w.Valid()
  }

  function Spellings(ws: seq<Written>): string {
    if ws == [] then [] else ws[0].Spelling() + Spellings(ws[1..])
  }

  function Meanings(ws: seq<Written>): (r: string)
    ensures |r| == |ws|
  {
    if ws == [] then [] else [ws[0].Meaning()] + Meanings(ws[1..])
  }

  function HeardText(ws: seq<Written>): string {
    if ws == [] then [] else ws[0].Heard() + HeardText(ws[1..])
  }

  lemma HexIsRead(d: string)
    requires |d| == 4 && HexDigits(d).Some?
    ensures Utf8Length(d) == 4 && ParseHex(d) == HexDigits(d)
  {
    Utf8AtLeastLength(d);
    HexDigitsTail(d);
  }

  /** `what` is written in `s` from `i` on. */
  ghost predicate StandsAt(s: string, i: nat, what: string) {
    i + |what| <= |s| && forall k :: 0 <= k < |what| ==> s[i + k] == what[k]
  }

  lemma StandsSplit(s: string, i: nat, a: string, b: string)
    requires StandsAt(s, i, a + b)
    ensures StandsAt(s, i, a) && StandsAt(s, i + |a|, b)
  {
    var ab := a + b;
    forall k | 0 <= k < |a| ensures s[i + k] == a[k] {
      assert s[i + k] == ab[k];
    }
    forall k | 0 <= k < |b| ensures s[i + |a| + k] == b[k] {
      assert s[i + (|a| + k)] == ab[|a| + k];
    }
  }

  lemma StepReadsHex(s: string, i: nat, d: string)
    requires |d| == 4 && HexDigits(d).Some? && StandsAt(s, i, "\\u" + d)
    ensures StepAt(s, i) == Go(i + 6, Escaped(d))
  {
    StandsSplit(s, i, "\\u", d);
    var hex := "\\u" + d;
    assert s[i + 0] == hex[0] && s[i + 1] == hex[1];
    assert forall k :: 0 <= k < 4 ==> s[i + (k + 2)] == hex[k + 2] == d[k];
    assert s[i + 2..i + 6] == s[i + 2..][..4] == d;
    HexIsRead(d);
  }

  /** One written character, wherever it stands in the string. */
  lemma BodyReadsOne(s: string, i: nat, out: string, w: Written)
    requires w.Valid() && StandsAt(s, i, w.Spelling())
    ensures Body(s, i, out) == Body(s, i + |w.Spelling()|, out + w.Heard())
  {
    match w
    case Plain(c) => assert s[i + 0] == w.Spelling()[0];
    case Quoted(c) => assert s[i + 0] == w.Spelling()[0] && s[i + 1] == w.Spelling()[1];
    case Control(l) => assert s[i + 0] == w.Spelling()[0] && s[i + 1] == w.Spelling()[1];
    case Hex(d) =>
      StepReadsHex(s, i, d);
      HexIsRead(d);
    case Pair(h, l) =>
      BodyReadsPair(s, i, out, w, h, l);
  }

  lemma BodyReadsPair(s: string, i: nat, out: string, w: Written, h: string, l: string)
    requires w == Pair(h, l) && w.Valid() && StandsAt(s, i, w.Spelling())
    ensures Body(s, i, out) == Body(s, i + |w.Spelling()|, out + w.Heard())
  {
    assert w.Spelling() == ("\\u" + h) + ("\\u" + l);
    StandsSplit(s, i, "\\u" + h, "\\u" + l);
    HexIsRead(h);
    HexIsRead(l);
    assert Escaped(h) == [] && Escaped(l) == [];
    assert out + [] == out;
    StepReadsHex(s, i, h);
    StepReadsHex(s, i + 6, l);
  }

  /** A string as it stands in a reply, with its closing quote. */
  function Closed(ws: seq<Written>): string {
    if ws == [] then ['"'] else ws[0].Spelling() + Closed(ws[1..])
  }

  lemma {:induction false} ClosedStep(s: string, i: nat, ws: seq<Written>)
    requires ws != [] && StandsAt(s, i, Closed(ws))
    ensures StandsAt(s, i, ws[0].Spelling()) && StandsAt(s, i + |ws[0].Spelling()|, Closed(ws[1..]))
  {
    StandsSplit(s, i, ws[0].Spelling(), Closed(ws[1..]));
  }

  /** It is its spelling and then the quote. */
  lemma {:induction false} ClosedIs(ws: seq<Written>)
    ensures Closed(ws) == Spellings(ws) + ['"']
  {
    if ws != [] {
      ClosedIs(ws[1..]);
      Sequences.Regroup(ws[0].Spelling(), Spellings(ws[1..]), ['"']);
    }
  }

  lemma ClosedEnd(s: string, i: nat, out: string)
    requires StandsAt(s, i, Closed([]))
    ensures Body(s, i, out) == (out, true)
  {
    assert s[i + 0] == Closed([])[0];
  }

  lemma HeardStep(out: string, ws: seq<Written>)
    requires ws != []
    ensures out + ws[0].Heard() + HeardText(ws[1..]) == out + HeardText(ws)
  {
  }

  /** Any string, wherever it stands. */
  lemma {:induction false} BodyReadsAll(s: string, i: nat, out: string, ws: seq<Written>)
    requires ValidText(ws) && StandsAt(s, i, Closed(ws))
    ensures Body(s, i, out) == (out + HeardText(ws), true)
    decreases |ws|
  {
    if ws == [] {
      assert out + HeardText([]) == out;
      ClosedEnd(s, i, out);
    } else {
      ClosedStep(s, i, ws);
      var j, more := i + |ws[0].Spelling()|, out + ws[0].Heard();
      BodyReadsAll(s, j, more, ws[1..]);
      HeardStep(out, ws);
      BodyReadsOne(s, i, out, ws[0]);
    }
  }

  lemma {:induction false} HeardNoLonger(ws: seq<Written>)
    ensures |HeardText(ws)| <= |ws|
    ensures |HeardText(ws)| == |ws| <==> forall w <- ws :: !w.Pair?
  {
    if ws != [] {
      HeardNoLonger(ws[1..]);
      assert forall w <- ws :: w == ws[0] || w in ws[1..];
    }
  }

  lemma Heads(a: char, s: string, b: char, t: string)
    ensures [a] + s == [b] + t <==> a == b && s == t
  {
    assert ([a] + s)[0] == a && ([a] + s)[1..] == s && ([b] + t)[0] == b && ([b] + t)[1..] == t;
  }

  lemma OneHeard(w: Written)
    requires w.Valid()
    ensures if w.Pair? then w.Heard() == [] && !w.Faithful()
      else |w.Heard()| == 1 && w.Heard() == [w.Heard()[0]] && (w.Heard()[0] == w.Meaning() <==> w.Faithful())
  {
  }

  /** The reader hears exactly what was written when, and only when, nothing was written as a
      control escape or a surrogate pair. */
  lemma {:induction false} HeardIsMeantExactly(ws: seq<Written>)
    requires ValidText(ws)
    ensures HeardText(ws) == Meanings(ws) <==> forall w <- ws :: w.Faithful()
  {
    if ws != [] {
      var rest := ws[1..];
      HeardIsMeantExactly(rest);
      HeardNoLonger(ws);
      HeardNoLonger(rest);
      assert forall w <- ws :: w == ws[0] || w in rest;
      OneHeard(ws[0]);
      if ws[0].Pair? {
        assert [] + HeardText(rest) == HeardText(rest);
      } else {
        Heads(ws[0].Heard()[0], HeardText(rest), ws[0].Meaning(), Meanings(rest));
      }
    }
  }

  /** Between a key and its string: a colon, then white space only. */
  lemma QuoteOpens(raw: string, from: nat, colon: nat, quote: nat)
    requires from <= colon < quote < |raw|
    requires raw[colon] == ':' && ':' !in raw[from..colon]
    requires raw[quote] == '"' && Blank(raw, colon + 1, quote)
    ensures OpeningQuote(raw, from) == Some(quote)
  {
    assert FindChar(raw, ':', from) == Some(colon) by {
      assert forall k :: from <= k < colon ==> raw[k] in raw[from..colon];
    }
    assert FindChar(raw, '"', colon + 1) == Some(quote);
  }

  /** A string written `ws` is read whole, nothing of it is lost in the pieces, and it is what
      was meant exactly when nothing in it is a control escape or a surrogate pair. */
  lemma StringIsRead(raw: string, body: nat, ws: seq<Written>)
    requires ValidText(ws) && StandsAt(raw, body, Closed(ws))
    ensures Body(raw, body, []) == (HeardText(ws), true)
    ensures Flatten(Pieces(HeardText(ws))) == HeardText(ws)
    ensures HeardText(ws) == Meanings(ws) <==> forall w <- ws :: w.Faithful()
  {
    var heard := HeardText(ws);
    BodyReadsAll(raw, body, [], ws);
    assert [] + heard == heard;
    HeardIsMeantExactly(ws);
    PiecesRebuild(heard);
  }

  /** The same string where the reader finds its value. */
  lemma {:induction false} ValueIsRead(raw: string, body: nat, ws: seq<Written>)
    requires ValidText(ws)
    requires BodyStart(raw) == Some(body) && StandsAt(raw, body, Closed(ws))
    ensures DecodeSay(raw) == Some((HeardText(ws), true))
    ensures Spoken(raw) == Said(Pieces(HeardText(ws)))
    ensures (forall w <- ws :: w.Faithful()) ==> Spoken(raw) == Said(Pieces(Meanings(ws)))
  {
    StringIsRead(raw, body, ws);
    assert DecodeSay(raw) == Some((HeardText(ws), true));
  }

  // ---------------------------------------------------------------------------------------
  // The machine
  // ---------------------------------------------------------------------------------------

  /** The loop over the characters of the string. */
  method ReadBody(s: string, from: nat) returns (out: string, closed: bool)
    requires from <= |s|
    ensures (out, closed) == Body(s, from, [])
  {
    out := [];
    var i := from;
    while i < |s|
      invariant from <= i <= |s|
      invariant Body(s, i, out) == Body(s, from, [])
    {
      var ch := s[i];
      i := i + 1;
      if ch == '"' {
        return out, true;
      }
      if ch == '\\' {
        if i == |s| {
          return out, false;
        }
        var next := s[i];
        i := i + 1;
        if next == 'n' || next == 't' || next == 'r' {
          out := out + " ";
        } else if next == 'u' {
          var end := if i + 4 <= |s| then i + 4 else |s|;
          var hex := s[i..end];
          if Utf8Length(hex) < 4 {
            return out, false;
          }
          i := end;
          out := out + Escaped(hex);
        } else {
          out := out + [next];
        }
      } else {
        out := out + [ch];
      }
    }
    closed := false;
  }

  class Stream {
    var raw: string
    /** How much of the text `Push` has returned. */
    var emitted: nat
    ghost var said: seq<string>

    ghost predicate Valid()
      reads this
    {
      match DecodeSay(raw)
      case None => emitted == 0 && said == []
      case Some((text, closed)) =>
        var cut := Cut(text, closed, 0, 0);
        emitted == cut.1 && said == Said(cut.0)
    }

    constructor ()
      ensures Valid() && raw == [] && said == []
    {
      raw, emitted, said := [], 0, [];
    }

    /** The sentences of `text` that are complete, from what was handed out on. */
    method Sentences(text: string, closed: bool) returns (out: seq<string>)
      requires emitted <= |text|
      modifies this`emitted
      ensures (var cut := Cut(text, closed, old(emitted), old(emitted)); out == Said(cut.0) && emitted == cut.1)
    {
      out := [];
      var start: nat, i: nat := emitted, emitted;
      ghost var all := Cut(text, closed, emitted, emitted);
      ghost var done, later := [], all.0;
      while i < |text|
        invariant start <= i <= |text|
        invariant out == Said(done) && done + later == all.0
        invariant Cut(text, closed, start, i) == (later, all.1)
      {
        if Ends(text, closed, i) {
          var sentence := text[start..i + 1];
          SaidThen(done, sentence);
          out := out + SaidPiece(sentence);
          later := Cut(text, closed, i + 1, i + 1).0;
          Sequences.Regroup(done, [sentence], later);
          done := done + [sentence];
          start := i + 1;
        }
        i := i + 1;
      }
      assert done == all.0;
      emitted := start;
    }

    /** One more piece of the reply; the sentences that are over with it. */
    method Push(delta: string) returns (out: seq<string>)
      requires Valid()
      modifies this
      ensures Valid()
      ensures raw == old(raw) + delta
      ensures said == old(said) + out
    {
      var before := raw;
      raw := raw + delta;
      var start := BodyStart(raw);
      if start.None? {
        if DecodeSay(before).Some? {
          DecodeExtends(before, raw);
        }
        return [];
      }
      var text, closed := ReadBody(raw, start.value);
      if DecodeSay(before).Some? {
        DecodeExtends(before, raw);
        var (s, c) := DecodeSay(before).value;
        CutExtends(s, c, text, closed, 0, 0);
        SaidAppend(Cut(s, c, 0, 0).0, Cut(text, closed, emitted, emitted).0);
      }
      out := Sentences(text, closed);
      said := said + out;
    }

    /** Whatever `Push` did not return. */
    method Rest() returns (out: Option<string>)
      requires Valid()
      modifies this
      ensures raw == old(raw)
      ensures old(said) + (if out.Some? then [out.value] else []) == Spoken(raw)
    {
      var start := BodyStart(raw);
      if start.None? {
        return None;
      }
      var text, closed := ReadBody(raw, start.value);
      var rest := text[emitted..];
      RestCompletes(text, closed);
      emitted := |text|;
      out := if Trim(rest) == [] then None else Some(Trim(rest));
    }
  }

  /** However the reply is cut up, the sentences said are the whole reply's. */
  method SpeakStream(deltas: seq<string>) returns (out: seq<string>)
    ensures out == Spoken(Flatten(deltas))
  {
    var s := new Stream();
    out := [];
    for d := 0 to |deltas|
      invariant fresh(s) && s.Valid()
      invariant s.raw == Flatten(deltas[..d]) && s.said == out
    {
      assert deltas[..d + 1][..d] == deltas[..d];
      var more := s.Push(deltas[d]);
      out := out + more;
    }
    assert deltas[..|deltas|] == deltas;
    var rest := s.Rest();
    out := out + if rest.Some? then [rest.value] else [];
  }
}
