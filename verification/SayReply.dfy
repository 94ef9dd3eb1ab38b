/**
  Which string of a reply is the one that is said.

  A reply is text with JSON strings in it. The reader looks for the first `"say"` in the raw
  text, whatever it is part of, so it takes the right key exactly when nothing before that key
  looks like it.
*/
module SayReply {
  import opened Options
  import opened Audio
  import opened SayStream
  import Sequences

  const QUOTE: char := '"'

  /** Some text without quotes, and then a string. */
  datatype Piece = Piece(bare: string, ws: seq<Written>)

  predicate ValidPiece(p: Piece) {
    QUOTE !in p.bare && ValidText(p.ws)
  }

  function InQuotes(spelling: string): string {
    [QUOTE] + spelling + [QUOTE]
  }

  /** The pieces, some text, the key `say`, and what comes after it. */
  function Rest(ps: seq<Piece>, bare: string, tail: string): string {
    if ps == [] then bare + (KEY + tail)
    else ps[0].bare + (InQuotes(Spellings(ps[0].ws)) + Rest(ps[1..], bare, tail))
  }

  /** The key, the colon and white space, and the string that is said. */
  datatype Entry = Entry(beforeColon: string, afterColon: string, ws: seq<Written>)

  predicate ValidEntry(e: Entry) {
    && ':' !in e.beforeColon && Blank(e.afterColon, 0, |e.afterColon|) && QUOTE !in e.afterColon
    && ValidText(e.ws)
  }

  function Value(e: Entry, tail: string): string {
    e.beforeColon + ":" + e.afterColon + [QUOTE] + Closed(e.ws) + tail
  }

  /** A reply: pieces, some text, the key `say` and its string, and anything after it. */
  function Reply(ps: seq<Piece>, bare: string, e: Entry, tail: string): string {
    Rest(ps, bare, Value(e, tail))
  }

  /** Where the key stands. */
  function KeyAt(ps: seq<Piece>, bare: string): nat {
    if ps == [] then |bare| else |ps[0].bare| + (|Spellings(ps[0].ws)| + 2 + KeyAt(ps[1..], bare))
  }

  // ---------------------------------------------------------------------------------------
  // What looks like the key
  // ---------------------------------------------------------------------------------------

  /** The text has `say` at `i`. */
  predicate SayAt(s: string, i: nat) {
    i + 3 <= |s| && s[i] == 's' && s[i + 1] == 'a' && s[i + 2] == 'y'
  }

  /** The text is `say`. */
  predicate IsSay(s: string) {
    |s| == 3 && SayAt(s, 0)
  }

  /** The string is `say`, or its spelling ends in an escaped quote and `say`. */
  predicate LooksLikeKey(spelling: string) {
    IsSay(spelling) || (|spelling| >= 4 && spelling[|spelling| - 4] == QUOTE && SayAt(spelling, |spelling| - 3))
  }

  /** Some string of the pieces looks like the key, or the text between two strings is `say`. */
  ghost predicate Decoy(ps: seq<Piece>, bare: string, first: bool) {
    if ps == [] then !first && IsSay(bare)
    else LooksLikeKey(Spellings(ps[0].ws)) || (!first && IsSay(ps[0].bare)) || Decoy(ps[1..], bare, false)
  }

  /** In a string that is spelled right every quote has a backslash before it. */
  ghost predicate QuotesEscaped(s: string) {
    forall q :: 0 <= q < |s| && s[q] == QUOTE ==> q > 0 && s[q - 1] == '\\'
  }

  lemma {:induction false} EscapedAppend(a: string, b: string)
    requires QuotesEscaped(a) && QuotesEscaped(b)
    ensures QuotesEscaped(a + b)
  {
  }

  lemma {:induction false} HexHasNoQuote(d: string)
    requires HexDigits(d).Some?
    ensures QUOTE !in d
  {
    if d != [] {
      HexHasNoQuote(d[..|d| - 1]);
      assert d == d[..|d| - 1] + [d[|d| - 1]];
    }
  }

  lemma {:induction false} SpellingIsEscaped(w: Written)
    requires w.Valid()
    ensures QuotesEscaped(w.Spelling())
  {
    match w
    case Hex(d) => HexHasNoQuote(d);
    case Pair(h, l) =>
      HexHasNoQuote(h);
      HexHasNoQuote(l);
    case _ =>
  }

  lemma {:induction false} SpellingsAreEscaped(ws: seq<Written>)
    requires ValidText(ws)
    ensures QuotesEscaped(Spellings(ws))
  {
    if ws != [] {
      assert ws[0] in ws && forall w <- ws[1..] :: w in ws;
      SpellingIsEscaped(ws[0]);
      SpellingsAreEscaped(ws[1..]);
      EscapedAppend(ws[0].Spelling(), Spellings(ws[1..]));
    }
  }

  /** The key stands in the text at `k`. */
  ghost predicate KeyStands(s: string, k: nat) {
    k + 5 <= |s| && s[k] == QUOTE && SayAt(s, k + 1) && s[k + 4] == QUOTE
  }

  lemma KeyIsFive(s: string, k: nat)
    ensures k + |KEY| <= |s| ==> (s[k..k + |KEY|] == KEY <==> KeyStands(s, k))
    ensures |KEY| == 5
  {
    if k + 5 <= |s| {
      var w := s[k..k + 5];
      assert w[0] == s[k] && w[1] == s[k + 1] && w[2] == s[k + 2] && w[3] == s[k + 3] && w[4] == s[k + 4];
      assert KeyStands(s, k) ==> w == KEY;
    }
  }

  /** A quote, `n` characters with every quote escaped, a quote, `m` characters without, and a quote. */
  ghost predicate TwoStrings(s: string, n: nat, m: nat) {
    && n + 2 + m < |s| && s[0] == QUOTE && s[n + 1] == QUOTE && s[n + 2 + m] == QUOTE
    && (forall i :: 1 <= i <= n && s[i] == QUOTE ==> i > 1 && s[i - 1] == '\\')
    && (forall i :: n + 2 <= i < n + 2 + m ==> s[i] != QUOTE)
  }

  /** There the key can start at the first quote, at the second, or at the last one before that. */
  lemma KeyAmongQuotes(s: string, n: nat, m: nat, k: nat)
    requires TwoStrings(s, n, m) && k <= n + 1 && KeyStands(s, k)
    ensures (k == n + 1 && m == 3) || (k == 0 && n == 3) || (k > 0 && n == k + 3)
  {
  }

  lemma {:induction false} AreTwoStrings(sp: string, next: string, more: string)
    requires QuotesEscaped(sp) && QUOTE !in next
    ensures var s := InQuotes(sp) + next + [QUOTE] + more;
      TwoStrings(s, |sp|, |next|) && s[1..|sp| + 1] == sp && s[|sp| + 2..|sp| + 2 + |next|] == next
  {
    var n, s := |sp|, InQuotes(sp) + next + [QUOTE] + more;
    assert s[1..n + 1] == sp && s[n + 2..n + 2 + |next|] == next;
    assert forall i :: 1 <= i <= n ==> s[i] == s[1..n + 1][i - 1];
    assert forall i :: n + 2 <= i < n + 2 + |next| ==> s[i] == s[n + 2..n + 2 + |next|][i - n - 2];
  }

  /** A key that starts in a string, or at its closing quote, makes the string look like it, or what follows. */
  lemma {:induction false} StringHidesNoKey(sp: string, next: string, more: string, k: nat)
    requires QuotesEscaped(sp) && QUOTE !in next && k <= |sp| + 1
    requires KeyStands(InQuotes(sp) + next + [QUOTE] + more, k)
    ensures LooksLikeKey(sp) || IsSay(next)
  {
    AreTwoStrings(sp, next, more);
    KeyReadOff(InQuotes(sp) + next + [QUOTE] + more, sp, next, k);
  }

  lemma {:induction false} KeyReadOff(s: string, sp: string, next: string, k: nat)
    requires TwoStrings(s, |sp|, |next|) && s[1..|sp| + 1] == sp && s[|sp| + 2..|sp| + 2 + |next|] == next
    requires k <= |sp| + 1 && KeyStands(s, k)
    ensures LooksLikeKey(sp) || IsSay(next)
  {
    var n, m := |sp|, |next|;
    KeyAmongQuotes(s, n, m, k);
    assert forall i :: 0 <= i < n ==> sp[i] == s[i + 1];
    assert forall i :: 0 <= i < m ==> next[i] == s[n + 2 + i];
  }

  /** A key inside a text stands there whatever comes before and after. */
  lemma KeyShifts(a: string, s: string, k: nat)
    ensures KeyStands(a + s, |a| + k) <==> KeyStands(s, k)
  {
  }

  lemma NoKeyInBare(a: string, s: string, k: nat)
    requires QUOTE !in a && k < |a|
    ensures !KeyStands(a + s, k)
  {
    assert (a + s)[k] == a[k];
  }

  /** Text that begins with something other than `say`, and then a quote. */
  ghost predicate OpensClear(s: string, next: string, more: string) {
    s == next + [QUOTE] + more && QUOTE !in next
  }

  /** What follows the pieces opens so, with the pieces' next text. */
  lemma {:induction false} RestOpens(ps: seq<Piece>, bare: string, tail: string) returns (next: string, more: string)
    requires (forall p <- ps :: ValidPiece(p)) && QUOTE !in bare
    ensures OpensClear(Rest(ps, bare, tail), next, more)
    ensures next == if ps == [] then bare else ps[0].bare
  {
    if ps == [] {
      next, more := bare, KEY[1..] + tail;
      assert KEY == [QUOTE] + KEY[1..];
      Sequences.Regroup([QUOTE], KEY[1..], tail);
      Sequences.Regroup(bare, [QUOTE], more);
    } else {
      assert ValidPiece(ps[0]);
      var sp, after := Spellings(ps[0].ws), Rest(ps[1..], bare, tail);
      next, more := ps[0].bare, sp + [QUOTE] + after;
      Sequences.Regroup4([QUOTE], sp, [QUOTE], after);
      Sequences.Regroup(next, [QUOTE], more);
    }
  }

  /** Where a key can stand in a piece and what follows it. */
  lemma {:induction false} KeyInPiece(b: string, sp: string, after: string, next: string, more: string, k: nat)
    requires QUOTE !in b && QuotesEscaped(sp) && OpensClear(after, next, more)
    requires KeyStands(b + (InQuotes(sp) + after), k)
    ensures LooksLikeKey(sp) || IsSay(next) || (k >= |b| + |sp| + 2 && KeyStands(after, k - |b| - |sp| - 2))
  {
    if k < |b| {
      NoKeyInBare(b, InQuotes(sp) + after, k);
    } else {
      var i := k - |b|;
      KeyShifts(b, InQuotes(sp) + after, i);
      if i <= |sp| + 1 {
        Sequences.Regroup4(InQuotes(sp), next, [QUOTE], more);
        StringHidesNoKey(sp, next, more, i);
      } else {
        KeyShifts(InQuotes(sp), after, i - |sp| - 2);
      }
    }
  }

  /** With no decoy the key is the first thing that looks like it. */
  lemma {:induction false} NoKeyBefore(ps: seq<Piece>, bare: string, first: bool, tail: string, k: nat)
    requires (forall p <- ps :: ValidPiece(p)) && QUOTE !in bare && !Decoy(ps, bare, first)
    requires KeyStands(Rest(ps, bare, tail), k)
    ensures k >= KeyAt(ps, bare)
    decreases |ps|
  {
    if ps == [] {
      if k < |bare| {
        NoKeyInBare(bare, KEY + tail, k);
      }
    } else {
      var p, rest := ps[0], ps[1..];
      assert ValidPiece(p) && forall q <- rest :: q in ps;
      SpellingsAreEscaped(p.ws);
      var next, more := RestOpens(rest, bare, tail);
      NextIsNotSay(rest, bare);
      KeyInPiece(p.bare, Spellings(p.ws), Rest(rest, bare, tail), next, more, k);
      NoKeyBefore(rest, bare, false, tail, k - |p.bare| - |Spellings(p.ws)| - 2);
    }
  }

  lemma NextIsNotSay(ps: seq<Piece>, bare: string)
    requires !Decoy(ps, bare, false)
    ensures !IsSay(if ps == [] then bare else ps[0].bare)
  {
  }

  /** A string that looks like the key holds it. */
  lemma {:induction false} LookAlikeIsKey(sp: string, after: string) returns (i: nat)
    requires LooksLikeKey(sp)
    ensures i < |sp| + 2 && KeyStands(InQuotes(sp) + after, i)
  {
    var s := InQuotes(sp) + after;
    assert s[0] == QUOTE && s[|sp| + 1] == QUOTE;
    assert forall j :: 0 <= j < |sp| ==> s[j + 1] == sp[j];
    i := if IsSay(sp) then 0 else |sp| - 3;
  }

  /** `say` and then a quote. */
  ghost predicate SayOpens(s: string) {
    |s| >= 4 && SayAt(s, 0) && s[3] == QUOTE
  }

  /** The first string is a decoy, or the text after it. */
  lemma {:induction false} FirstDecoy(all: string, b: string, sp: string, after: string) returns (k: nat)
    requires all == b + (InQuotes(sp) + after) && (LooksLikeKey(sp) || SayOpens(after))
    ensures k < |b| + |sp| + 2 && KeyStands(all, k)
  {
    var i: nat;
    if LooksLikeKey(sp) {
      i := LookAlikeIsKey(sp, after);
    } else {
      i := |sp| + 1;
      assert forall j :: 0 <= j < 4 ==> (InQuotes(sp) + after)[|sp| + 2 + j] == after[j];
    }
    KeyShifts(b, InQuotes(sp) + after, i);
    k := |b| + i;
  }

  lemma KeyDeeper(all: string, b: string, sp: string, after: string, i: nat)
    requires all == b + (InQuotes(sp) + after) && KeyStands(after, i)
    ensures KeyStands(all, |b| + (|sp| + 2 + i))
  {
    KeyShifts(InQuotes(sp), after, i);
    KeyShifts(b, InQuotes(sp) + after, |sp| + 2 + i);
  }

  /** A decoy is taken for the key: something that looks like it stands before it. */
  lemma {:induction false} DecoyIsTaken(ps: seq<Piece>, bare: string, tail: string) returns (k: nat)
    requires Decoy(ps, bare, true)
    ensures k < KeyAt(ps, bare) && KeyStands(Rest(ps, bare, tail), k)
    decreases |ps|
  {
    var all, b, sp, after := Rest(ps, bare, tail), ps[0].bare, Spellings(ps[0].ws), Rest(ps[1..], bare, tail);
    if LooksLikeKey(sp) || IsSay(if ps[1..] == [] then bare else ps[1..][0].bare) {
      SayBetween(ps[1..], bare, tail);
      k := FirstDecoy(all, b, sp, after);
    } else {
      DecoyFurther(ps[1..], bare);
      var j := DecoyIsTaken(ps[1..], bare, tail);
      KeyDeeper(all, b, sp, after, j);
      k := |b| + (|sp| + 2 + j);
    }
  }

  lemma DecoyFurther(ps: seq<Piece>, bare: string)
    requires Decoy(ps, bare, false) && !IsSay(if ps == [] then bare else ps[0].bare)
    ensures Decoy(ps, bare, true)
  {
  }

  lemma SayBetween(ps: seq<Piece>, bare: string, tail: string)
    ensures IsSay(if ps == [] then bare else ps[0].bare) ==> SayOpens(Rest(ps, bare, tail))
  {
  }

  // ---------------------------------------------------------------------------------------
  // The reader takes the right key
  // ---------------------------------------------------------------------------------------

  lemma {:induction false} FindFirst(s: string, i: nat, k: nat)
    requires i <= k && KeyStands(s, k)
    ensures Find(s, KEY, i).Some? && Find(s, KEY, i).value <= k && KeyStands(s, Find(s, KEY, i).value)
    ensures (forall j :: i <= j < k ==> !KeyStands(s, j)) ==> Find(s, KEY, i) == Some(k)
    decreases k - i
  {
    KeyIsFive(s, i);
    if i < k && s[i..i + |KEY|] != KEY {
      FindFirst(s, i + 1, k);
    }
  }

  lemma {:induction false} KeyIsThere(ps: seq<Piece>, bare: string, tail: string)
    ensures KeyStands(Rest(ps, bare, tail), KeyAt(ps, bare))
  {
    if ps == [] {
      KeyOpens(tail);
      KeyShifts(bare, KEY + tail, 0);
    } else {
      KeyIsThere(ps[1..], bare, tail);
      KeyDeeper(Rest(ps, bare, tail), ps[0].bare, Spellings(ps[0].ws), Rest(ps[1..], bare, tail), KeyAt(ps[1..], bare));
    }
  }

  lemma KeyOpens(tail: string)
    ensures KeyStands(KEY + tail, 0)
  {
  }

  /** The first `"say"` of the reply is the key, if and only if nothing before it looks like it. */
  lemma {:induction false} KeyIsFoundExactly(ps: seq<Piece>, bare: string, tail: string)
    requires (forall p <- ps :: ValidPiece(p)) && QUOTE !in bare
    ensures Find(Rest(ps, bare, tail), KEY, 0) == Some(KeyAt(ps, bare)) <==> !Decoy(ps, bare, true)
  {
    var s, at := Rest(ps, bare, tail), KeyAt(ps, bare);
    KeyIsThere(ps, bare, tail);
    if Decoy(ps, bare, true) {
      var k := DecoyIsTaken(ps, bare, tail);
      FindFirst(s, 0, k);
    } else {
      forall j | 0 <= j < at ensures !KeyStands(s, j) {
        if KeyStands(s, j) {
          NoKeyBefore(ps, bare, true, tail, j);
        }
      }
      FindFirst(s, 0, at);
    }
  }

  /** Where the parts of an entry stand. */
  lemma {:induction false} Layout(before: string, a: string, c: string, body: string, tail: string)
    ensures var raw := before + (a + ":" + c + [QUOTE] + body + tail);
      var colon := |before| + |a|;
      var quote := colon + 1 + |c|;
      && quote + 1 <= |raw| && raw[colon] == ':' && raw[quote] == QUOTE
      && (forall k :: |before| <= k < colon ==> raw[k] == a[k - |before|])
      && (forall k :: colon + 1 <= k < quote ==> raw[k] == c[k - colon - 1])
      && raw[quote + 1..] == body + tail
  {
    var raw := before + (a + ":" + c + [QUOTE] + body + tail);
    var head := before + a + ":" + c + [QUOTE];
    Sequences.Regroup6(before, a, ":", c, [QUOTE], body + tail);
    Sequences.Regroup(a + ":" + c + [QUOTE], body, tail);
    assert raw == head + (body + tail);
  }

  /** From `from` on, the next string value opens before `body`, where `what` stands. */
  ghost predicate OpensAt(raw: string, from: nat, body: nat, what: string) {
    0 < body <= |raw| && OpeningQuote(raw, from) == Some(body - 1) && StandsAt(raw, body, what)
  }

  /** After the key, the value's string opens where it was written. */
  lemma {:induction false} ValueOpens(raw: string, before: string, from: nat, e: Entry, tail: string) returns (body: nat)
    requires ValidEntry(e) && raw == before + Value(e, tail) && |before| == from
    ensures OpensAt(raw, from, body, Closed(e.ws))
  {
    var colon := from + |e.beforeColon|;
    var quote := colon + 1 + |e.afterColon|;
    Layout(before, e.beforeColon, e.afterColon, Closed(e.ws), tail);
    assert ':' !in raw[from..colon];
    QuoteOpens(raw, from, colon, quote);
    body := quote + 1;
  }

  /** The string under the key is found at `body`, and `what` stands there. */
  ghost predicate FoundAt(raw: string, key: string, body: nat, what: string) {
    ValueStart(raw, key) == Some(body) && StandsAt(raw, body, what)
  }

  lemma {:induction false} OpensIsFound(raw: string, key: string, at: nat, body: nat, what: string)
    requires Find(raw, key, 0) == Some(at) && OpensAt(raw, at + |key|, body, what)
    ensures FoundAt(raw, key, body, what)
  {
  }

  lemma {:induction false} FoundAfter(raw: string, key: string, at: nat, before: string, e: Entry, tail: string) returns (body: nat)
    requires Find(raw, key, 0) == Some(at) && |before| == at + |key|
    requires ValidEntry(e) && raw == before + Value(e, tail)
    ensures FoundAt(raw, key, body, Closed(e.ws))
  {
    body := ValueOpens(raw, before, at + |key|, e, tail);
    OpensIsFound(raw, key, at, body, Closed(e.ws));
  }

  /** The text up to the end of the key. */
  function Upto(ps: seq<Piece>, bare: string): string {
    if ps == [] then bare + KEY else ps[0].bare + (InQuotes(Spellings(ps[0].ws)) + Upto(ps[1..], bare))
  }

  lemma {:induction false} RestGoesOn(ps: seq<Piece>, bare: string, tail: string)
    ensures Rest(ps, bare, tail) == Upto(ps, bare) + tail && |Upto(ps, bare)| == KeyAt(ps, bare) + |KEY|
  {
    if ps == [] {
      Sequences.Regroup(bare, KEY, tail);
    } else {
      RestGoesOn(ps[1..], bare, tail);
      var b, q, u := ps[0].bare, InQuotes(Spellings(ps[0].ws)), Upto(ps[1..], bare);
      Sequences.Regroup(b, q + u, tail);
      Sequences.Regroup(q, u, tail);
    }
  }

  /** The reader finds the string under the key. */
  lemma {:induction false} ValueIsFound(ps: seq<Piece>, bare: string, e: Entry, tail: string) returns (body: nat)
    requires (forall p <- ps :: ValidPiece(p)) && QUOTE !in bare && ValidEntry(e) && !Decoy(ps, bare, true)
    ensures FoundAt(Reply(ps, bare, e, tail), KEY, body, Closed(e.ws))
  {
    KeyIsFoundExactly(ps, bare, Value(e, tail));
    RestGoesOn(ps, bare, Value(e, tail));
    body := FoundAfter(Reply(ps, bare, e, tail), KEY, KeyAt(ps, bare), Upto(ps, bare), e, tail);
  }

  /**
    The reply is read: the string written under the key `say` is what is said, sentence by
    sentence and character by character, whenever nothing before the key looks like it.
  */
  lemma {:induction false} ReplyIsRead(ps: seq<Piece>, bare: string, e: Entry, tail: string)
    requires (forall p <- ps :: ValidPiece(p)) && QUOTE !in bare && ValidEntry(e) && !Decoy(ps, bare, true)
    ensures DecodeSay(Reply(ps, bare, e, tail)) == Some((HeardText(e.ws), true))
    ensures Spoken(Reply(ps, bare, e, tail)) == Said(Pieces(HeardText(e.ws)))
    ensures (forall w <- e.ws :: w.Faithful()) ==> Spoken(Reply(ps, bare, e, tail)) == Said(Pieces(Meanings(e.ws)))
  {
    var body := ValueIsFound(ps, bare, e, tail);
    ValueIsRead(Reply(ps, bare, e, tail), body, e.ws);
  }
}
