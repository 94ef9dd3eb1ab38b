/**
  Hebrew numbers: printing them in words, and finding them in a list of tokens.

  The printer gives its words one token each; joined by spaces they are the printed number.
*/
module HebrewNumbers {
  import opened Options

  datatype Gender = Masculine | Feminine

  const VAV: char := 'ו'

  // ---------------------------------------------------------------------------------------
  // Printing
  // ---------------------------------------------------------------------------------------

  function Unit(n: nat, g: Gender): string
    requires 1 <= n <= 9
  {
    if g.Masculine? then ["", "אחד", "שניים", "שלושה", "ארבעה", "חמישה", "שישה", "שבעה", "שמונה", "תשעה"][n]
    else ["", "אחת", "שתיים", "שלוש", "ארבע", "חמש", "שש", "שבע", "שמונה", "תשע"][n]
  }

  /** The unit of a number between eleven and nineteen. */
  function TeenUnit(n: nat, g: Gender): string
    requires 1 <= n <= 9
  {
    if n == 2 then (if g.Masculine? then "שנים" else "שתים") else Unit(n, g)
  }

  function Ten(n: nat, g: Gender): string {
    // Ten itself, and the ten of a teen, which takes the other form.
    if (n == 0) == g.Masculine? then "עשרה" else "עשר"
  }

  function Tens(n: nat): string
    requires 2 <= n <= 9
  {
    ["", "", "עשרים", "שלושים", "ארבעים", "חמישים", "שישים", "שבעים", "שמונים", "תשעים"][n]
  }

  function Hundreds(n: nat): seq<string>
    requires 1 <= n <= 9
  {
    if n == 1 then ["מאה"] else if n == 2 then ["מאתיים"] else [Unit(n, Feminine), "מאות"]
  }

  /** The part of a number below a hundred, as its parts: the tens, then the units. */
  function Below(n: nat, g: Gender): seq<seq<string>>
    requires n < 100
  {
    if n >= 20 then [[Tens(n / 10)]] + if n % 10 != 0 then [[Unit(n % 10, g)]] else []
    else if n > 10 then [[TeenUnit(n - 10, g), Ten(n - 10, g)]]
    else if n == 10 then [[Ten(0, g)]]
    else if n > 0 then [[Unit(n, g)]]
    else []
  }

  function Parts(n: nat, g: Gender): seq<seq<string>>
    requires 1 <= n <= 999
  {
    if n >= 100 then [Hundreds(n / 100)] + Below(n % 100, g) else Below(n, g)
  }

  /** The part with a leading vav, which joins it to what comes before. */
  function Joined(part: seq<string>): seq<string> {
    if part == [] then part else [[VAV] + part[0]] + part[1..]
  }

  function Concat(parts: seq<seq<string>>): seq<string> {
    if parts == [] then [] else parts[0] + Concat(parts[1..])
  }

  /** The last of several parts is joined with a vav. */
  function JoinAll(parts: seq<seq<string>>): seq<string> {
    if |parts| > 1 then Concat(parts[..|parts| - 1]) + Joined(parts[|parts| - 1]) else Concat(parts)
  }

  /** A number below a thousand in words, token by token. */
  function NumberWords(n: nat, g: Gender): seq<string>
    requires 1 <= n <= 999
  {
    JoinAll(Parts(n, g))
  }

  /** A unit before "thousands". */
  function Construct(n: nat): string
    requires 3 <= n <= 9
  {
    ["שלושת", "ארבעת", "חמשת", "ששת", "שבעת", "שמונת", "תשעת"][n - 3]
  }

  function Thousands(n: nat): seq<string>
    requires 1 <= n <= 9
  {
    if n == 1 then ["אלף"] else if n == 2 then ["אלפיים"] else [Construct(n), "אלפים"]
  }

  function Decimal(n: nat): string {
    (if n < 10 then [] else Decimal(n / 10)) + [('0' as int + n % 10) as char]
  }

  function Numeral(n: int): string {
    if n < 0 then "-" + Decimal(-n) else Decimal(n)
  }

  /** Any number, token by token: in words up to 9999, and in digits beyond. */
  function Words(n: int, g: Gender): (r: seq<string>) {
    if !(0 <= n <= 9999) then [Numeral(n)]
    else if n == 0 then ["אפס"]
    else if n < 1000 then NumberWords(n, g)
    else JoinAll([Thousands(n / 1000)] + if n % 1000 == 0 then [] else Parts(n % 1000, g))
  }

  // ---------------------------------------------------------------------------------------
  // Reading
  // ---------------------------------------------------------------------------------------

  datatype Piece = UnitOf(u: int) | TenOf | TensOf(t: int) | HundredOf(h: int) | HundredsOf | Digits(v: int)

  predicate IsDigit(c: char) {
    '0' <= c <= '9'
  }

  function DigitsValue(s: string): Option<nat> {
    if s == [] then Some(0)
    else
      var front := DigitsValue(s[..|s| - 1]);
      if front.Some? && IsDigit(s[|s| - 1]) then Some(10 * front.value + (s[|s| - 1] as int - '0' as int)) else None
  }

  const MAX: int := 0x7FFF_FFFF_FFFF_FFFF

  /** A signed 64-bit number in digits. */
  function ParseInt(s: string): Option<int> {
    var signed := s != [] && (s[0] == '-' || s[0] == '+');
    var digits := if signed then s[1..] else s;
    if digits == [] || DigitsValue(digits).None? then None
    else
      var v: int := DigitsValue(digits).value;
      if s[0] == '-' then (if v <= MAX + 1 then Some(-v) else None)
      else if v <= MAX then Some(v) else None
  }

  function UnitValue(w: string): Option<int> {
    if w == "אחד" || w == "אחת" then Some(1)
    else if w == "שניים" || w == "שתיים" || w == "שני" || w == "שתי" || w == "שתים" || w == "שנים" || w == "שנַיִם" then Some(2)
    else if w == "שלוש" || w == "שלושה" || w == "שלושת" || w == "שלש" then Some(3)
    else if w == "ארבע" || w == "ארבעה" || w == "ארבעת" then Some(4)
    else if w == "חמש" || w == "חמישה" || w == "חמשת" || w == "חמשה" then Some(5)
    else if w == "שש" || w == "שישה" || w == "ששת" || w == "ששה" then Some(6)
    else if w == "שבע" || w == "שבעה" || w == "שבעת" then Some(7)
    else if w == "שמונה" || w == "שמונת" then Some(8)
    else if w == "תשע" || w == "תשעה" || w == "תשעת" then Some(9)
    else None
  }

  function TensValue(w: string): Option<int> {
    if w == "עשרים" then Some(20) else if w == "שלושים" then Some(30) else if w == "ארבעים" then Some(40)
    else if w == "חמישים" then Some(50) else if w == "שישים" then Some(60) else if w == "שבעים" then Some(70)
    else if w == "שמונים" then Some(80) else if w == "תשעים" then Some(90) else None
  }

  function PieceOf(w: string): Option<Piece> {
    if ParseInt(w).Some? then Some(Digits(ParseInt(w).value))
    else if UnitValue(w).Some? then Some(UnitOf(UnitValue(w).value))
    else if w == "עשר" || w == "עשרה" || w == "עשרת" then Some(TenOf)
    else if TensValue(w).Some? then Some(TensOf(TensValue(w).value))
    else if w == "מאה" then Some(HundredOf(100))
    else if w == "מאתיים" then Some(HundredOf(200))
    else if w == "מאות" then Some(HundredsOf)
    else None
  }

  /** What the words of a language mean in a number. */
  type Lexicon = string -> Option<Piece>

  /** A token inside a number may carry the vav that joins its parts. */
  function Read(piece: Lexicon, w: string, first: bool): Option<Piece> {
    if !first && piece(w).None? && w != [] && w[0] == VAV then piece(w[1..]) else piece(w)
  }

  /** What was read of a number: whole hundreds, and what is below them. */
  datatype Acc = Acc(total: int, current: int)

  /** One more piece, if it can go on the number. */
  function Feed(a: Acc, p: Option<Piece>): Option<Acc> {
    match p
    case Some(UnitOf(u)) => if a.current % 10 == 0 then Some(a.(current := a.current + u)) else None
    case Some(TenOf) =>
      if 1 <= a.current % 100 <= 9 then Some(a.(current := a.current + 10))
      else if a.current == 0 then Some(a.(current := 10)) else None
    case Some(TensOf(t)) => if a.current % 100 == 0 then Some(a.(current := a.current + t)) else None
    case Some(HundredOf(h)) => if a.current == 0 then Some(a.(current := h)) else None
    case Some(HundredsOf) => if 1 <= a.current <= 9 then Some(Acc(a.total + a.current * 100, 0)) else None
    case _ => None
  }

  datatype FoundNumber = FoundNumber(value: int, start: nat, end: nat)

  /** How far the number begun at `start` goes on from `j`. */
  function Extend(piece: Lexicon, tokens: seq<string>, start: nat, j: nat, a: Acc): (r: (nat, Acc))
    requires start <= j <= |tokens|
    ensures j <= r.0 <= |tokens|
    decreases |tokens| - j
  {
    if j < |tokens| && Feed(a, Read(piece, tokens[j], j == start)).Some? then
      Extend(piece, tokens, start, j + 1, Feed(a, Read(piece, tokens[j], j == start)).value)
    else (j, a)
  }

  /** The inner loop: the number that begins at `start`. */
  method ReadNumber(piece: Lexicon, tokens: seq<string>, start: nat) returns (j: nat, a: Acc)
    requires start <= |tokens|
    ensures (j, a) == Extend(piece, tokens, start, start, Acc(0, 0))
  {
    j, a := start, Acc(0, 0);
    while j < |tokens|
      invariant start <= j <= |tokens|
      invariant Extend(piece, tokens, start, j, a) == Extend(piece, tokens, start, start, Acc(0, 0))
    {
      var next := Feed(a, Read(piece, tokens[j], j == start));
      if next.None? {
        break;
      }
      a, j := next.value, j + 1;
    }
  }

  /** One number or none at token `i`, and where to look next. */
  function ScanOne(piece: Lexicon, tokens: seq<string>, i: nat): (r: (Option<FoundNumber>, nat))
    requires i < |tokens|
    ensures i < r.1 <= |tokens|
  {
    match piece(tokens[i])
    case None => (None, i + 1)
    case Some(Digits(v)) => (Some(FoundNumber(v, i, i + 1)), i + 1)
    case Some(HundredsOf) => (None, i + 1)
    case Some(_) =>
      var (j, a) := Extend(piece, tokens, i, i, Acc(0, 0));
      if j == i then (None, i + 1) else (Some(FoundNumber(a.total + a.current, i, j)), j)
  }

  /** The numbers from token `i` on. */
  function Scan(piece: Lexicon, tokens: seq<string>, i: nat): seq<FoundNumber>
    requires i <= |tokens|
    decreases |tokens| - i
  {
    if i == |tokens| then []
    else
      var (found, next) := ScanOne(piece, tokens, i);
      (if found.Some? then [found.value] else []) + Scan(piece, tokens, next)
  }

  method FindOne(piece: Lexicon, tokens: seq<string>, i: nat) returns (found: Option<FoundNumber>, next: nat)
    requires i < |tokens|
    ensures (found, next) == ScanOne(piece, tokens, i)
  {
    var first := piece(tokens[i]);
    if first.None? || first.value.HundredsOf? {
      return None, i + 1;
    }
    if first.value.Digits? {
      return Some(FoundNumber(first.value.v, i, i + 1)), i + 1;
    }
    var j, a := ReadNumber(piece, tokens, i);
    if j == i {
      return None, i + 1;
    }
    return Some(FoundNumber(a.total + a.current, i, j)), j;
  }

  /** The outer loop, token by token, against the recursive scan. */
  method FindNumbers(piece: Lexicon, tokens: seq<string>) returns (found: seq<FoundNumber>)
    ensures found == Scan(piece, tokens, 0)
  {
    found := [];
    var i := 0;
    while i < |tokens|
      invariant i <= |tokens|
      invariant found + Scan(piece, tokens, i) == Scan(piece, tokens, 0)
    {
      var one, next := FindOne(piece, tokens, i);
      var more := if one.Some? then [one.value] else [];
      assert found + (more + Scan(piece, tokens, next)) == found + more + Scan(piece, tokens, next);
      found := found + more;
      i := next;
    }
  }

  // ---------------------------------------------------------------------------------------
  // The words
  // ---------------------------------------------------------------------------------------

  lemma {:induction false} DigitsHaveNoOther(s: string)
    requires DigitsValue(s).Some?
    ensures forall k :: 0 <= k < |s| ==> IsDigit(s[k])
  {
    if s != [] {
      DigitsHaveNoOther(s[..|s| - 1]);
    }
  }

  /** A word that begins with a letter is no number in digits. */
  lemma LettersAreNoDigits(w: string)
    requires w != [] && !IsDigit(w[0]) && w[0] != '-' && w[0] != '+'
    ensures ParseInt(w) == None
  {
    if DigitsValue(w).Some? {
      DigitsHaveNoOther(w);
    }
  }

  lemma VavIsNoPiece(w: string)
    requires w != [] && w[0] == VAV
    ensures PieceOf(w) == None
  {
    LettersAreNoDigits(w);
  }

  lemma UnitIsRead(n: nat, g: Gender)
    requires 1 <= n <= 9
    ensures PieceOf(Unit(n, g)) == Some(UnitOf(n))
  {
    LettersAreNoDigits(Unit(n, g));
  }

  lemma TeenUnitIsRead(n: nat, g: Gender)
    requires 1 <= n <= 9
    ensures PieceOf(TeenUnit(n, g)) == Some(UnitOf(n))
  {
    LettersAreNoDigits(TeenUnit(n, g));
    UnitIsRead(n, g);
  }

  lemma TenIsRead(n: nat, g: Gender)
    ensures PieceOf(Ten(n, g)) == Some(TenOf)
  {
    LettersAreNoDigits(Ten(n, g));
  }

  lemma TensAreRead(n: nat)
    requires 2 <= n <= 9
    ensures PieceOf(Tens(n)) == Some(TensOf(10 * n))
  {
    LettersAreNoDigits(Tens(n));
  }

  lemma HundredIsRead()
    ensures PieceOf("מאה") == Some(HundredOf(100))
  {
    LettersAreNoDigits("מאה");
  }

  lemma TwoHundredIsRead()
    ensures PieceOf("מאתיים") == Some(HundredOf(200))
  {
    LettersAreNoDigits("מאתיים");
  }

  lemma HundredsAreRead()
    ensures PieceOf("מאות") == Some(HundredsOf)
  {
    LettersAreNoDigits("מאות");
  }

  /** What the theorems need of the lexicon. */
  ghost predicate Hebrew(piece: Lexicon) {
    && (forall n: nat, g {:trigger Unit(n, g)} :: 1 <= n <= 9 ==> piece(Unit(n, g)) == Some(UnitOf(n)))
    && (forall n: nat, g {:trigger TeenUnit(n, g)} :: 1 <= n <= 9 ==> piece(TeenUnit(n, g)) == Some(UnitOf(n)))
    && (forall n: nat, g {:trigger Ten(n, g)} :: piece(Ten(n, g)) == Some(TenOf))
    && (forall n: nat {:trigger Tens(n)} :: 2 <= n <= 9 ==> piece(Tens(n)) == Some(TensOf(10 * n)))
    && piece("מאה") == Some(HundredOf(100)) && piece("מאתיים") == Some(HundredOf(200)) && piece("מאות") == Some(HundredsOf)
    && VavBeginsNoNumber(piece)
  }

  ghost predicate VavBeginsNoNumber(piece: Lexicon) {
    forall w {:trigger piece(w)} :: w != [] && w[0] == VAV ==> piece(w) == None
  }

  lemma {:induction false} LexiconIsHebrew()
    ensures Hebrew(PieceOf)
  {
    forall n: nat, g {:trigger Unit(n, g)} | 1 <= n <= 9 ensures PieceOf(Unit(n, g)) == Some(UnitOf(n)) {
      UnitIsRead(n, g);
    }
    forall n: nat, g {:trigger TeenUnit(n, g)} | 1 <= n <= 9 ensures PieceOf(TeenUnit(n, g)) == Some(UnitOf(n)) {
      TeenUnitIsRead(n, g);
    }
    forall n: nat, g ensures PieceOf(Ten(n, g)) == Some(TenOf) {
      TenIsRead(n, g);
    }
    forall n: nat {:trigger Tens(n)} | 2 <= n <= 9 ensures PieceOf(Tens(n)) == Some(TensOf(10 * n)) {
      TensAreRead(n);
    }
    forall w: string | w != [] && w[0] == VAV ensures PieceOf(w) == None {
      VavIsNoPiece(w);
    }
    HundredIsRead();
    TwoHundredIsRead();
    HundredsAreRead();
  }

  // ---------------------------------------------------------------------------------------
  // A printed number is read back
  // ---------------------------------------------------------------------------------------

  /** The pieces of a number, whatever its gender. */
  function Pieces(n: nat): seq<Piece>
    requires 1 <= n <= 999
  {
    if n >= 100 then HundredPieces(n / 100) + BelowPieces(n % 100) else BelowPieces(n)
  }

  function HundredPieces(h: nat): seq<Piece> {
    if h == 0 then [] else if h <= 2 then [HundredOf(100 * h)] else [UnitOf(h), HundredsOf]
  }

  function BelowPieces(n: nat): seq<Piece>
    requires n < 100
  {
    if n >= 20 then [TensOf(10 * (n / 10))] + if n % 10 != 0 then [UnitOf(n % 10)] else []
    else if n > 10 then [UnitOf(n - 10), TenOf]
    else if n == 10 then [TenOf]
    else if n > 0 then [UnitOf(n)]
    else []
  }

  function FeedAll(a: Acc, pieces: seq<Piece>): Option<Acc> {
    if pieces == [] then Some(a)
    else
      var b := FeedAll(a, pieces[..|pieces| - 1]);
      if b.None? then None else Feed(b.value, Some(pieces[|pieces| - 1]))
  }

  lemma {:induction false} FeedAllAppend(a: Acc, p: seq<Piece>, q: seq<Piece>)
    ensures FeedAll(a, p + q) == if FeedAll(a, p).None? then None else FeedAll(FeedAll(a, p).value, q)
  {
    if q == [] {
      assert p + q == p;
    } else {
      assert (p + q)[..|p + q| - 1] == p + q[..|q| - 1];
      FeedAllAppend(a, p, q[..|q| - 1]);
    }
  }

  lemma FeedOne(a: Acc, x: Piece)
    ensures FeedAll(a, [x]) == Feed(a, Some(x))
  {
    assert [x][..0] == [];
  }

  lemma FeedTwo(a: Acc, x: Piece, y: Piece)
    ensures FeedAll(a, [x, y]) == if Feed(a, Some(x)).None? then None else Feed(Feed(a, Some(x)).value, Some(y))
  {
    assert [x, y][..1] == [x];
    FeedOne(a, x);
  }

  lemma FeedHundreds(h: nat)
    requires h <= 9
    ensures FeedAll(Acc(0, 0), HundredPieces(h)) == Some(if h >= 3 then Acc(100 * h, 0) else Acc(0, 100 * h))
  {
    if h >= 3 {
      FeedTwo(Acc(0, 0), UnitOf(h), HundredsOf);
    } else if h >= 1 {
      FeedOne(Acc(0, 0), HundredOf(100 * h));
    }
  }

  lemma TensThenUnit(q: nat, k: nat, u: nat)
    requires q <= 2 && k <= 9 && u < 10
    ensures (100 * q) % 100 == 0 && (100 * q + 10 * k) % 10 == 0 && (100 * q + u) % 100 == u && (100 * q) % 10 == 0
  {
  }

  lemma FeedTens(a: Acc, q: nat, n: nat)
    requires 20 <= n < 100 && q <= 2 && a.current == 100 * q
    ensures FeedAll(a, BelowPieces(n)) == Some(a.(current := a.current + n))
  {
    TensThenUnit(q, n / 10, 0);
    if n % 10 != 0 {
      assert BelowPieces(n) == [TensOf(10 * (n / 10)), UnitOf(n % 10)];
      FeedTwo(a, TensOf(10 * (n / 10)), UnitOf(n % 10));
    } else {
      assert BelowPieces(n) == [TensOf(10 * (n / 10))];
      FeedOne(a, TensOf(10 * (n / 10)));
    }
  }

  /** What is below a hundred goes on whole hundreds, except a bare ten on one or two of them. */
  lemma FeedBelow(a: Acc, q: nat, n: nat)
    requires n < 100 && q <= 2 && a.current == 100 * q
    ensures n == 10 && q > 0 ==> FeedAll(a, BelowPieces(n)) == None
    ensures !(n == 10 && q > 0) ==> FeedAll(a, BelowPieces(n)) == Some(a.(current := a.current + n))
  {
    if n >= 20 {
      FeedTens(a, q, n);
    } else if n > 10 {
      TensThenUnit(q, 0, n - 10);
      FeedTwo(a, UnitOf(n - 10), TenOf);
    } else if n == 10 {
      TensThenUnit(q, 0, 0);
      FeedOne(a, TenOf);
    } else if n > 0 {
      TensThenUnit(q, 0, 0);
      FeedOne(a, UnitOf(n));
    }
  }

  /** The value the pieces of a number add up to, when they can all be put together. */
  lemma PiecesAddUp(n: nat)
    requires 1 <= n <= 999
    ensures FeedAll(Acc(0, 0), Pieces(n)).Some? <==> n != 110 && n != 210
    ensures FeedAll(Acc(0, 0), Pieces(n)).Some? ==>
      var a := FeedAll(Acc(0, 0), Pieces(n)).value; a.total + a.current == n
  {
    if n < 100 {
      FeedBelow(Acc(0, 0), 0, n);
      return;
    }
    FeedHundreds(n / 100);
    FeedAllAppend(Acc(0, 0), HundredPieces(n / 100), BelowPieces(n % 100));
    FeedBelow(FeedAll(Acc(0, 0), HundredPieces(n / 100)).value, if n >= 300 then 0 else n / 100, n % 100);
  }

  /** The tokens read as the pieces; `first` when they begin a number. */
  ghost predicate ReadAs(piece: Lexicon, tokens: seq<string>, pieces: seq<Piece>, first: bool) {
    |tokens| == |pieces| && forall k :: 0 <= k < |tokens| ==> Read(piece, tokens[k], first && k == 0) == Some(pieces[k])
  }

  lemma ReadAsAppend(piece: Lexicon, s: seq<string>, p: seq<Piece>, t: seq<string>, q: seq<Piece>, first: bool)
    requires ReadAs(piece, s, p, first) && ReadAs(piece, t, q, first && s == [])
    ensures ReadAs(piece, s + t, p + q, first)
  {
  }

  /** A part reads alike at the start of a number, inside it, and with its vav. */
  lemma PartReads(piece: Lexicon, part: seq<string>, p: seq<Piece>)
    requires VavBeginsNoNumber(piece) && ReadAs(piece, part, p, true)
    ensures ReadAs(piece, part, p, false) && ReadAs(piece, Joined(part), p, false)
  {
    if part != [] {
      assert piece(part[0]) == Some(p[0]);
      assert ([VAV] + part[0])[1..] == part[0];
      assert piece([VAV] + part[0]) == None;
    }
  }

  lemma HundredsRead(piece: Lexicon, h: nat)
    requires Hebrew(piece) && 1 <= h <= 9
    ensures ReadAs(piece, Hundreds(h), HundredPieces(h), true)
  {
    assert h >= 3 ==> piece(Unit(h, Feminine)) == Some(UnitOf(h));
  }

  /** A number below a hundred that is one part. */
  lemma PartBelowReads(piece: Lexicon, n: nat, g: Gender)
    requires Hebrew(piece) && 0 < n < 100 && (n < 20 || n % 10 == 0)
    ensures |Below(n, g)| == 1 && ReadAs(piece, Below(n, g)[0], BelowPieces(n), true)
  {
    if n >= 20 {
      assert piece(Tens(n / 10)) == Some(TensOf(10 * (n / 10)));
    } else if n > 10 {
      assert piece(TeenUnit(n - 10, g)) == Some(UnitOf(n - 10)) && piece(Ten(n - 10, g)) == Some(TenOf);
    } else if n == 10 {
      assert piece(Ten(0, g)) == Some(TenOf);
    } else {
      assert piece(Unit(n, g)) == Some(UnitOf(n));
    }
  }

  lemma ConcatFew(a: seq<string>, b: seq<string>)
    ensures Concat([a]) == a && Concat([a, b]) == a + b
  {
    assert [a][1..] == [] && [a, b][1..] == [b] && [b][1..] == [];
    assert Concat([b]) == b;
  }

  lemma TwoPartsRead(piece: Lexicon, a: seq<string>, p: seq<Piece>, b: seq<string>, q: seq<Piece>)
    requires VavBeginsNoNumber(piece) && a != [] && ReadAs(piece, a, p, true) && ReadAs(piece, b, q, true)
    ensures ReadAs(piece, JoinAll([a, b]), p + q, true)
  {
    assert [a, b][..1] == [a];
    ConcatFew(a, b);
    PartReads(piece, b, q);
    ReadAsAppend(piece, a, p, Joined(b), q, true);
  }

  lemma ThreePartsRead(
    piece: Lexicon, a: seq<string>, p: seq<Piece>, b: seq<string>, q: seq<Piece>, c: seq<string>, r: seq<Piece>)
    requires VavBeginsNoNumber(piece) && a != []
    requires ReadAs(piece, a, p, true) && ReadAs(piece, b, q, true) && ReadAs(piece, c, r, true)
    ensures ReadAs(piece, JoinAll([a, b, c]), p + q + r, true)
  {
    assert [a, b, c][..2] == [a, b];
    ConcatFew(a, b);
    PartReads(piece, b, q);
    PartReads(piece, c, r);
    ReadAsAppend(piece, a, p, b, q, true);
    ReadAsAppend(piece, a + b, p + q, Joined(c), r, true);
  }

  /** A number below a hundred with tens and units. */
  lemma TensAndUnitRead(piece: Lexicon, n: nat, g: Gender)
    requires Hebrew(piece) && 20 <= n < 100 && n % 10 != 0
    ensures Below(n, g) == [[Tens(n / 10)], [Unit(n % 10, g)]]
    ensures BelowPieces(n) == [TensOf(10 * (n / 10))] + [UnitOf(n % 10)]
    ensures ReadAs(piece, [Tens(n / 10)], [TensOf(10 * (n / 10))], true) && ReadAs(piece, [Unit(n % 10, g)], [UnitOf(n % 10)], true)
  {
    assert piece(Tens(n / 10)) == Some(TensOf(10 * (n / 10))) && piece(Unit(n % 10, g)) == Some(UnitOf(n % 10));
  }

  lemma WordsBelowRead(piece: Lexicon, n: nat, g: Gender)
    requires Hebrew(piece) && 1 <= n < 100
    ensures ReadAs(piece, JoinAll(Below(n, g)), BelowPieces(n), true)
  {
    if n >= 20 && n % 10 != 0 {
      TensAndUnitRead(piece, n, g);
      TwoPartsRead(piece, [Tens(n / 10)], [TensOf(10 * (n / 10))], [Unit(n % 10, g)], [UnitOf(n % 10)]);
    } else {
      PartBelowReads(piece, n, g);
      ConcatFew(Below(n, g)[0], []);
      assert Below(n, g) == [Below(n, g)[0]];
    }
  }

  lemma {:induction false} WordsAboveRead(piece: Lexicon, h: nat, n: nat, g: Gender)
    requires Hebrew(piece) && 1 <= h <= 9 && n < 100
    ensures ReadAs(piece, JoinAll([Hundreds(h)] + Below(n, g)), HundredPieces(h) + BelowPieces(n), true)
  {
    var words, pieces := Hundreds(h), HundredPieces(h);
    HundredsRead(piece, h);
    if n >= 20 && n % 10 != 0 {
      TensAndUnitRead(piece, n, g);
      var tens, unit := [TensOf(10 * (n / 10))], [UnitOf(n % 10)];
      ThreePartsRead(piece, words, pieces, [Tens(n / 10)], tens, [Unit(n % 10, g)], unit);
      assert [words] + Below(n, g) == [words, [Tens(n / 10)], [Unit(n % 10, g)]];
      assert pieces + (tens + unit) == pieces + tens + unit;
    } else if n > 0 {
      PartBelowReads(piece, n, g);
      TwoPartsRead(piece, words, pieces, Below(n, g)[0], BelowPieces(n));
      assert [words] + Below(n, g) == [words, Below(n, g)[0]];
    } else {
      ConcatFew(words, []);
      assert [words] + Below(n, g) == [words];
      assert pieces + BelowPieces(n) == pieces;
    }
  }

  /** The words of a number read as its pieces. */
  lemma {:induction false} WordsRead(piece: Lexicon, n: nat, g: Gender)
    requires Hebrew(piece) && 1 <= n <= 999
    ensures ReadAs(piece, NumberWords(n, g), Pieces(n), true)
  {
    if n < 100 {
      WordsBelowRead(piece, n, g);
    } else {
      WordsAboveRead(piece, n / 100, n % 100, g);
    }
  }

  // ---------------------------------------------------------------------------------------
  // Numbers in a sentence
  // ---------------------------------------------------------------------------------------

  /** Reading goes over pieces that fit. */
  lemma {:induction false} ExtendOver(piece: Lexicon, tokens: seq<string>, start: nat, a: Acc, pieces: seq<Piece>)
    requires start + |pieces| <= |tokens| && ReadAs(piece, tokens[start..start + |pieces|], pieces, true)
    requires FeedAll(a, pieces).Some?
    ensures Extend(piece, tokens, start, start, a) == Extend(piece, tokens, start, start + |pieces|, FeedAll(a, pieces).value)
    decreases |pieces|
  {
    if pieces != [] {
      var m := |pieces| - 1;
      var front := pieces[..m];
      assert tokens[start..start + m] == tokens[start..start + |pieces|][..m];
      ExtendOver(piece, tokens, start, a, front);
      assert tokens[start + m] == tokens[start..start + |pieces|][m];
    }
  }

  /** A word that neither begins nor continues a number. */
  ghost predicate Stops(piece: Lexicon, w: string) {
    Read(piece, w, false) == None
  }

  /** Pieces that make up `value`. */
  ghost predicate MakeUp(pieces: seq<Piece>, value: int) {
    && pieces != [] && !pieces[0].Digits? && !pieces[0].HundredsOf?
    && FeedAll(Acc(0, 0), pieces).Some?
    && var a := FeedAll(Acc(0, 0), pieces).value; a.total + a.current == value
  }

  /** Words that read as `value`. */
  ghost predicate Legible(piece: Lexicon, words: seq<string>, value: int) {
    exists pieces :: ReadAs(piece, words, pieces, true) && MakeUp(pieces, value)
  }

  /** One token in digits. */
  ghost predicate InDigits(piece: Lexicon, words: seq<string>, value: int) {
    |words| == 1 && piece(words[0]) == Some(Digits(value))
  }

  /** Legible words before a word that stops them, or at the end, are found whole. */
  lemma LegibleIsFound(piece: Lexicon, tokens: seq<string>, i: nat, words: seq<string>, value: int)
    requires Legible(piece, words, value) && i + |words| <= |tokens| && tokens[i..i + |words|] == words
    requires i + |words| < |tokens| ==> Stops(piece, tokens[i + |words|])
    ensures |words| > 0
    ensures ScanOne(piece, tokens, i) == (Some(FoundNumber(value, i, i + |words|)), i + |words|)
  {
    var pieces :| ReadAs(piece, words, pieces, true) && MakeUp(pieces, value);
    assert tokens[i] == words[0];
    assert piece(tokens[i]) == Some(pieces[0]);
    ExtendOver(piece, tokens, i, Acc(0, 0), pieces);
  }

  /** A word of a sentence, or a number in it as it is written. */
  datatype Item = Other(word: string) | Number(value: int, words: seq<string>)

  function Written(item: Item): seq<string> {
    match item case Other(w) => [w] case Number(_, words) => words
  }

  function Tokens(items: seq<Item>): seq<string> {
    if items == [] then [] else Written(items[0]) + Tokens(items[1..])
  }

  /** The numbers of the sentence, with the tokens each of them takes. */
  function Spans(items: seq<Item>, from: nat): seq<FoundNumber> {
    if items == [] then []
    else
      var end := from + |Written(items[0])|;
      (if items[0].Number? then [FoundNumber(items[0].value, from, end)] else []) + Spans(items[1..], end)
  }

  ghost predicate Recognized(piece: Lexicon, words: seq<string>, value: int) {
    Legible(piece, words, value) || InDigits(piece, words, value)
  }

  /** Numbers in legible words or in digits, each followed by a word that stops it, among words that are no numbers. */
  ghost predicate Readable(piece: Lexicon, items: seq<Item>) {
    items != [] ==>
      && (items[0].Other? ==> Stops(piece, items[0].word))
      && (items[0].Number? ==> Recognized(piece, items[0].words, items[0].value) && (|items| > 1 ==> items[1].Other?))
      && Readable(piece, items[1..])
  }

  lemma OtherIsPassed(piece: Lexicon, before: seq<string>, w: string, rest: seq<string>)
    requires Stops(piece, w)
    ensures ScanOne(piece, before + [w] + rest, |before|) == (None, |before| + 1)
  {
    assert (before + [w] + rest)[|before|] == w;
  }

  lemma NumberIsTaken(piece: Lexicon, before: seq<string>, words: seq<string>, rest: seq<string>, value: int)
    requires Recognized(piece, words, value) && (rest != [] ==> Stops(piece, rest[0]))
    ensures |words| > 0
    ensures ScanOne(piece, before + words + rest, |before|) ==
      (Some(FoundNumber(value, |before|, |before| + |words|)), |before| + |words|)
  {
    var tokens := before + words + rest;
    assert words != [];
    assert tokens[|before|..|before| + |words|] == words;
    assert rest != [] ==> tokens[|before| + |words|] == rest[0];
    if InDigits(piece, words, value) {
      assert tokens[|before|] == words[0];
    } else {
      LegibleIsFound(piece, tokens, |before|, words, value);
    }
  }

  lemma ItemIsScanned(piece: Lexicon, before: seq<string>, item: Item, rest: seq<string>, more: seq<FoundNumber>)
    requires item.Other? ==> Stops(piece, item.word)
    requires item.Number? ==> Recognized(piece, item.words, item.value) && (rest != [] ==> Stops(piece, rest[0]))
    requires var upto := before + Written(item); Scan(piece, upto + rest, |upto|) == more
    ensures var upto := before + Written(item);
      Scan(piece, upto + rest, |before|) ==
      (if item.Number? then [FoundNumber(item.value, |before|, |upto|)] else []) + more
  {
    if item.Other? {
      OtherIsPassed(piece, before, item.word, rest);
    } else {
      NumberIsTaken(piece, before, item.words, rest, item.value);
    }
  }

  /** What stands first in a readable sentence ends where the next word begins. */
  lemma ItemStops(piece: Lexicon, items: seq<Item>)
    requires Readable(piece, items) && items != []
    ensures var item, rest := items[0], Tokens(items[1..]);
      && (item.Other? ==> Stops(piece, item.word))
      && (item.Number? ==> Recognized(piece, item.words, item.value) && (rest != [] ==> Stops(piece, rest[0])))
    ensures Readable(piece, items[1..])
  {
    if items[0].Number? && Tokens(items[1..]) != [] {
      assert items[1..] != [] && items[1..][0] == items[1];
      assert Readable(piece, items[1..]);
    }
  }

  lemma TokensAfter(before: seq<string>, items: seq<Item>)
    requires items != []
    ensures before + Tokens(items) == before + Written(items[0]) + Tokens(items[1..])
  {
  }

  lemma SpansAfter(items: seq<Item>, before: seq<string>)
    requires items != []
    ensures var upto := before + Written(items[0]);
      Spans(items, |before|) ==
      (if items[0].Number? then [FoundNumber(items[0].value, |before|, |upto|)] else []) + Spans(items[1..], |upto|)
  {
  }

  lemma NothingMore(piece: Lexicon, before: seq<string>)
    ensures Scan(piece, before + [], |before|) == []
  {
  }

  /** Every legible number of a sentence is found in it, with its value, order and place. */
  lemma {:induction false} SentenceIsReadBack(piece: Lexicon, before: seq<string>, items: seq<Item>)
    requires Readable(piece, items)
    ensures Scan(piece, before + Tokens(items), |before|) == Spans(items, |before|)
    decreases |items|
  {
    if items != [] {
      var upto := before + Written(items[0]);
      ItemStops(piece, items);
      SentenceIsReadBack(piece, upto, items[1..]);
      ItemIsScanned(piece, before, items[0], Tokens(items[1..]), Spans(items[1..], |upto|));
      TokensAfter(before, items);
      SpansAfter(items, before);
    } else {
      NothingMore(piece, before);
    }
  }

  lemma PiecesBegin(n: nat)
    requires 1 <= n <= 999
    ensures Pieces(n) != [] && !Pieces(n)[0].Digits? && !Pieces(n)[0].HundredsOf?
  {
  }

  /** The words of a number are legible, except those of 110 and 210. */
  lemma PrintedIsLegible(piece: Lexicon, n: nat, g: Gender)
    requires Hebrew(piece) && 1 <= n <= 999 && n != 110 && n != 210
    ensures Legible(piece, NumberWords(n, g), n)
  {
    WordsRead(piece, n, g);
    PiecesAddUp(n);
    PiecesBegin(n);
    assert ReadAs(piece, NumberWords(n, g), Pieces(n), true) && MakeUp(Pieces(n), n);
  }

  /** A 64-bit number other than 0, 110, 210 and those from 1000 to 9999. */
  predicate ReadsBack(n: int) {
    -MAX - 1 <= n <= MAX && n != 0 && n != 110 && n != 210 && !(1000 <= n <= 9999)
  }

  lemma {:induction false} DigitsAreTheirValue(n: nat)
    ensures Decimal(n) != [] && IsDigit(Decimal(n)[0]) && DigitsValue(Decimal(n)) == Some(n)
    decreases n
  {
    var last := [('0' as int + n % 10) as char];
    if n < 10 {
      assert last[..0] == [];
    } else {
      DigitsAreTheirValue(n / 10);
      assert (Decimal(n / 10) + last)[..|Decimal(n / 10)|] == Decimal(n / 10);
    }
  }

  lemma PlainIsParsed(s: string, v: nat)
    requires s != [] && IsDigit(s[0]) && DigitsValue(s) == Some(v) && v <= MAX
    ensures ParseInt(s) == Some(v)
  {
  }

  lemma NegativeIsParsed(s: string, n: int)
    requires s != [] && -MAX - 1 <= n < 0 && DigitsValue(s) == Some(-n)
    ensures ParseInt("-" + s) == Some(n)
  {
    assert ("-" + s)[1..] == s;
  }

  lemma {:induction false} NumeralIsRead(n: int)
    requires -MAX - 1 <= n <= MAX
    ensures ParseInt(Numeral(n)) == Some(n)
  {
    if n < 0 {
      DigitsAreTheirValue(-n);
      NegativeIsParsed(Decimal(-n), n);
    } else {
      DigitsAreTheirValue(n);
      PlainIsParsed(Decimal(n), n);
    }
  }

  lemma {:induction false} PrintedIsRecognized(n: int, g: Gender)
    requires ReadsBack(n) && Hebrew(PieceOf)
    ensures Recognized(PieceOf, Words(n, g), n)
  {
    if 0 <= n <= 9999 {
      PrintedIsLegible(PieceOf, n, g);
    } else {
      NumeralIsRead(n);
    }
  }

  /** A sentence of printed numbers, each followed by a word that is no number word even after a vav. */
  ghost predicate Printed(items: seq<Item>) {
    items != [] ==>
      && (items[0].Other? ==> Stops(PieceOf, items[0].word))
      && (items[0].Number? ==>
        && ReadsBack(items[0].value) && (exists g :: items[0].words == Words(items[0].value, g))
        && (|items| > 1 ==> items[1].Other?))
      && Printed(items[1..])
  }

  lemma {:induction false} PrintedIsReadable(items: seq<Item>)
    requires Printed(items) && Hebrew(PieceOf)
    ensures Readable(PieceOf, items)
  {
    if items != [] {
      PrintedIsReadable(items[1..]);
      if items[0].Number? {
        var g :| items[0].words == Words(items[0].value, g);
        PrintedIsRecognized(items[0].value, g);
      }
    }
  }

  /** Printing and reading undo each other inside any sentence. */
  lemma {:induction false} PrintedNumbersAreFound(items: seq<Item>)
    requires Printed(items)
    ensures Scan(PieceOf, Tokens(items), 0) == Spans(items, 0)
  {
    LexiconIsHebrew();
    PrintedIsReadable(items);
    SentenceIsReadBack(PieceOf, [], items);
    assert [] + Tokens(items) == Tokens(items);
  }

  lemma {:induction false} RecognizedAlone(piece: Lexicon, words: seq<string>, value: int)
    requires Recognized(piece, words, value)
    ensures Scan(piece, words, 0) == [FoundNumber(value, 0, |words|)]
  {
    NumberIsTaken(piece, [], words, [], value);
    assert [] + words + [] == words;
    assert Scan(piece, words, |words|) == [];
  }

  lemma OnlyHundreds(piece: Lexicon, words: seq<string>, h: int)
    requires ReadAs(piece, words, [HundredOf(h), TenOf], true) && (h == 100 || h == 200)
    ensures var found := Scan(piece, words, 0); found != [] && found[0] == FoundNumber(h, 0, 1)
  {
    assert Read(piece, words[0], true) == Some(HundredOf(h)) && Read(piece, words[1], false) == Some(TenOf);
    assert Feed(Acc(0, h), Some(TenOf)) == None;
    assert Extend(piece, words, 0, 1, Acc(0, h)) == (1, Acc(0, h));
    assert ScanOne(piece, words, 0) == (Some(FoundNumber(h, 0, 1)), 1);
  }

  /** Of 110 and 210 only the hundreds are read: "ten" cannot go on them. */
  lemma {:induction false} HundredAndTen(piece: Lexicon, n: nat, g: Gender)
    requires Hebrew(piece) && (n == 110 || n == 210)
    ensures var found := Scan(piece, NumberWords(n, g), 0); found != [] && found[0] == FoundNumber(n - 10, 0, 1)
  {
    WordsRead(piece, n, g);
    assert Pieces(n) == [HundredOf(n - 10), TenOf];
    OnlyHundreds(piece, NumberWords(n, g), n - 10);
  }

  lemma ConstructIsRead(k: nat)
    requires 3 <= k <= 9
    ensures PieceOf(Construct(k)) == Some(UnitOf(k))
  {
    LettersAreNoDigits(Construct(k));
  }

  /** The words of no piece that the printer uses. */
  predicate Unread(w: string) {
    w == "אפס" || w == "אלף" || w == "אלפיים" || w == "אלפים"
  }

  /** No word that is read begins as these do. */
  ghost predicate BeginsUnread(w: string) {
    |w| >= 2 && w[0] == 'א' && (w[1] == 'פ' || w[1] == 'ל')
  }

  lemma UnreadBegins(w: string)
    requires Unread(w)
    ensures BeginsUnread(w)
  {
  }

  lemma NoUnitBeginsSo(w: string)
    requires BeginsUnread(w)
    ensures UnitValue(w) == None
  {
  }

  lemma UnreadIsNoPiece(w: string)
    requires BeginsUnread(w)
    ensures PieceOf(w) == None && Read(PieceOf, w, false) == None
  {
    LettersAreNoDigits(w);
    NoUnitBeginsSo(w);
    assert TensValue(w) == None;
  }

  /** Of 3000 to 9999 only the unit before "thousands" is read, as itself. */
  lemma {:induction false} OnlyUnit(words: seq<string>, k: nat)
    requires 3 <= k <= 9 && |words| >= 2 && words[..2] == Thousands(k)
    ensures var found := Scan(PieceOf, words, 0); found != [] && found[0] == FoundNumber(k, 0, 1)
  {
    assert words[0] == words[..2][0] && words[1] == words[..2][1];
    ConstructIsRead(k);
    UnreadBegins(words[1]);
    UnreadIsNoPiece(words[1]);
    assert Feed(Acc(0, 0), Some(UnitOf(k))) == Some(Acc(0, k));
    assert Extend(PieceOf, words, 0, 1, Acc(0, k)) == (1, Acc(0, k));
    assert ScanOne(PieceOf, words, 0) == (Some(FoundNumber(k, 0, 1)), 1);
  }

  lemma {:induction false} ScanStarts(piece: Lexicon, tokens: seq<string>, i: nat)
    requires i <= |tokens|
    ensures forall f :: f in Scan(piece, tokens, i) ==> f.start >= i
    decreases |tokens| - i
  {
    if i < |tokens| {
      ScanStarts(piece, tokens, ScanOne(piece, tokens, i).1);
    }
  }

  /** Nothing is found at a first word that is no number word. */
  lemma {:induction false} FirstIsPassed(piece: Lexicon, words: seq<string>)
    requires words != [] && piece(words[0]) == None
    ensures forall f :: f in Scan(piece, words, 0) ==> f.start >= 1
  {
    assert ScanOne(piece, words, 0) == (None, 1);
    ScanStarts(piece, words, 1);
    assert [] + Scan(piece, words, 1) == Scan(piece, words, 1);
  }

  lemma {:induction false} JoinBegins(part: seq<string>, rest: seq<seq<string>>)
    ensures |JoinAll([part] + rest)| >= |part| && JoinAll([part] + rest)[..|part|] == part
  {
    var parts := [part] + rest;
    if rest == [] {
      assert parts[1..] == [];
    } else {
      var front := parts[..|parts| - 1];
      assert front[0] == part;
      assert Concat(front) == part + Concat(front[1..]);
    }
  }

  lemma {:induction false} ThousandsAreMisread(n: nat, g: Gender)
    requires 1000 <= n <= 9999
    ensures var words := Words(n, g); Scan(PieceOf, words, 0) != [FoundNumber(n, 0, |words|)]
  {
    var k, words := n / 1000, Words(n, g);
    JoinBegins(Thousands(k), if n % 1000 == 0 then [] else Parts(n % 1000, g));
    if k >= 3 {
      OnlyUnit(words, k);
    } else {
      assert words[0] == words[..1][0] == Thousands(k)[0];
      UnreadBegins(words[0]);
      UnreadIsNoPiece(words[0]);
      FirstIsPassed(PieceOf, words);
      assert FoundNumber(n, 0, |words|) in [FoundNumber(n, 0, |words|)];
    }
  }

  /**
    Any 64-bit number printed alone is read back, if and only if it is not 0, 110, 210 or from
    1000 to 9999.
  */
  lemma {:induction false} ReadBackExactly(n: int, g: Gender)
    requires -MAX - 1 <= n <= MAX
    ensures var words := Words(n, g);
      Scan(PieceOf, words, 0) == [FoundNumber(n, 0, |words|)] <==> ReadsBack(n)
  {
    var words := Words(n, g);
    LexiconIsHebrew();
    if ReadsBack(n) {
      PrintedIsRecognized(n, g);
      RecognizedAlone(PieceOf, words, n);
    } else if n == 0 {
      UnreadBegins(words[0]);
      UnreadIsNoPiece(words[0]);
      FirstIsPassed(PieceOf, words);
      assert FoundNumber(n, 0, |words|) in [FoundNumber(n, 0, |words|)];
    } else if n >= 1000 {
      ThousandsAreMisread(n, g);
    } else {
      HundredAndTen(PieceOf, n, g);
    }
  }
}
