/**
  Time stretching by overlapping windows (WSOLA), on audio as it arrives.

  The class `Stretcher` updates its buffers chunk by chunk. The functions above it say, in
  closed form, which sample of the whole input each output sample is made of; `Stretched`
  never mentions chunks, buffers or frames already computed.
*/
module Tempo {
  import opened Options
  import opened Audio

  /** Samples of a frame, samples between two frames of the output, and the reach of the search. */
  const N: nat := 256
  const HS: nat := 128
  const SEARCH: nat := 64

  /** The lowest score of the search: the smallest finite 32-bit float. */
  const LOWEST: real := -340282346638528859811704183484516925440.0

  /** What the stretching is parametric in: the window's shape and the mu-law codec. */
  datatype Shape = Shape(tempo: real, window: seq<real>, decode: Byte -> real, encode: real -> Byte) {
    predicate Valid() {
      0.5 <= tempo <= 2.0 && |window| == N
    }
  }

  function Clamp(tempo: real): (r: real)
    ensures 0.5 <= r <= 2.0
    ensures 0.5 <= tempo <= 2.0 ==> r == tempo
  {
    if tempo < 0.5 then 0.5 else if tempo > 2.0 then 2.0 else tempo
  }

  /** Rounding of a non-negative number, halves up. */
  function Round(x: real): (r: nat)
    requires x >= 0.0
    ensures x - 0.5 < r as real <= x + 0.5
  {
    (x + 0.5).Floor
  }

  // ---------------------------------------------------------------------------------------
  // The stretched clip in closed form
  // ---------------------------------------------------------------------------------------

  function At(x: seq<real>, i: nat): real {
    if i < |x| then x[i] else 0.0
  }

  /** The exact place of frame `k` in the input. */
  function Position(tempo: real, k: nat): (r: real)
    requires 0.5 <= tempo <= 2.0
    ensures r >= 0.0
  {
    k as real * (HS as real * tempo)
  }

  /** Where frame `k` would be read from if it were not shifted. */
  function Nominal(tempo: real, k: nat): (r: nat)
    requires 0.5 <= tempo <= 2.0
  {
    Round(Position(tempo, k))
  }

  /** The length of the stretched clip. */
  function Wanted(tempo: real, len: nat): (r: nat)
    requires 0.5 <= tempo <= 2.0
  {
    Round(len as real / tempo)
  }

  /** How alike the first `n` samples from `a` and from `b` are. */
  function Score(x: seq<real>, a: nat, b: nat, n: nat): real {
    if n == 0 then 0.0 else Score(x, a, b, n - 1) + At(x, a + n - 1) * At(x, b + n - 1)
  }

  function From(nominal: nat): nat {
    if nominal < SEARCH then 0 else nominal - SEARCH
  }

  /** The best score and place among the candidates `From(nominal)` up to `c`, exclusive. */
  function BestBelow(x: seq<real>, natural: nat, nominal: nat, c: nat): (real, nat)
    decreases c
  {
    if c <= From(nominal) then (LOWEST, nominal)
    else
      var best := BestBelow(x, natural, nominal, c - 1);
      var score := Score(x, natural, c - 1, N);
      if score > best.0 then (score, c - 1) else best
  }

  /** The place near `nominal` that continues the window read at `previous`. */
  function Match(x: seq<real>, previous: nat, nominal: nat): nat {
    BestBelow(x, previous + HS, nominal, nominal + SEARCH + 1).1
  }

  /** Where frame `k` is read from. */
  function Start(tempo: real, x: seq<real>, k: nat): nat
    requires 0.5 <= tempo <= 2.0
  {
    if k == 0 then Nominal(tempo, 0)
    else Match(x, Start(tempo, x, k - 1), Nominal(tempo, k))
  }

  /** The input frame `k` needs, as a length. */
  function Reach(tempo: real, x: seq<real>, k: nat): nat
    requires 0.5 <= tempo <= 2.0
  {
    var nominal := Nominal(tempo, k) + SEARCH + N;
    var natural := if k == 0 then 0 else Start(tempo, x, k - 1) + HS + N;
    if nominal < natural then natural else nominal
  }

  /** What a frame's sample counts for; before `HS` nothing overlaps frame 0, so it counts in full there. */
  function Weight(s: Shape, k: nat, n: nat): real
    requires s.Valid() && n < N
  {
    if k == 0 && n < HS then 1.0 else s.window[n]
  }

  function Weighted(weight: real, sample: real): real {
    weight * sample
  }

  /** What frame `k` adds to the output at its own position `n`. */
  function Part(s: Shape, x: seq<real>, k: nat, n: nat): real
    requires s.Valid() && n < N
  {
    Weighted(Weight(s, k, n), At(x, Start(s.tempo, x, k) + n))
  }

  /** Output sample `i`: the second half of one frame under the first half of the next. */
  function Sample(s: Shape, x: seq<real>, i: nat): real
    requires s.Valid()
  {
    var k, n := i / HS, i % HS;
    (if k == 0 then 0.0 else Part(s, x, k - 1, HS + n)) + Part(s, x, k, n)
  }

  /** The output buffer at `i` once the frames below `k` are in it. */
  ghost function Layered(s: Shape, x: seq<real>, k: nat, i: nat): real
    requires s.Valid() && i < (k + 1) * HS
  {
    if i < k * HS then Sample(s, x, i)
    else if k == 0 then 0.0
    else Part(s, x, k - 1, i - (k - 1) * HS)
  }

  /** Frame `k` laid over the frames below it. */
  lemma LayeredStep(s: Shape, x: seq<real>, k: nat, i: nat)
    requires s.Valid() && i < (k + 2) * HS
    ensures Layered(s, x, k + 1, i) ==
            (if i < (k + 1) * HS then Layered(s, x, k, i) else 0.0) +
            (if i < k * HS then 0.0 else Part(s, x, k, i - k * HS))
  {
    if k * HS <= i < (k + 1) * HS {
      assert i / HS == k && i % HS == i - k * HS;
    }
  }

  /** `after` is `before` with the window `part` added from `at` on. */
  ghost predicate Overlaid(before: seq<real>, after: seq<real>, at: nat, part: seq<real>) {
    && |before| <= |after| == at + |part|
    && forall i :: 0 <= i < |after| ==>
      after[i] == (if i < |before| then before[i] else 0.0) + (if i < at then 0.0 else part[i - at])
  }

  ghost function Window(s: Shape, x: seq<real>, k: nat): (r: seq<real>)
    requires s.Valid()
    ensures |r| == N
  {
    seq(N, n requires 0 <= n < N => Part(s, x, k, n))
  }

  /** The first `n` samples of the part have been added from `at` on. */
  ghost predicate AddedUpTo(before: seq<real>, after: seq<real>, at: nat, n: nat, part: seq<real>) {
    && |after| == |before| == at + |part| && n <= |part|
    && forall i :: 0 <= i < |after| ==> after[i] == before[i] + (if at <= i < at + n then part[i - at] else 0.0)
  }

  lemma AddedOne(before: seq<real>, after: seq<real>, at: nat, n: nat, part: seq<real>)
    requires AddedUpTo(before, after, at, n, part) && n < |part|
    ensures AddedUpTo(before, after[at + n := after[at + n] + part[n]], at, n + 1, part)
  {
  }

  ghost predicate IsLayered(s: Shape, x: seq<real>, k: nat, output: seq<real>)
    requires s.Valid()
  {
    && |output| == (if k == 0 then 0 else (k + 1) * HS)
    && forall i :: 0 <= i < |output| ==> output[i] == Layered(s, x, k, i)
  }

  lemma OverlaidIsLayered(s: Shape, x: seq<real>, k: nat, before: seq<real>, after: seq<real>)
    requires s.Valid() && IsLayered(s, x, k, before)
    requires Overlaid(before, after, k * HS, Window(s, x, k))
    ensures IsLayered(s, x, k + 1, after)
  {
    forall i | 0 <= i < |after| ensures after[i] == Layered(s, x, k + 1, i) {
      LayeredStep(s, x, k, i);
    }
  }

  function Decoded(s: Shape, audio: seq<Byte>): (r: seq<real>)
    ensures |r| == |audio|
  {
    seq(|audio|, i requires 0 <= i < |audio| => s.decode(audio[i]))
  }

  lemma DecodedInTurn(s: Shape, a: seq<Byte>, b: seq<Byte>)
    ensures Decoded(s, a + b) == Decoded(s, a) + Decoded(s, b)
  {
  }

  /** The output samples `from` to `upto`, as bytes. */
  function Rendered(s: Shape, x: seq<real>, from: nat, upto: nat): (r: seq<Byte>)
    requires s.Valid() && from <= upto
    ensures |r| == upto - from
  {
    seq(upto - from, i requires 0 <= i < upto - from => s.encode(Sample(s, x, from + i)))
  }

  /** What any run over this input has to give. */
  function Stretched(s: Shape, audio: seq<Byte>): (r: seq<Byte>)
    requires s.Valid()
    ensures s.tempo != 1.0 ==> |r| == Wanted(s.tempo, |audio|)
    ensures s.tempo == 1.0 ==> r == audio
  {
    if s.tempo == 1.0 then audio
    else Rendered(s, Decoded(s, audio), 0, Wanted(s.tempo, |audio|))
  }

  // ---------------------------------------------------------------------------------------
  // The search
  // ---------------------------------------------------------------------------------------

  /** The search stays near `nominal` and returns the first candidate with the highest score. */
  lemma {:induction false} BestBelowIsFirstMaximum(x: seq<real>, natural: nat, nominal: nat, c: nat)
    requires From(nominal) <= c <= nominal + SEARCH + 1
    ensures var best := BestBelow(x, natural, nominal, c);
      && From(nominal) <= best.1 <= nominal + SEARCH
      && best.0 >= LOWEST
      && (forall d :: From(nominal) <= d < c ==> Score(x, natural, d, N) <= best.0)
      && (best.0 > LOWEST ==>
        && best.1 < c
        && best.0 == Score(x, natural, best.1, N)
        && forall d :: From(nominal) <= d < best.1 ==> Score(x, natural, d, N) < best.0)
      && (best.0 == LOWEST ==> best.1 == nominal)
    decreases c
  {
    if c > From(nominal) {
      BestBelowIsFirstMaximum(x, natural, nominal, c - 1);
    }
  }

  lemma MatchIsNear(x: seq<real>, previous: nat, nominal: nat)
    ensures From(nominal) <= Match(x, previous, nominal) <= nominal + SEARCH
  {
    BestBelowIsFirstMaximum(x, previous + HS, nominal, nominal + SEARCH + 1);
  }

  lemma StartIsNear(tempo: real, x: seq<real>, k: nat)
    requires 0.5 <= tempo <= 2.0
    ensures From(Nominal(tempo, k)) <= Start(tempo, x, k) <= Nominal(tempo, k) + SEARCH
  {
    if k > 0 {
      MatchIsNear(x, Start(tempo, x, k - 1), Nominal(tempo, k));
    }
  }

  lemma StartWithinReach(tempo: real, x: seq<real>, k: nat)
    requires 0.5 <= tempo <= 2.0
    ensures Start(tempo, x, k) + N <= Reach(tempo, x, k)
  {
    StartIsNear(tempo, x, k);
  }

  // ---------------------------------------------------------------------------------------
  // A frame depends only on the input it reaches
  // ---------------------------------------------------------------------------------------

  ghost predicate Agree(x: seq<real>, y: seq<real>, upto: nat) {
    forall i: nat :: i < upto ==> At(x, i) == At(y, i)
  }

  lemma {:induction false} ScoreAgrees(x: seq<real>, y: seq<real>, upto: nat, a: nat, b: nat, n: nat)
    requires Agree(x, y, upto) && a + n <= upto && b + n <= upto
    ensures Score(x, a, b, n) == Score(y, a, b, n)
  {
    if n > 0 {
      ScoreAgrees(x, y, upto, a, b, n - 1);
      assert At(x, a + n - 1) == At(y, a + n - 1);
      assert At(x, b + n - 1) == At(y, b + n - 1);
    }
  }

  lemma {:induction false} BestAgrees(x: seq<real>, y: seq<real>, upto: nat, natural: nat, nominal: nat, c: nat)
    requires Agree(x, y, upto) && natural + N <= upto
    requires c <= nominal + SEARCH + 1 && nominal + SEARCH + N <= upto
    ensures BestBelow(x, natural, nominal, c) == BestBelow(y, natural, nominal, c)
    decreases c
  {
    if c > From(nominal) {
      BestAgrees(x, y, upto, natural, nominal, c - 1);
      ScoreAgrees(x, y, upto, natural, c - 1, N);
    }
  }

  ghost predicate ReadyTo(tempo: real, x: seq<real>, k: nat, upto: nat)
    requires 0.5 <= tempo <= 2.0
  {
    forall j: nat :: j < k ==> Reach(tempo, x, j) <= upto
  }

  lemma {:induction false} StartAgrees(tempo: real, x: seq<real>, y: seq<real>, upto: nat, k: nat)
    requires 0.5 <= tempo <= 2.0
    requires Agree(x, y, upto) && ReadyTo(tempo, x, k + 1, upto)
    ensures Start(tempo, x, k) == Start(tempo, y, k)
    ensures Reach(tempo, x, k) == Reach(tempo, y, k)
  {
    if k > 0 {
      StartAgrees(tempo, x, y, upto, k - 1);
      var previous := Start(tempo, x, k - 1);
      assert Reach(tempo, x, k) <= upto;
      BestAgrees(x, y, upto, previous + HS, Nominal(tempo, k), Nominal(tempo, k) + SEARCH + 1);
    }
  }

  lemma AtAgrees(x: seq<real>, y: seq<real>, upto: nat, i: nat)
    requires Agree(x, y, upto) && i < upto
    ensures At(x, i) == At(y, i)
  {
  }

  /** Input that comes after what a frame reaches changes nothing the frame gave. */
  lemma PartAgrees(s: Shape, x: seq<real>, y: seq<real>, upto: nat, k: nat, n: nat)
    requires s.Valid() && n < N
    requires Agree(x, y, upto) && ReadyTo(s.tempo, x, k + 1, upto)
    ensures Part(s, x, k, n) == Part(s, y, k, n)
  {
    StartAgrees(s.tempo, x, y, upto, k);
    StartWithinReach(s.tempo, x, k);
    assert Reach(s.tempo, x, k) <= upto;
    AtAgrees(x, y, upto, Start(s.tempo, x, k) + n);
  }

  lemma SampleAgrees(s: Shape, x: seq<real>, y: seq<real>, upto: nat, k: nat, i: nat)
    requires s.Valid() && i < k * HS
    requires Agree(x, y, upto) && ReadyTo(s.tempo, x, k, upto)
    ensures Sample(s, x, i) == Sample(s, y, i)
  {
    var f, n := i / HS, i % HS;
    assert f < k;
    PartAgrees(s, x, y, upto, f, n);
    if f > 0 {
      PartAgrees(s, x, y, upto, f - 1, HS + n);
    }
  }

  lemma LayeredAgrees(s: Shape, x: seq<real>, y: seq<real>, upto: nat, k: nat, i: nat)
    requires s.Valid() && i < (k + 1) * HS
    requires Agree(x, y, upto) && ReadyTo(s.tempo, x, k, upto)
    ensures Layered(s, x, k, i) == Layered(s, y, k, i)
  {
    if i < k * HS {
      SampleAgrees(s, x, y, upto, k, i);
    } else if k > 0 {
      PartAgrees(s, x, y, upto, k - 1, i - (k - 1) * HS);
    }
  }

  lemma RenderedAgrees(s: Shape, x: seq<real>, y: seq<real>, upto: nat, k: nat, end: nat)
    requires s.Valid() && end <= k * HS
    requires Agree(x, y, upto) && ReadyTo(s.tempo, x, k, upto)
    ensures Rendered(s, x, 0, end) == Rendered(s, y, 0, end)
  {
    forall i: nat | i < end ensures Sample(s, x, i) == Sample(s, y, i) {
      SampleAgrees(s, x, y, upto, k, i);
    }
  }

  /** Bytes emitted from a layered buffer go on where the rendering stopped. */
  lemma RenderedFrom(s: Shape, x: seq<real>, k: nat, output: seq<real>, from: nat, end: nat, out: seq<Byte>)
    requires s.Valid() && IsLayered(s, x, k, output)
    requires from <= end <= k * HS && |out| == end - from
    requires forall i :: 0 <= i < |out| ==> out[i] == s.encode(output[from + i])
    ensures Rendered(s, x, 0, from) + out == Rendered(s, x, 0, end)
  {
    var whole := Rendered(s, x, 0, end);
    forall i | from <= i < end ensures whole[i] == out[i - from] {
      assert output[from + (i - from)] == Layered(s, x, k, i);
    }
  }

  lemma ReadyAgrees(tempo: real, x: seq<real>, y: seq<real>, upto: nat, k: nat)
    requires 0.5 <= tempo <= 2.0
    requires Agree(x, y, upto) && ReadyTo(tempo, x, k, upto)
    ensures ReadyTo(tempo, y, k, upto)
  {
    forall j: nat | j < k ensures Reach(tempo, y, j) <= upto {
      StartAgrees(tempo, x, y, upto, j);
      assert Reach(tempo, x, j) <= upto;
    }
  }

  // ---------------------------------------------------------------------------------------
  // The arithmetic of lengths
  // ---------------------------------------------------------------------------------------

  lemma Distributes(a: real, b: real, t: real)
    ensures (a + b) * t == a * t + b * t
  {
  }

  lemma TimesInTurn(a: real, b: real, t: real)
    ensures a * (b * t) == a * b * t
  {
  }

  lemma PositionGrows(tempo: real, k: nat)
    requires 0.5 <= tempo <= 2.0
    ensures Position(tempo, k + 1) == Position(tempo, k) + HS as real * tempo
  {
    Distributes(k as real, 1.0, HS as real * tempo);
  }

  lemma NominalGrows(tempo: real, k: nat)
    requires 0.5 <= tempo <= 2.0
    ensures Nominal(tempo, k) < Nominal(tempo, k + 1)
  {
    PositionGrows(tempo, k);
  }

  lemma DivideMonotone(a: real, b: real, t: real)
    requires t > 0.0 && a < b
    ensures a / t < b / t
  {
    var q, p := a / t, b / t;
    assert q * t == a && p * t == b;
    assert q >= p ==> q * t >= p * t;
  }

  lemma MultiplyMonotone(a: real, b: real, t: real)
    requires t > 0.0 && a <= b
    ensures a * t <= b * t
  {
  }

  lemma DivideSum(a: real, b: real, t: real)
    requires t > 0.0
    ensures (a * t + b) / t == a + b / t
  {
    assert (a + b / t) * t == a * t + b / t * t;
  }

  lemma DivideBound(a: real, t: real)
    requires 0.0 < t <= 2.0 && a >= 0.0
    ensures a / t >= a / 2.0
  {
    var q := a / t;
    assert q * t == a;
    assert q >= 0.0;
    assert q * t <= q * 2.0;
  }

  /** The output completed by frames that were ready never passes the wanted length. */
  lemma ReadyFramesAreWanted(tempo: real, len: nat, k: nat)
    requires 0.5 <= tempo <= 2.0
    requires k > 0 && Nominal(tempo, k - 1) + SEARCH + N <= len
    ensures k * HS <= Wanted(tempo, len)
  {
    var position, hops := Position(tempo, k - 1), ((k - 1) * HS) as real;
    assert position - 0.5 + 320.0 < len as real;
    DivideMonotone(position + 319.5, len as real, tempo);
    assert position == hops * tempo by {
      TimesInTurn((k - 1) as real, HS as real, tempo);
    }
    DivideSum(hops, 319.5, tempo);
    DivideBound(319.5, tempo);
    assert Wanted(tempo, len) as real > hops + 159.25;
  }

  lemma CompletedIsWanted(tempo: real, x: seq<real>, k: nat)
    requires 0.5 <= tempo <= 2.0 && ReadyTo(tempo, x, k, |x|)
    ensures k * HS <= Wanted(tempo, |x|)
  {
    if k > 0 {
      assert Reach(tempo, x, k - 1) <= |x|;
      ReadyFramesAreWanted(tempo, |x|, k);
    }
  }

  lemma QuotientTimes(a: real, t: real)
    requires t > 0.0
    ensures a / t * t == a
  {
  }

  /** The same over reals, with the quotient `q` of the length and its rounding `w`. */
  lemma {:induction false} HopsBound(tempo: real, len: real, q: real, w: real, hops: real)
    requires tempo > 0.0 && q * tempo == len && w <= q + 0.5 && hops <= w + 127.0
    ensures hops * tempo <= len + 127.5 * tempo
  {
    MultiplyMonotone(hops, q + 127.5, tempo);
    Distributes(q, 127.5, tempo);
  }

  lemma {:induction false} NominalBound(tempo: real, len: nat, k: nat)
    requires 0.5 <= tempo <= 2.0
    requires k * HS < Wanted(tempo, len) + HS
    ensures Position(tempo, k) <= len as real + 127.5 * tempo
  {
    var w, q, hops := Wanted(tempo, len) as real, len as real / tempo, (k * HS) as real;
    QuotientTimes(len as real, tempo);
    HopsBound(tempo, len as real, q, w, hops);
    TimesInTurn(k as real, HS as real, tempo);
    assert k as real * HS as real == hops;
  }

  function Padding(tempo: real): nat
    requires 0.5 <= tempo <= 2.0
  {
    N + SEARCH + (HS as real * tempo).Floor + HS
  }

  lemma RoundWithinPadding(position: real, hop: real, len: nat)
    requires 64.0 <= hop && 0.0 <= position <= len as real + hop
    ensures Round(position) <= len + hop.Floor + HS
    ensures position >= hop ==> Round(position - hop) + HS <= len + hop.Floor + HS
  {
    assert hop.Floor as real > hop - 1.0;
  }

  lemma NominalWithinPadding(tempo: real, len: nat, k: nat)
    requires 0.5 <= tempo <= 2.0
    requires k * HS < Wanted(tempo, len) + HS
    ensures Nominal(tempo, k) + SEARCH + N <= len + Padding(tempo)
    ensures k > 0 ==> Nominal(tempo, k - 1) + SEARCH + HS + N <= len + Padding(tempo)
  {
    NominalBound(tempo, len, k);
    if k > 0 {
      PositionGrows(tempo, k - 1);
    }
    RoundWithinPadding(Position(tempo, k), HS as real * tempo, len);
  }

  /** Every frame the end of the stream needs is ready once the silence is added. */
  lemma PaddingSuffices(tempo: real, x: seq<real>, len: nat, k: nat)
    requires 0.5 <= tempo <= 2.0
    requires k * HS < Wanted(tempo, len) + HS
    ensures Reach(tempo, x, k) <= len + Padding(tempo)
  {
    NominalWithinPadding(tempo, len, k);
    if k > 0 {
      StartIsNear(tempo, x, k - 1);
    }
  }

  // ---------------------------------------------------------------------------------------
  // The machine
  // ---------------------------------------------------------------------------------------

  class Stretcher {
    const s: Shape
    var input: seq<real>
    var output: seq<real>
    var emitted: nat
    var frame: nat
    var previous: Option<nat>
    /** Everything heard and everything returned so far. */
    ghost var heard: seq<Byte>
    ghost var sent: seq<Byte>

    /** The buffers hold what the closed form says of the input `x`. */
    ghost predicate Holds(x: seq<real>)
      reads this
    {
      && s.Valid()
      && input == x
      && ReadyTo(s.tempo, x, frame, |x|)
      && previous == (if frame == 0 then None else Some(Start(s.tempo, x, frame - 1)))
      && IsLayered(s, x, frame, output)
    }

    ghost predicate Valid()
      reads this
    {
      && s.Valid()
      && (s.tempo == 1.0 ==> sent == heard && input == [] && frame == 0 && emitted == 0 && Holds([]))
      && (s.tempo != 1.0 ==>
        && Holds(Decoded(s, heard))
        && emitted == frame * HS
        && sent == Rendered(s, input, 0, emitted))
    }

    constructor (tempo: real, window: seq<real>, decode: Byte -> real, encode: real -> Byte)
      requires |window| == N
      ensures Valid() && heard == [] && sent == []
      ensures s == Shape(Clamp(tempo), window, decode, encode)
    {
      s := Shape(Clamp(tempo), window, decode, encode);
      input, output, emitted, frame, previous := [], [], 0, 0, None;
      heard, sent := [], [];
    }

    predicate FrameReady()
      requires s.Valid()
      reads this
    {
      var reach := Nominal(s.tempo, frame) + SEARCH + N;
      var natural := if previous.None? then 0 else previous.value + HS + N;
      |input| >= reach && |input| >= natural
    }

    /** The window near `nominal` that continues the one read at `previous`, every read in bounds. */
    method FindMatch(before: nat, nominal: nat) returns (best: nat)
      requires before + HS + N <= |input| && nominal + SEARCH + N <= |input|
      ensures best == Match(input, before, nominal)
      ensures best + N <= |input|
    {
      var natural := input[before + HS..before + HS + N];
      var from, to := From(nominal), nominal + SEARCH;
      var bestScore := LOWEST;
      best := nominal;
      var candidate := from;
      while candidate <= to
        invariant from <= candidate <= to + 1
        invariant (bestScore, best) == BestBelow(input, before + HS, nominal, candidate)
      {
        var segment := input[candidate..candidate + N];
        var score := 0.0;
        for n := 0 to N
          invariant score == Score(input, before + HS, candidate, n)
        {
          score := score + natural[n] * segment[n];
        }
        if score > bestScore {
          bestScore, best := score, candidate;
        }
        candidate := candidate + 1;
      }
      MatchIsNear(input, before, nominal);
    }

    /** Add the window read at `start` to the output, from `at` on. */
    method Overlay(start: nat, at: nat)
      requires s.Valid() && start + N <= |input| && |output| <= at + N
      requires start == Start(s.tempo, input, frame)
      modifies this`output
      ensures Overlaid(old(output), output, at, Window(s, input, frame))
    {
      ghost var part := Window(s, input, frame);
      if |output| < at + N {
        output := output + Repeat(0.0, at + N - |output|);
      }
      ghost var before := output;
      for n := 0 to N
        invariant AddedUpTo(before, output, at, n, part)
      {
        AddedOne(before, output, at, n, part);
        var more := Weighted(Weight(s, frame, n), input[start + n]);
        assert part[n] == more;
        output := output[at + n := output[at + n] + more];
      }
    }

    method FrameStart() returns (start: nat)
      requires Holds(input) && FrameReady()
      ensures start == Start(s.tempo, input, frame)
      ensures start + N <= |input| && Reach(s.tempo, input, frame) <= |input|
    {
      var nominal := Nominal(s.tempo, frame);
      start := nominal;
      if previous.Some? {
        start := FindMatch(previous.value, nominal);
      }
    }

    method AddFrame()
      requires Holds(input) && FrameReady()
      modifies this`output, this`previous, this`frame
      ensures Holds(input) && frame == old(frame) + 1
    {
      var start := FrameStart();
      Overlay(start, frame * HS);
      OverlaidIsLayered(s, input, frame, old(output), output);
      previous := Some(start);
      frame := frame + 1;
    }

    method AddReadyFrames()
      requires Holds(input)
      modifies this`output, this`previous, this`frame
      ensures Holds(input) && frame >= old(frame)
    {
      while FrameReady()
        invariant Holds(input) && frame >= old(frame)
        decreases |input| - Nominal(s.tempo, frame)
      {
        NominalGrows(s.tempo, frame);
        AddFrame();
      }
    }

    /** The finished samples from `emitted` on, as bytes. */
    method Emit(upto: nat) returns (out: seq<Byte>)
      requires s.Valid()
      modifies this`emitted
      ensures var end := if upto < |output| then upto else |output|;
        if end <= old(emitted) then out == [] && emitted == old(emitted)
        else
          && emitted == end
          && |out| == end - old(emitted)
          && forall i :: 0 <= i < |out| ==> out[i] == s.encode(output[old(emitted) + i])
    {
      var end := if upto < |output| then upto else |output|;
      if end <= emitted {
        return [];
      }
      var from := emitted;
      out := seq(end - from, i requires 0 <= i < end - from && end <= |output| reads this => s.encode(output[from + i]));
      emitted := end;
    }

    /** Input is added at the end: what was computed from a shorter input still stands. */
    twostate lemma StillHolds(y: seq<real>)
      requires old(Holds(input))
      requires input == old(input) + y
      requires unchanged(`output) && unchanged(`previous) && unchanged(`frame)
      ensures Holds(input)
    {
      var x := old(input);
      assert Agree(x, input, |x|);
      ReadyAgrees(s.tempo, x, input, |x|, frame);
      if frame > 0 {
        StartAgrees(s.tempo, x, input, |x|, frame - 1);
        forall i | 0 <= i < |output| ensures output[i] == Layered(s, input, frame, i) {
          LayeredAgrees(s, x, input, |x|, frame, i);
        }
      }
    }

    /** New input at the end of the buffer. */
    method Feed(decoded: seq<real>)
      requires Holds(input) && emitted <= frame * HS
      modifies this`input
      ensures input == old(input) + decoded && Holds(input)
      ensures Rendered(s, input, 0, emitted) == Rendered(s, old(input), 0, emitted)
    {
      input := input + decoded;
      StillHolds(decoded);
      RenderedAgrees(s, old(input), input, |old(input)|, frame, emitted);
    }

    /** The finished samples up to `upto`, going on where the last ones stopped. */
    method Flush(upto: nat) returns (out: seq<Byte>)
      requires Holds(input) && emitted <= upto <= frame * HS
      modifies this`emitted
      ensures emitted == upto
      ensures Rendered(s, input, 0, old(emitted)) + out == Rendered(s, input, 0, upto)
    {
      out := Emit(upto);
      RenderedFrom(s, input, frame, output, old(emitted), upto, out);
    }

    /** Every frame the new input completes, and the samples those frames make final. */
    method Advance(decoded: seq<real>) returns (out: seq<Byte>)
      requires Holds(input) && emitted == frame * HS
      modifies this`input, this`output, this`previous, this`frame, this`emitted
      ensures Holds(input) && input == old(input) + decoded
      ensures emitted == frame * HS <= Wanted(s.tempo, |input|)
      ensures Rendered(s, old(input), 0, old(emitted)) + out == Rendered(s, input, 0, emitted)
    {
      Feed(decoded);
      AddReadyFrames();
      out := Flush(frame * HS);
      CompletedIsWanted(s.tempo, input, frame);
    }

    /** Audio in, at any tempo but 1. */
    method Take(audio: seq<Byte>) returns (out: seq<Byte>)
      requires Valid() && s.tempo != 1.0
      modifies this
      ensures Valid() && heard == old(heard) + audio && sent == old(sent) + out && |sent| <= Wanted(s.tempo, |heard|)
    {
      DecodedInTurn(s, heard, audio);
      out := Advance(Decoded(s, audio));
      heard := heard + audio;
      sent := sent + out;
    }

    /** One more chunk is taken; the samples returned are those no later chunk can alter. */
    method Push(audio: seq<Byte>) returns (out: seq<Byte>)
      requires Valid()
      modifies this
      ensures Valid()
      ensures heard == old(heard) + audio
      ensures sent == old(sent) + out
      ensures s.tempo != 1.0 ==> |sent| <= Wanted(s.tempo, |heard|)
    {
      if s.tempo == 1.0 {
        heard, sent := heard + audio, sent + audio;
        return audio;
      }
      out := Take(audio);
    }

    /** Nothing more will come: with what is returned, everything sent is the stretched clip. */
    method Finish() returns (out: seq<Byte>)
      requires Valid()
      modifies this
      ensures heard == old(heard)
      ensures old(sent) + out == Stretched(s, heard)
    {
      if s.tempo == 1.0 {
        return [];
      }
      ghost var x := input;
      var count := |input|;
      var wanted := Wanted(s.tempo, count);
      CompletedIsWanted(s.tempo, input, frame);
      Feed(Repeat(0.0, Padding(s.tempo)));
      AddFramesTo(wanted, count);
      out := Flush(if wanted < |output| then wanted else |output|);
      assert Agree(input, x, |input|);
      RenderedAgrees(s, input, x, |input|, frame, wanted);
    }

    /** The frames the wanted length still needs; none of them lacks input. */
    method AddFramesTo(wanted: nat, count: nat)
      requires Holds(input) && wanted == Wanted(s.tempo, count) && |input| == count + Padding(s.tempo)
      modifies this`output, this`previous, this`frame
      ensures Holds(input) && frame >= old(frame) && frame * HS >= wanted + HS
    {
      while frame * HS < wanted + HS && FrameReady()
        invariant Holds(input) && frame >= old(frame)
        decreases wanted + HS - frame * HS
      {
        AddFrame();
      }
      if frame * HS < wanted + HS {
        PaddingSuffices(s.tempo, input, count, frame);
        assert false;
      }
    }
  }

  /** A whole clip in one push. */
  method Stretch(audio: seq<Byte>, tempo: real, window: seq<real>, decode: Byte -> real, encode: real -> Byte)
    returns (out: seq<Byte>)
    requires |window| == N
    ensures out == Stretched(Shape(Clamp(tempo), window, decode, encode), audio)
  {
    var t := new Stretcher(tempo, window, decode, encode);
    out := t.Push(audio);
    assert t.heard == audio && t.sent == out;
    var rest := t.Finish();
    out := out + rest;
  }

  /** However the clip is cut into chunks, the stream gives the whole clip's result. */
  method StretchStream(chunks: seq<seq<Byte>>, tempo: real, window: seq<real>, decode: Byte -> real, encode: real -> Byte)
    returns (out: seq<Byte>)
    requires |window| == N
    ensures out == Stretched(Shape(Clamp(tempo), window, decode, encode), Flatten(chunks))
  {
    var t := new Stretcher(tempo, window, decode, encode);
    out := [];
    for c := 0 to |chunks|
      invariant t.Valid() && fresh(t) && t.s == Shape(Clamp(tempo), window, decode, encode)
      invariant t.heard == Flatten(chunks[..c]) && t.sent == out
    {
      assert chunks[..c + 1][..c] == chunks[..c];
      var piece := t.Push(chunks[c]);
      out := out + piece;
    }
    assert chunks[..|chunks|] == chunks;
    var rest := t.Finish();
    out := out + rest;
  }
}
