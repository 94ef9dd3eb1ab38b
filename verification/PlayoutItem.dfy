/**
  One item being played: a clip, or a stream whose chunks are still arriving.

  The channel of a stream is an arbitrary interleaving: every time the item looks at it, any
  number of messages may have arrived since the last look.
*/
module PlayoutItem {
  import opened Options
  import opened Audio
  import Sequences

  /** A stream is what its channel brings, in order; when each message arrives is open. */
  datatype Source = Clip(clip: seq<Byte>) | Stream(channel: seq<Message>)

  datatype PlayItem = PlayItem(id: nat, source: Source)

  /** What a stream's channel gives: audio, a failure, or its end. */
  datatype Message = Chunk(bytes: seq<Byte>) | Fault | Closed

  /** How much quiet may stay before and after speech, and the test of a window for speech. */
  datatype Trim = Trim(loud: seq<Byte> -> bool, padMs: nat, tailPadMs: nat)

  datatype Config = Config(lead: nat, startBufferMs: nat, continuationBufferMs: nat, rebufferMs: nat, trim: Option<Trim>)

  function Max(x: nat, y: nat): nat {
    if x < y then y else x
  }

  function Min(x: nat, y: nat): nat {
    if x < y then x else y
  }

  // ---------------------------------------------------------------------------------------
  // Finding speech
  // ---------------------------------------------------------------------------------------

  const WINDOW: nat := 80

  function Windows(audio: seq<Byte>): nat {
    (|audio| + WINDOW - 1) / WINDOW
  }

  function Window(audio: seq<Byte>, i: nat): seq<Byte>
    requires i < Windows(audio)
  {
    audio[i * WINDOW..Min((i + 1) * WINDOW, |audio|)]
  }

  /** The first loud window at or after `i`. */
  function FirstLoud(t: Trim, audio: seq<Byte>, i: nat): (r: Option<nat>)
    requires i <= Windows(audio)
    ensures r.Some? ==> i <= r.value < Windows(audio) && t.loud(Window(audio, r.value))
    ensures forall k :: i <= k < (if r.Some? then r.value else Windows(audio)) ==> !t.loud(Window(audio, k))
    decreases Windows(audio) - i
  {
    if i == Windows(audio) then None
    else if t.loud(Window(audio, i)) then Some(i)
    else FirstLoud(t, audio, i + 1)
  }

  /** The last loud window below `n`. */
  function LastLoud(t: Trim, audio: seq<Byte>, n: nat): (r: Option<nat>)
    requires n <= Windows(audio)
    ensures r.Some? ==> r.value < n && t.loud(Window(audio, r.value))
    ensures forall k :: (if r.Some? then r.value + 1 else 0) <= k < n ==> !t.loud(Window(audio, k))
  {
    if n == 0 then None
    else if t.loud(Window(audio, n - 1)) then Some(n - 1)
    else LastLoud(t, audio, n - 1)
  }

  /** From the first loud window to the last, with the pads around them; `None` without a loud one. */
  function SpeechBounds(t: Trim, audio: seq<Byte>): (r: Option<(nat, nat)>)
    ensures r.Some? ==> r.value.0 < r.value.1 <= |audio|
  {
    var first, last := FirstLoud(t, audio, 0), LastLoud(t, audio, Windows(audio));
    if first.None? || last.None? then None
    else
      var head := first.value * WINDOW;
      var pad := t.padMs * BYTES_PER_MS;
      var start := if head < pad then 0 else head - pad;
      Some((start, Min((last.value + 1) * WINDOW + t.tailPadMs * BYTES_PER_MS, |audio|)))
  }

  /** Every window that the bytes `from` to `upto` touch is silence. */
  ghost predicate Silent(t: Trim, audio: seq<Byte>, from: nat, upto: nat) {
    forall k :: 0 <= k < Windows(audio) && k * WINDOW < upto && from < (k + 1) * WINDOW ==> !t.loud(Window(audio, k))
  }

  /** Trimming drops silent windows only. */
  lemma TrimDropsSilence(t: Trim, audio: seq<Byte>)
    ensures match SpeechBounds(t, audio)
      case None => Silent(t, audio, 0, |audio|)
      case Some((start, end)) => Silent(t, audio, 0, start) && (end < |audio| ==> Silent(t, audio, end, |audio|))
  {
    var first, last := FirstLoud(t, audio, 0), LastLoud(t, audio, Windows(audio));
    if first.None? || last.None? {
      assert first.None? && last.None?;
    }
  }

  // ---------------------------------------------------------------------------------------
  // Frames
  // ---------------------------------------------------------------------------------------

  /** Bytes in whole frames, the last one filled up with silence. */
  function Padded(bytes: seq<Byte>): seq<Byte> {
    if bytes == [] then []
    else if |bytes| <= FRAME_BYTES then bytes + Repeat(SILENCE, FRAME_BYTES - |bytes|)
    else bytes[..FRAME_BYTES] + Padded(bytes[FRAME_BYTES..])
  }

  /** Nothing but silence is added, less than a frame of it, and only at the end. */
  lemma {:induction false} PaddedIs(bytes: seq<Byte>) returns (frames: nat)
    ensures bytes <= Padded(bytes) && |Padded(bytes)| == frames * FRAME_BYTES < |bytes| + FRAME_BYTES
    ensures forall k :: |bytes| <= k < |Padded(bytes)| ==> Padded(bytes)[k] == SILENCE
  {
    if bytes == [] {
      frames := 0;
    } else if |bytes| <= FRAME_BYTES {
      frames := 1;
    } else {
      frames := PaddedIs(bytes[FRAME_BYTES..]);
      frames := frames + 1;
    }
  }

  lemma {:induction false} PaddedFrame(sent: seq<Byte>, frames: nat, piece: seq<Byte>)
    requires |sent| == frames * FRAME_BYTES && 0 < |piece| <= FRAME_BYTES
    ensures |Padded(piece)| == FRAME_BYTES
    ensures Padded(sent + piece) == Padded(sent) + Padded(piece)
    decreases frames
  {
    if frames == 0 {
      assert sent + piece == piece;
      assert [] + Padded(piece) == Padded(piece);
    } else {
      var first, rest := sent[..FRAME_BYTES], sent[FRAME_BYTES..];
      PaddedFrame(rest, frames - 1, piece);
      assert (sent + piece)[..FRAME_BYTES] == first;
      assert (sent + piece)[FRAME_BYTES..] == rest + piece;
      assert frames == 1 ==> rest == [];
      assert Padded(sent) == first + Padded(rest);
      assert first + (Padded(rest) + Padded(piece)) == first + Padded(rest) + Padded(piece);
    }
  }

  // ---------------------------------------------------------------------------------------
  // Channels
  // ---------------------------------------------------------------------------------------

  /** Nothing but chunks so far. */
  predicate Open(channel: seq<Message>) {
    forall i :: 0 <= i < |channel| ==> channel[i].Chunk?
  }

  /** The bytes of all chunks before the first message that is none. */
  function Delivered(channel: seq<Message>): seq<Byte> {
    if channel == [] then []
    else
      var front, last := channel[..|channel| - 1], channel[|channel| - 1];
      if last.Chunk? && Open(front) then Delivered(front) + last.bytes else Delivered(front)
  }

  lemma {:induction false} OneMessageMore(channel: seq<Message>, n: nat)
    requires n < |channel| && Open(channel[..n])
    ensures Delivered(channel[..n + 1]) == Delivered(channel[..n]) + if channel[n].Chunk? then channel[n].bytes else []
    ensures Open(channel[..n + 1]) <==> channel[n].Chunk?
  {
    assert channel[..n + 1][..n] == channel[..n] && channel[..n + 1][n] == channel[n];
    assert Delivered(channel[..n]) + [] == Delivered(channel[..n]);
  }

  /** What comes after the end of a channel is not delivered. */
  lemma {:induction false} NothingAfterTheEnd(channel: seq<Message>, n: nat)
    requires n < |channel| && !channel[n].Chunk?
    ensures Delivered(channel) == Delivered(channel[..n + 1])
  {
    if n == |channel| - 1 {
      assert channel[..n + 1] == channel;
    } else {
      var front := channel[..|channel| - 1];
      assert front[n] == channel[n] && !Open(front);
      NothingAfterTheEnd(front, n);
      assert front[..n + 1] == channel[..n + 1];
    }
  }

  /** `consumed` of the `arrived` messages were taken; the last of them ended the channel, or none did. */
  predicate ReadUpTo(channel: seq<Message>, consumed: nat, arrived: nat, done: bool) {
    && consumed <= arrived <= |channel|
    && if done then consumed > 0 && !channel[consumed - 1].Chunk? && Open(channel[..consumed - 1]) else Open(channel[..consumed])
  }

  lemma {:induction false} ReadOneMore(channel: seq<Message>, consumed: nat, arrived: nat)
    requires ReadUpTo(channel, consumed, arrived, false) && consumed < arrived
    ensures ReadUpTo(channel, consumed + 1, arrived, !channel[consumed].Chunk?)
    ensures Delivered(channel[..consumed + 1]) == Delivered(channel[..consumed]) + Bytes(channel[consumed])
  {
    OneMessageMore(channel, consumed);
    assert channel[..consumed + 1][..consumed] == channel[..consumed];
  }

  /** All there is to play of an item that is not trimmed. */
  function Content(item: PlayItem): seq<Byte> {
    match item.source case Clip(clip) => clip case Stream(channel) => Delivered(channel)
  }

  /** `s` is a piece of `t`. */
  ghost predicate IsSlice(s: seq<Byte>, t: seq<Byte>) {
    s <= t || (t != [] && IsSlice(s, t[1..]))
  }

  lemma {:induction false} SliceAt(a: seq<Byte>, s: seq<Byte>, b: seq<Byte>)
    ensures IsSlice(s, a + (s + b))
    decreases |a|
  {
    if a == [] {
      assert a + (s + b) == s + b;
    } else {
      assert (a + (s + b))[1..] == a[1..] + (s + b);
      SliceAt(a[1..], s, b);
    }
  }

  lemma {:induction false} SliceIsAt(s: seq<Byte>, t: seq<Byte>) returns (from: nat)
    requires IsSlice(s, t)
    ensures from + |s| <= |t| && s == t[from..from + |s|]
    decreases |t|
  {
    if s <= t {
      from := 0;
    } else {
      from := SliceIsAt(s, t[1..]);
      from := from + 1;
    }
  }

  /**
    What was delivered, `d`: silence trimmed off its front, what was sent, what waits, and silence
    trimmed off its end. Only when silence was cut out `inside` it is it not so.
  */
  predicate OnChannel(d: seq<Byte>, head: seq<Byte>, sent: seq<Byte>, pending: seq<Byte>, tail: seq<Byte>, inside: bool) {
    inside || d == head + (sent + (pending + tail))
  }

  lemma MoreDelivered(d: seq<Byte>, head: seq<Byte>, sent: seq<Byte>, pending: seq<Byte>, inside: bool, more: seq<Byte>)
    requires OnChannel(d, head, sent, pending, [], inside)
    ensures OnChannel(d + more, head, sent, pending + more, [], inside)
  {
    assert pending + [] == pending && pending + more + [] == pending + more;
    Sequences.Regroup(head, sent + pending, more);
    Sequences.Regroup(sent, pending, more);
  }

  lemma MoreSkipped(d: seq<Byte>, head: seq<Byte>, pending: seq<Byte>, tail: seq<Byte>, inside: bool, n: nat)
    requires OnChannel(d, head, [], pending, tail, inside) && n <= |pending|
    ensures OnChannel(d, head + pending[..n], [], pending[n..], tail, inside)
  {
    assert pending == pending[..n] + pending[n..];
    Sequences.Regroup(pending[..n], pending[n..], tail);
    Sequences.Regroup(head, pending[..n], pending[n..] + tail);
    assert [] + (pending + tail) == pending + tail && [] + (pending[n..] + tail) == pending[n..] + tail;
  }

  lemma MoreCut(d: seq<Byte>, head: seq<Byte>, sent: seq<Byte>, pending: seq<Byte>, tail: seq<Byte>, inside: bool, n: nat)
    requires OnChannel(d, head, sent, pending, tail, inside) && n <= |pending|
    ensures OnChannel(d, head, sent, pending[..n], pending[n..] + tail, inside)
  {
    assert pending == pending[..n] + pending[n..];
    Sequences.Regroup(pending[..n], pending[n..], tail);
  }

  lemma MoreSent(d: seq<Byte>, head: seq<Byte>, sent: seq<Byte>, pending: seq<Byte>, tail: seq<Byte>, inside: bool, n: nat)
    requires OnChannel(d, head, sent, pending, tail, inside) && n <= |pending|
    ensures OnChannel(d, head, sent + pending[..n], pending[n..], tail, inside)
  {
    assert pending == pending[..n] + pending[n..];
    Sequences.Regroup(pending[..n], pending[n..], tail);
    Sequences.Regroup(sent, pending[..n], pending[n..] + tail);
  }

  /**
    The item being played. The playout owns it by value: every operation takes it and gives
    back what it has become. `consumed` and `arrived` are how many messages of the channel were
    taken and have come in; `sent` are the bytes sent as frames; `head`, `tail` and `inside` say
    what trimming took away (see `OnChannel`); `frames` and `ragged` count the frames and say
    whether the last one had to be filled up.
  */
  datatype Active = Active(
    item: PlayItem,
    rebufferBytes: nat,
    trim: Option<Trim>,
    source: Source,
    offset: nat,
    pending: seq<Byte>,
    started: bool,
    streamDone: bool,
    bufferTo: nat,
    headTrimmed: bool,
    tailTrimmed: bool,
    consumed: nat,
    arrived: nat,
    sent: seq<Byte>,
    head: seq<Byte>,
    tail: seq<Byte>,
    inside: bool,
    frames: nat,
    ragged: bool)
  {
    /** Everything there is to play of the item so far. */
    function Whole(): seq<Byte> {
      if source.Clip? then source.clip
      else if trim.None? then Delivered(source.channel[..Min(consumed, |source.channel|)])
      else sent + pending
    }

    ghost predicate Valid() {
      && (source.Clip? ==>
            && item.source.Clip? && item.source.clip == head + (source.clip + tail)
            && offset <= |source.clip| && sent == source.clip[..offset] && pending == [])
      && (source.Stream? ==>
            && source == item.source && ReadUpTo(source.channel, consumed, arrived, streamDone)
            && OnChannel(Delivered(source.channel[..consumed]), head, sent, pending, tail, inside)
            && (tail != [] ==> streamDone))
      && (source.Stream? && trim.None? ==>
            headTrimmed && !inside && head == tail == [] && Delivered(source.channel[..consumed]) == sent + pending)
      && (source.Clip? && trim.None? ==> source == item.source)
      && (ragged ==> Done())
      && (!ragged ==> |sent| == frames * FRAME_BYTES)
    }

    /** The number of bytes still to play. */
    function Left(): nat
      requires Valid()
    {
      if source.Clip? then |source.clip| - offset else |pending|
    }

    predicate Done() {
      if source.Clip? then offset >= |source.clip| else streamDone && pending == []
    }

    /** All of the item is known: nothing more can arrive. */
    predicate Exact() {
      source.Clip? || streamDone
    }

    predicate WaitingOnStream() {
      source.Stream? && !streamDone && (|pending| < Max(bufferTo, FRAME_BYTES) || !headTrimmed)
    }

    /** Nothing goes out before the silence at the front is gone. */
    ghost predicate HeadFirst() {
      source.Stream? ==>
        && !inside
        && (|| headTrimmed || Done()
            || (sent == [] && !started && (bufferTo > 0 || (trim.Some? && trim.value.padMs * BYTES_PER_MS < FRAME_BYTES))))
    }

    /** `this` is what `before` may become while its channel is read and its silence trimmed. */
    ghost predicate From(before: Active) {
      && Valid()
      && item == before.item && source == before.source && trim == before.trim && started == before.started
      && offset == before.offset && sent == before.sent && (before.streamDone ==> streamDone)
      && (before.HeadFirst() ==> HeadFirst())
    }
  }

  lemma Parts(s: seq<Byte>, start: nat, end: nat)
    requires start <= end <= |s|
    ensures s == s[..start] + (s[start..end] + s[end..]) && s[0..|s|] == s
  {
  }

  /** Streams wait for a first buffer, or the pad is less than a frame. */
  predicate Contiguous(cfg: Config) {
    cfg.trim.None? || cfg.trim.value.padMs * BYTES_PER_MS < FRAME_BYTES || (cfg.startBufferMs > 0 && cfg.continuationBufferMs > 0)
  }

  /** An item about to be played. */
  function Activate(item: PlayItem, cfg: Config, continuation: bool): (a: Active)
    ensures a.Valid() && a.item == item && a.trim == cfg.trim && !a.started && a.sent == []
    ensures Contiguous(cfg) ==> a.HeadFirst()
    ensures item.source.Clip? && cfg.trim.None? ==> a.source == item.source
    ensures item.source.Clip? && cfg.trim.Some? ==>
      match SpeechBounds(cfg.trim.value, item.source.clip)
      case None => a.source == item.source
      case Some((start, end)) => a.source == Clip(item.source.clip[start..end])
  {
    var whole := if item.source.Clip? then item.source.clip else [];
    var bounds := if item.source.Clip? && cfg.trim.Some? then SpeechBounds(cfg.trim.value, whole) else None;
    var (start, end) := if bounds.Some? then bounds.value else (0, |whole|);
    var startMs := if continuation then cfg.continuationBufferMs else cfg.startBufferMs;
    Parts(whole, start, end);
    Active(item, cfg.rebufferMs * BYTES_PER_MS, cfg.trim, if bounds.Some? then Clip(whole[start..end]) else item.source, 0, [], false,
           false, if item.source.Stream? then startMs * BYTES_PER_MS else 0,
           cfg.trim.None? || item.source.Clip?, false, 0, 0, [], whole[..start], whole[end..], false, 0, false)
  }

  /** The next message out of the channel. */
  function Take(a: Active): (r: Active)
    requires a.Valid() && a.source.Stream? && !a.streamDone && a.consumed < a.arrived
    ensures r.From(a) && r.consumed == a.consumed + 1 && r.arrived == a.arrived
    ensures r.pending == a.pending + Bytes(a.source.channel[a.consumed]) && (r.streamDone <==> !a.source.channel[a.consumed].Chunk?)
    ensures r.headTrimmed == a.headTrimmed && r.bufferTo == a.bufferTo
  {
    var message := a.source.channel[a.consumed];
    ReadOneMore(a.source.channel, a.consumed, a.arrived);
    assert a.sent + a.pending + Bytes(message) == a.sent + (a.pending + Bytes(message));
    MoreDelivered(Delivered(a.source.channel[..a.consumed]), a.head, a.sent, a.pending, a.inside, Bytes(message));
    a.(consumed := a.consumed + 1, pending := a.pending + Bytes(message), streamDone := !message.Chunk?)
  }

  function Bytes(message: Message): seq<Byte> {
    if message.Chunk? then message.bytes else []
  }

  /** The bytes of the messages, one after the other. */
  function BytesOf(messages: seq<Message>): seq<Byte> {
    if messages == [] then [] else BytesOf(messages[..|messages| - 1]) + Bytes(messages[|messages| - 1])
  }

  lemma {:induction false} BytesOneMore(channel: seq<Message>, from: nat, n: nat)
    requires from <= n < |channel|
    ensures BytesOf(channel[from..n + 1]) == BytesOf(channel[from..n]) + Bytes(channel[n])
  {
    assert channel[from..n + 1][..n - from] == channel[from..n];
  }

  /** The buffer `after` is `before` and the bytes of the messages `from` to `upto`, all of them in order. */
  ghost predicate Received(channel: seq<Message>, from: nat, before: seq<Byte>, upto: nat, after: seq<Byte>) {
    from <= upto <= |channel| && after == before + BytesOf(channel[from..upto])
  }

  lemma ReceivedNone(channel: seq<Message>, from: nat, before: seq<Byte>)
    requires from <= |channel|
    ensures Received(channel, from, before, from, before)
  {
    assert channel[from..from] == [] && before + [] == before;
  }

  lemma ReceivedOne(channel: seq<Message>, from: nat, before: seq<Byte>, n: nat, after: seq<Byte>)
    requires Received(channel, from, before, n, after) && n < |channel|
    ensures Received(channel, from, before, n + 1, after + Bytes(channel[n]))
  {
    BytesOneMore(channel, from, n);
    Sequences.Regroup(before, BytesOf(channel[from..n]), Bytes(channel[n]));
  }

  /**
    Empty the channel into the buffer until `upTo` bytes wait there: every message that is taken
    goes on where the last one stopped, and none that has come in is left over but for that.
  */
  method Drain(a: Active, upTo: Option<nat>) returns (r: Active)
    requires a.Valid()
    ensures r.From(a) && a.consumed <= r.consumed
    ensures a.source.Stream? ==> Received(a.source.channel, a.consumed, a.pending, r.consumed, r.pending)
    ensures a.source.Stream? ==> r.streamDone || r.consumed == r.arrived || (upTo.Some? && |r.pending| >= upTo.value)
    ensures a.Exact() ==> r.pending == a.pending && r.streamDone == a.streamDone
    ensures r.headTrimmed == a.headTrimmed && r.bufferTo == a.bufferTo
  {
    if a.source.Clip? {
      return a;
    }
    var now: nat := *;
    r := TakeArrived(a.(arrived := Max(a.arrived, Min(now, |a.source.channel|))), upTo);
  }

  method TakeArrived(a: Active, upTo: Option<nat>) returns (r: Active)
    requires a.Valid() && a.source.Stream?
    ensures r.From(a) && a.consumed <= r.consumed
    ensures Received(a.source.channel, a.consumed, a.pending, r.consumed, r.pending)
    ensures r.streamDone || r.consumed == r.arrived || (upTo.Some? && |r.pending| >= upTo.value)
    ensures a.streamDone ==> r == a
    ensures r.headTrimmed == a.headTrimmed && r.bufferTo == a.bufferTo
  {
    r := a;
    ReceivedNone(a.source.channel, a.consumed, a.pending);
    while (upTo.None? || |r.pending| < upTo.value) && !r.streamDone && r.consumed < r.arrived
      invariant r.From(a) && a.consumed <= r.consumed && r.headTrimmed == a.headTrimmed && r.bufferTo == a.bufferTo
      invariant Received(a.source.channel, a.consumed, a.pending, r.consumed, r.pending)
      invariant a.streamDone ==> r == a
      decreases r.arrived - r.consumed
    {
      ReceivedOne(a.source.channel, a.consumed, a.pending, r.consumed, r.pending);
      r := Take(r);
    }
  }

  /** The first `n` bytes that wait are not sent; when they are the last to go, the head is trimmed. */
  function Skip(a: Active, n: nat, last: bool): (r: Active)
    requires a.Valid() && a.source.Stream? && a.trim.Some? && !a.headTrimmed
    requires n <= |a.pending| != 0 && (n < |a.pending| || !a.streamDone)
    ensures r.From(a) && r == a.(pending := a.pending[n..], head := r.head, inside := r.inside, headTrimmed := last)
    ensures |r.pending| == |a.pending| - n
  {
    if a.sent == [] then
      MoreSkipped(Delivered(a.source.channel[..a.consumed]), a.head, a.pending, a.tail, a.inside, n);
      a.(pending := a.pending[n..], head := a.head + a.pending[..n], headTrimmed := last)
    else a.(pending := a.pending[n..], inside := a.inside || n > 0, headTrimmed := last)
  }

  /** How much of what waits is quiet before the speech, or before the pad while none has come. */
  function QuietHead(t: Trim, pending: seq<Byte>, done: bool): (n: nat)
    ensures n <= |pending| && (pending != [] && done ==> n < |pending|) && Silent(t, pending, 0, n)
    ensures SpeechBounds(t, pending).None? && !done ==> |pending| - n <= t.padMs * BYTES_PER_MS
  {
    TrimDropsSilence(t, pending);
    var bounds := SpeechBounds(t, pending);
    if bounds.Some? then bounds.value.0
    else if done then 0
    else |pending| - Min(t.padMs * BYTES_PER_MS, |pending|)
  }

  /** Quiet windows leave the front of what waits: all but the pad before a loud one, or all but a pad while none has come. */
  function TrimHead(a: Active): (r: Active)
    requires a.Valid() && a.source.Stream?
    ensures r.From(a) && r.bufferTo == a.bufferTo && r.streamDone == a.streamDone
    ensures a.trim.None? ==> r.pending == a.pending
    ensures |r.pending| <= |a.pending| && r.pending == a.pending[|a.pending| - |r.pending|..]
    ensures a.trim.Some? ==> Silent(a.trim.value, a.pending, 0, |a.pending| - |r.pending|)
    ensures r.pending == [] ==> a.pending == [] || !a.streamDone
    ensures a.pending != [] && a.streamDone ==> r.headTrimmed || a.trim.None?
    ensures !r.headTrimmed && a.trim.Some? && a.pending != [] ==> |r.pending| <= a.trim.value.padMs * BYTES_PER_MS
  {
    if a.trim.None? || a.headTrimmed || a.pending == [] then a
    else
      var n := QuietHead(a.trim.value, a.pending, a.streamDone);
      Skip(a, n, SpeechBounds(a.trim.value, a.pending).Some? || a.streamDone)
  }

  /** Nothing after the first `n` bytes that wait is sent. */
  function CutEnd(a: Active, n: nat): (r: Active)
    requires a.Valid() && a.source.Stream? && a.trim.Some? && a.streamDone && n <= |a.pending| && (n == 0 ==> a.pending == [])
    ensures r.From(a) && r == a.(pending := a.pending[..n], tail := r.tail)
  {
    MoreCut(Delivered(a.source.channel[..a.consumed]), a.head, a.sent, a.pending, a.tail, a.inside, n);
    a.(pending := a.pending[..n], tail := a.pending[n..] + a.tail)
  }

  /** How much of what waits is left up to the pad after the speech. */
  function LoudPart(t: Trim, pending: seq<Byte>): (n: nat)
    ensures n <= |pending| && (n == 0 ==> pending == []) && (n < |pending| ==> Silent(t, pending, n, |pending|))
  {
    TrimDropsSilence(t, pending);
    var bounds := SpeechBounds(t, pending);
    if bounds.Some? then bounds.value.1 else |pending|
  }

  /** After the close, quiet windows behind the last loud one leave the end, all but the pad. */
  function TrimTail(a: Active): (r: Active)
    requires a.Valid() && a.source.Stream?
    ensures r.From(a) && r.bufferTo == a.bufferTo && r.streamDone == a.streamDone && r.headTrimmed == a.headTrimmed
    ensures a.trim.None? ==> r.pending == a.pending
    ensures r.pending <= a.pending && (r.pending == [] ==> a.pending == [])
    ensures a.trim.Some? && |r.pending| < |a.pending| ==> Silent(a.trim.value, a.pending, |r.pending|, |a.pending|)
  {
    if a.trim.None? || a.tailTrimmed || !a.streamDone then a
    else CutEnd(a, LoudPart(a.trim.value, a.pending)).(tailTrimmed := true)
  }

  /** What a frame taken from the item means: its bytes go on where the last frame stopped. */
  ghost predicate Took(a: Active, r: Active, frame: seq<Byte>) {
    && r.item == a.item && r.trim == a.trim && r.started == a.started
    && |frame| == FRAME_BYTES && r.sent != [] && Padded(r.sent) == Padded(a.sent) + frame
  }

  /** A frame off the front of a stream's buffer, the last one padded. */
  function CutFrame(a: Active): (r: (Active, seq<Byte>))
    requires a.Valid() && a.source.Stream? && a.pending != [] && (a.streamDone || |a.pending| >= FRAME_BYTES)
    ensures r.0.Valid() && Took(a, r.0, r.1) && r.0.streamDone == a.streamDone && r.0.source == a.source
    ensures r.0.pending == a.pending[Min(FRAME_BYTES, |a.pending|)..]
    ensures r.0.headTrimmed == a.headTrimmed && r.0.inside == a.inside && r.0.consumed == a.consumed && r.0.arrived == a.arrived
    ensures r.0.sent == a.sent + a.pending[..Min(FRAME_BYTES, |a.pending|)]
  {
    var size := Min(FRAME_BYTES, |a.pending|);
    var piece := a.pending[..size];
    PaddedFrame(a.sent, a.frames, piece);
    MoreSent(Delivered(a.source.channel[..a.consumed]), a.head, a.sent, a.pending, a.tail, a.inside, size);
    (a.(pending := a.pending[size..], sent := a.sent + piece, frames := a.frames + 1, ragged := size < FRAME_BYTES),
     Padded(piece))
  }

  lemma SentUpTo(clip: seq<Byte>, offset: nat, end: nat)
    requires offset <= end <= |clip|
    ensures clip[..offset] + clip[offset..end] == clip[..end]
  {
  }

  /** A clip's frame, cut at its offset. */
  function NextOfClip(a: Active): (r: (Active, Option<seq<Byte>>))
    requires a.Valid() && a.source.Clip?
    ensures r.0.Valid() && r.0.source == a.source
    ensures r.1.None? ==> a.Done() && r.0 == a
    ensures r.1.Some? ==> !a.Done() && Took(a, r.0, r.1.value)
    ensures r.0.Done() || r.0.Left() + FRAME_BYTES <= a.Left()
  {
    if a.offset >= |a.source.clip| then (a, None)
    else
      var end := Min(a.offset + FRAME_BYTES, |a.source.clip|);
      var piece := a.source.clip[a.offset..end];
      PaddedFrame(a.sent, a.frames, piece);
      SentUpTo(a.source.clip, a.offset, end);
      (a.(offset := end, sent := a.sent + piece, frames := a.frames + 1, ragged := |piece| < FRAME_BYTES),
       Some(Padded(piece)))
  }

  /** The buffer with what has come in, its silence trimmed. */
  method Refill(a: Active) returns (r: Active)
    requires a.Valid() && a.source.Stream?
    ensures r.From(a) && (a.streamDone ==> |r.pending| <= |a.pending|)
    ensures a.streamDone ==> (r.pending == [] <==> a.pending == [])
    ensures r.bufferTo == a.bufferTo && (r.streamDone ==> r.headTrimmed || r.pending == [])
    ensures r.bufferTo == 0 && a.trim.Some? && a.trim.value.padMs * BYTES_PER_MS < FRAME_BYTES && !r.headTrimmed && !r.streamDone ==>
      |r.pending| < FRAME_BYTES
  {
    r := Drain(a, Some(Max(a.bufferTo, FRAME_BYTES)));
    if !r.headTrimmed && (|r.pending| >= Max(r.bufferTo, FRAME_BYTES) || r.streamDone) {
      r := TrimHead(r);
    }
    r := TrimTail(r);
  }

  /** A whole frame waits, or the last part of one. */
  predicate HasFrame(a: Active) {
    |a.pending| >= FRAME_BYTES || (a.streamDone && a.pending != [])
  }

  /** Enough waits for the buffer, or it never will. */
  predicate Buffered(a: Active) {
    a.streamDone || (|a.pending| >= a.bufferTo && a.headTrimmed)
  }

  /** A stream's frame, cut from what waits, if that is enough. */
  method NextOfStream(a: Active) returns (r: Active, frame: Option<seq<Byte>>, ghost filled: Active)
    requires a.Valid() && a.source.Stream?
    ensures filled.From(a) && (frame.Some? <==> (filled.bufferTo > 0 ==> Buffered(filled)) && HasFrame(filled))
    ensures r.Valid() && r.source == a.source && (a.streamDone ==> r.streamDone)
    ensures frame.None? ==> r.From(a)
    ensures frame.Some? ==> Took(a, r, frame.value) && !a.Done()
    ensures a.streamDone ==> (frame.Some? <==> !a.Done())
    ensures a.streamDone ==> r.Done() || r.Left() + FRAME_BYTES <= a.Left()
    ensures frame.Some? && a.HeadFirst() ==> r.headTrimmed && !r.inside
  {
    r := Refill(a);
    filled := r;
    if r.bufferTo > 0 && !Buffered(r) {
      return r, None, filled;
    }
    r, frame := Serve(r);
  }

  /** A frame off a stream that does not wait for its buffer. */
  method Serve(a: Active) returns (r: Active, frame: Option<seq<Byte>>)
    requires a.Valid() && a.source.Stream? && (a.bufferTo > 0 ==> Buffered(a)) && (a.streamDone ==> a.headTrimmed || a.pending == [])
    requires a.bufferTo == 0 && a.trim.Some? && a.trim.value.padMs * BYTES_PER_MS < FRAME_BYTES && !a.headTrimmed && !a.streamDone ==>
      |a.pending| < FRAME_BYTES
    ensures r.Valid() && r.source == a.source && r.streamDone == a.streamDone
    ensures frame.None? ==> r.From(a)
    ensures frame.Some? ==> Took(a, r, frame.value) && a.pending != []
    ensures frame.Some? <==> HasFrame(a)
    ensures a.streamDone ==> (r.pending == [] || |r.pending| + FRAME_BYTES <= |a.pending|)
    ensures frame.Some? && a.HeadFirst() ==> r.headTrimmed && !r.inside
  {
    if HasFrame(a) {
      var cut := CutFrame(a.(bufferTo := 0));
      return cut.0, Some(cut.1);
    }
    r := a.(bufferTo := if a.started && !a.streamDone then a.rebufferBytes else 0);
    frame := None;
  }

  /** A frame, when the item can give one; without one it is done, or its channel has to deliver first. */
  method NextFrame(a: Active) returns (r: Active, frame: Option<seq<Byte>>)
    requires a.Valid()
    ensures r.Valid() && (a.Exact() ==> r.Exact())
    ensures frame.None? ==> r.From(a)
    ensures frame.Some? ==> Took(a, r, frame.value) && !a.Done()
    ensures a.Exact() ==> (frame.Some? <==> !a.Done())
    ensures a.Exact() ==> r.Done() || r.Left() + FRAME_BYTES <= a.Left()
    ensures frame.Some? && a.HeadFirst() ==> r.(started := true).HeadFirst()
  {
    if a.source.Clip? {
      var next := NextOfClip(a);
      r, frame := next.0, next.1;
    } else {
      ghost var filled;
      r, frame, filled := NextOfStream(a);
    }
  }

  /** The item waited, and the channel gave it its next message. */
  function WaitForData(a: Active): (r: Active)
    requires a.Valid() && a.source.Stream? && !a.streamDone && a.consumed < |a.source.channel|
    ensures r.From(a) && r.consumed == a.consumed + 1 && r.pending == a.pending + Bytes(a.source.channel[a.consumed])
  {
    Take(a.(arrived := Max(a.arrived, a.consumed + 1)))
  }

  /** An untrimmed item that is done holds all its source had. */
  lemma {:induction false} DoneIsWhole(a: Active)
    requires a.Valid() && a.Done() && a.trim.None?
    ensures a.Whole() == Content(a.item) && a.sent == a.Whole()
  {
    if a.source.Stream? {
      NothingAfterTheEnd(a.source.channel, a.consumed - 1);
      assert a.sent + [] == a.sent;
    } else {
      assert a.source.clip[..a.offset] == a.source.clip;
    }
  }

  lemma {:induction false} DeliveredGrows(channel: seq<Message>, n: nat)
    requires n <= |channel|
    ensures Delivered(channel[..n]) <= Delivered(channel)
    decreases |channel|
  {
    if n == |channel| {
      assert channel[..n] == channel;
    } else {
      var front := channel[..|channel| - 1];
      assert front[..n] == channel[..n];
      DeliveredGrows(front, n);
    }
  }

  /** What was sent of an untrimmed item is the start of what its source has. */
  lemma {:induction false} SentIsAStart(a: Active)
    requires a.Valid() && a.trim.None?
    ensures a.sent <= Content(a.item)
  {
    if a.source.Stream? {
      DeliveredGrows(a.source.channel, a.consumed);
    }
  }

  lemma {:induction false} DoneIsSent(a: Active)
    requires a.Valid() && a.Done()
    ensures a.Whole() == a.sent
  {
    if a.source.Stream? {
      assert a.sent + [] == a.sent;
    } else {
      assert a.source.clip[..a.offset] == a.source.clip;
    }
  }

  lemma {:induction false} StreamSlice(
    d: seq<Byte>, all: seq<Byte>, head: seq<Byte>, sent: seq<Byte>, pending: seq<Byte>, tail: seq<Byte>)
    requires OnChannel(d, head, sent, pending, tail, false) && d <= all
    ensures IsSlice(sent, all)
  {
    var rest := all[|d|..];
    assert all == d + rest;
    Sequences.Regroup(head, sent + (pending + tail), rest);
    Sequences.Regroup(sent, pending + tail, rest);
    SliceAt(head, sent, pending + tail + rest);
  }

  lemma {:induction false} ClipSlice(head: seq<Byte>, clip: seq<Byte>, tail: seq<Byte>, upto: nat)
    requires upto <= |clip|
    ensures IsSlice(clip[..upto], head + (clip + tail))
  {
    assert clip == clip[..upto] + clip[upto..];
    Sequences.Regroup(clip[..upto], clip[upto..], tail);
    SliceAt(head, clip[..upto], clip[upto..] + tail);
  }

  /** What was sent of an item is one piece of what its source has, where nothing goes out before the head is trimmed. */
  lemma {:induction false} SentIsASlice(a: Active)
    requires a.Valid() && a.HeadFirst()
    ensures IsSlice(a.sent, Content(a.item))
  {
    if a.source.Stream? {
      DeliveredGrows(a.source.channel, a.consumed);
      StreamSlice(Delivered(a.source.channel[..a.consumed]), Delivered(a.source.channel), a.head, a.sent, a.pending, a.tail);
    } else {
      ClipSlice(a.head, a.source.clip, a.tail, a.offset);
    }
  }

  /** No window of these two codes is loud. */
  ghost predicate QuietCodes(t: Trim, x: Byte, y: Byte) {
    forall w: seq<Byte> :: (forall k :: 0 <= k < |w| ==> w[k] == x || w[k] == y) ==> !t.loud(w)
  }

  lemma NothingLoud(t: Trim, x: Byte, y: Byte, audio: seq<Byte>)
    requires QuietCodes(t, x, y) && forall k :: 0 <= k < |audio| ==> audio[k] == x || audio[k] == y
    ensures SpeechBounds(t, audio) == None
  {
  }

  /** A look at the channel can take a message and send a frame of what is left of it. */
  ghost predicate CanLook(a: Active) {
    a.Valid() && a.source.Stream? && !a.streamDone && a.consumed < a.arrived && |TrimHead(Take(a)).pending| >= FRAME_BYTES
  }

  /** Such a look. */
  ghost function Look(a: Active): (r: Active)
    requires CanLook(a)
    ensures r.Valid()
  {
    CutFrame(TrimHead(Take(a))).0
  }

  /** While nothing loud has come, all but a pad of what waits is dropped. */
  lemma OnlyAPad(t: Trim, a: Active)
    requires a.Valid() && a.source.Stream? && !a.headTrimmed && !a.streamDone && a.pending != [] && a.trim == Some(t)
    requires SpeechBounds(t, a.pending) == None
    ensures var r, kept := TrimHead(a), Min(t.padMs * BYTES_PER_MS, |a.pending|);
      r == a.(pending := a.pending[|a.pending| - kept..], head := r.head, inside := r.inside)
  {
  }

  /** The silent chunk that comes is cut down to the pad. */
  lemma LookKeeps(t: Trim, a: Active, chunk: seq<Byte>)
    requires AtSilence(t, a, chunk)
    ensures var r, from := TrimHead(Take(a)), |chunk| - Min(t.padMs * BYTES_PER_MS, |chunk|);
      && r.From(a) && r.consumed == a.consumed + 1 && r.arrived == a.arrived
      && !r.headTrimmed && !r.streamDone && r.pending == chunk[from..]
  {
    assert Take(a).pending == chunk;
    OnlyAPad(t, Take(a));
  }

  /** Nothing waits, and the next message is a silent chunk. */
  ghost predicate AtSilence(t: Trim, a: Active, chunk: seq<Byte>) {
    && a.Valid() && a.source.Stream? && !a.headTrimmed && !a.streamDone && a.pending == [] && a.trim == Some(t)
    && a.consumed < a.arrived && a.source.channel[a.consumed] == Chunk(chunk)
    && chunk != [] && SpeechBounds(t, chunk) == None
  }

  /** Such a look sends the first frame of the pad that is left. */
  lemma LookSends(t: Trim, a: Active, chunk: seq<Byte>)
    requires AtSilence(t, a, chunk) && FRAME_BYTES <= t.padMs * BYTES_PER_MS && FRAME_BYTES <= |chunk|
    ensures CanLook(a)
    ensures var r, from := Look(a), |chunk| - Min(t.padMs * BYTES_PER_MS, |chunk|);
      && r.source == a.source && r.consumed == a.consumed + 1 && r.arrived == a.arrived && r.trim == a.trim
      && !r.headTrimmed && !r.streamDone
      && r.sent == a.sent + chunk[from..from + FRAME_BYTES] && r.pending == chunk[from + FRAME_BYTES..]
  {
    LookKeeps(t, a, chunk);
    var from := |chunk| - Min(t.padMs * BYTES_PER_MS, |chunk|);
    assert chunk[from..][..FRAME_BYTES] == chunk[from..from + FRAME_BYTES];
    assert chunk[from..][FRAME_BYTES..] == chunk[from + FRAME_BYTES..];
  }

  /** A frame of one code, then a frame of another, a frame of the first again, and the other to the length of the pad. */
  function Alternating(x: Byte, y: Byte, pad: nat): (chunks: (seq<Byte>, seq<Byte>))
    requires pad >= FRAME_BYTES
    ensures |chunks.0| == FRAME_BYTES && |chunks.1| == FRAME_BYTES + pad
    ensures forall k :: 0 <= k < |chunks.0| ==> chunks.0[k] == x
    ensures forall k :: 0 <= k < |chunks.1| ==> chunks.1[k] == if FRAME_BYTES <= k < 2 * FRAME_BYTES then x else y
  {
    (Repeat(x, FRAME_BYTES), Repeat(y, FRAME_BYTES) + Repeat(x, FRAME_BYTES) + Repeat(y, pad - FRAME_BYTES))
  }

  lemma {:induction false} Delivers(first: seq<Byte>, second: seq<Byte>)
    ensures Delivered([Chunk(first), Chunk(second)]) == first + second
  {
    var channel := [Chunk(first), Chunk(second)];
    assert channel[..0] == [] && channel[..2] == channel;
    OneMessageMore(channel, 0);
    OneMessageMore(channel, 1);
    assert [] + first == first;
  }

  lemma AnotherThere(x: Byte, y: Byte, pad: nat, s: seq<Byte>, from: nat)
    requires x != y && pad >= FRAME_BYTES && |s| == 2 * FRAME_BYTES && forall k :: 0 <= k < |s| ==> s[k] == x
    requires from + |s| <= 2 * FRAME_BYTES + pad
    ensures var (first, second) := Alternating(x, y, pad); s != (first + second)[from..from + |s|]
  {
    var (first, second) := Alternating(x, y, pad);
    var d, k := first + second, if from < 2 * FRAME_BYTES then Max(from, FRAME_BYTES) else Max(from, 3 * FRAME_BYTES);
    assert d[k] == second[k - FRAME_BYTES] == y && d[from..from + |s|][k - from] == d[k];
  }

  /** No two frames in a row hold the first code alone. */
  lemma NoSuchSlice(x: Byte, y: Byte, pad: nat, s: seq<Byte>)
    requires x != y && pad >= FRAME_BYTES && |s| == 2 * FRAME_BYTES && forall k :: 0 <= k < |s| ==> s[k] == x
    ensures var (first, second) := Alternating(x, y, pad); !IsSlice(s, first + second)
  {
    var (first, second) := Alternating(x, y, pad);
    if IsSlice(s, first + second) {
      var from := SliceIsAt(s, first + second);
      AnotherThere(x, y, pad, s, from);
      assert false;
    }
  }

  /** A stream about to be played, all of whose messages have come in. */
  ghost function Opened(cfg: Config, continuation: bool, channel: seq<Message>): (a: Active)
    ensures a.Valid() && a.source == Stream(channel) && a.headTrimmed == cfg.trim.None? && !a.streamDone && a.pending == [] && a.sent == []
    ensures a.consumed == 0 && a.arrived == |channel| && a.trim == cfg.trim
    ensures a.bufferTo == (if continuation then cfg.continuationBufferMs else cfg.startBufferMs) * BYTES_PER_MS
  {
    Activate(PlayItem(1, Stream(channel)), cfg, continuation).(arrived := |channel|)
  }

  lemma WholeFrame(frame: seq<Byte>)
    requires |frame| == FRAME_BYTES
    ensures [] + frame[0..FRAME_BYTES] == frame && frame[FRAME_BYTES..] == []
  {
  }

  lemma AfterTheFirst(t: Trim, a: Active, first: seq<Byte>, second: seq<Byte>)
    requires AtSilence(t, a, first) && a.source.channel == [Chunk(first), Chunk(second)] && a.consumed == 0 && a.arrived == 2 && a.sent == []
    requires FRAME_BYTES <= t.padMs * BYTES_PER_MS && |first| == FRAME_BYTES
    requires second != [] && SpeechBounds(t, second) == None
    ensures CanLook(a) && AtSilence(t, Look(a), second) && Look(a).sent == first
  {
    LookSends(t, a, first);
    WholeFrame(first);
  }

  lemma {:induction false} CutBetween(t: Trim, x: Byte, y: Byte, a: Active, first: seq<Byte>, second: seq<Byte>)
    requires x != y && FRAME_BYTES <= t.padMs * BYTES_PER_MS && (first, second) == Alternating(x, y, t.padMs * BYTES_PER_MS)
    requires AtSilence(t, a, second) && a.sent == first
    ensures CanLook(a) && !IsSlice(Look(a).sent, first + second)
  {
    LookSends(t, a, second);
    NoSuchSlice(x, y, t.padMs * BYTES_PER_MS, first + second[FRAME_BYTES..2 * FRAME_BYTES]);
  }

  /**
    Otherwise it is not: with no first buffer and a pad of a frame or more, a stream that starts with
    silence loses silence from between two frames. The first goes out as soon as it is there, and of
    what comes after it the next look at the channel keeps the pad alone.
  */
  lemma {:induction false} CutInside(cfg: Config, t: Trim, x: Byte, y: Byte) returns (continuation: bool, channel: seq<Message>)
    requires cfg.trim == Some(t) && !Contiguous(cfg) && x != y && QuietCodes(t, x, y)
    ensures var a := Opened(cfg, continuation, channel);
      && a.bufferTo == 0 && CanLook(a) && CanLook(Look(a))
      && !IsSlice(Look(Look(a)).sent, Delivered(channel))
  {
    continuation := cfg.startBufferMs > 0;
    var (first, second) := Alternating(x, y, t.padMs * BYTES_PER_MS);
    channel := [Chunk(first), Chunk(second)];
    NothingLoud(t, x, y, first);
    NothingLoud(t, x, y, second);
    var a := Opened(cfg, continuation, channel);
    AfterTheFirst(t, a, first, second);
    CutBetween(t, x, y, Look(a), first, second);
    Delivers(first, second);
  }

  /** The bytes not sent yet; exact when the channel can add nothing. */
  method Remaining(a: Active) returns (r: Active, bytes: nat, exact: bool)
    requires a.Valid()
    ensures r.From(a) && bytes == r.Left() && exact == r.Exact()
    ensures a.Exact() ==> r.Exact() && r.Left() == a.Left() && r.Done() == a.Done()
  {
    if a.source.Clip? {
      return a, |a.source.clip| - a.offset, true;
    }
    r := Drain(a, None);
    return r, |r.pending|, r.streamDone;
  }
}
