/**
  The paced playout: one item after another, each frame sent at most the lead before it is heard.

  A `History` holds everything the playout sent and heard, oldest first. What a history says
  about pacing, silence, order and accounting is defined on histories alone; the class
  `Player` keeps its own counters in step with them.
*/
module Playout {
  import opened Options
  import opened Audio
  import opened PlayoutItem

  /** Time is in nanoseconds. */
  const MS: nat := 1_000_000
  const FRAME_TIME: nat := FRAME_MS * MS

  datatype Entry =
    | Enqueued(item: PlayItem)
    /** One frame, with the `Started` (`first`) and the `Gap` (`gap` ms, when not 0) sent with it. */
    | Sent(id: nat, frame: seq<Byte>, at: nat, first: bool, gap: nat)
    | Finished(done: PlayItem, whole: seq<Byte>)
    | Protected(keptId: nat, keptMs: nat)
    | Cancelled(ids: seq<nat>, remainingMs: nat)
    /** A hard cancel; with audio in flight it sends `Clear`. */
    | Reset(clear: bool)
    | Idle
    | Ticked

  datatype History = Start | Then(before: History, entry: Entry)

  // ---------------------------------------------------------------------------------------
  // What a history says
  // ---------------------------------------------------------------------------------------

  ghost function Frames(h: History): nat {
    match h case Start => 0 case Then(b, e) => Frames(b) + if e.Sent? then 1 else 0
  }

  ghost function Ticks(h: History): nat {
    match h case Start => 0 case Then(b, e) => Ticks(b) + if e.Ticked? then 1 else 0
  }

  ghost function Resets(h: History): nat {
    match h case Start => 0 case Then(b, e) => Resets(b) + if e.Reset? then 1 else 0
  }

  /** Frames that no tick has paid for. */
  ghost function Ahead(h: History): nat {
    match h
    case Start => 0
    case Then(b, Sent(_, _, _, _, _)) => Ahead(b) + 1
    case Then(b, Ticked) => if Ahead(b) == 0 then 0 else Ahead(b) - 1
    case Then(b, Reset(_)) => 0
    case Then(b, _) => Ahead(b)
  }

  function Later(end: Option<nat>, at: nat): nat {
    if end.Some? then Max(end.value, at) else at
  }

  /** The end of the frames sent since the last reset, each of them heard in full. */
  ghost function End(h: History): Option<nat> {
    match h
    case Start => None
    case Then(b, Sent(_, _, at, _, _)) => Some(Later(End(b), at) + FRAME_TIME)
    case Then(b, Reset(_)) => None
    case Then(b, _) => End(b)
  }

  /** No frame since the last `Idle`. */
  ghost function Quiet(h: History): bool {
    match h
    case Start => true
    case Then(_, Sent(_, _, _, _, _)) => false
    case Then(_, Idle) => true
    case Then(b, _) => Quiet(b)
  }

  /** The item whose frames are being sent, and its bytes sent. */
  datatype Snapshot = Snapshot(playing: Option<nat>, played: seq<Byte>)

  ghost function After(h: History): Snapshot {
    match h
    case Start => Snapshot(None, [])
    case Then(b, e) => Step(After(b), e)
  }

  ghost function Step(s: Snapshot, e: Entry): Snapshot {
    match e
    case Sent(id, frame, _, first, _) => Snapshot(Some(id), if first then frame else s.played + frame)
    case Finished(_, _) => s.(playing := None)
    case Reset(_) => s.(playing := None)
    case _ => s
  }

  ghost function Count(ids: seq<nat>, id: nat): nat {
    if ids == [] then 0 else (if ids[0] == id then 1 else 0) + Count(ids[1..], id)
  }

  /** How many more times `id` was enqueued than finished or cancelled. */
  ghost function Balance(h: History, id: nat): int {
    match h
    case Start => 0
    case Then(b, Enqueued(item)) => Balance(b, id) + if item.id == id then 1 else 0
    case Then(b, Finished(item, _)) => Balance(b, id) - if item.id == id then 1 else 0
    case Then(b, Cancelled(ids, _)) => Balance(b, id) - Count(ids, id)
    case Then(b, _) => Balance(b, id)
  }

  /** The gaps between each frame and the end of those before it. */
  ghost function Silence(h: History): nat {
    match h
    case Start => 0
    case Then(b, Sent(_, _, at, _, _)) =>
      Silence(b) + if End(b).Some? && at > End(b).value then at - End(b).value else 0
    case Then(b, _) => Silence(b)
  }

  /** The silence reported, in ms. */
  ghost function Gaps(h: History): nat {
    match h case Start => 0 case Then(b, e) => Gaps(b) + if e.Sent? then e.gap else 0
  }

  /** The gap a frame sent at `at` reports: whole milliseconds, and only past one. */
  function GapOf(end: Option<nat>, at: nat): nat {
    if end.Some? && at > end.value + MS then (at - end.value) / MS else 0
  }

  /** Untrimmed, all of the item; trimmed, one piece of it. */
  ghost predicate Faithful(cfg: Config, item: PlayItem, whole: seq<Byte>) {
    && (cfg.trim.None? ==> whole == Content(item))
    && (Contiguous(cfg) ==> IsSlice(whole, Content(item)))
  }

  /** What every entry must satisfy, given what came before it. */
  ghost predicate Allowed(cfg: Config, b: History, e: Entry) {
    var s := After(b);
    match e
    case Sent(id, frame, at, first, gap) =>
      && Ahead(b) < cfg.lead
      && |frame| == FRAME_BYTES
      && s.playing == (if first then None else Some(id))
      && gap == GapOf(End(b), at)
    // A finished item was sent whole, in order, with silence only after its last byte: untrimmed,
    // all of its clip, or all its channel delivered before it closed; trimmed, one piece of that.
    case Finished(item, whole) =>
      && (s.playing.None? ==> whole == [])
      && (s.playing.Some? ==> s.playing.value == item.id && s.played == Padded(whole))
      && Faithful(cfg, item, whole)
    // Every item enqueued was finished or cancelled, and every frame sent had its time.
    case Idle =>
      !Quiet(b) && Ahead(b) == 0 && s.playing == None && forall id: nat :: Balance(b, id) == 0
    case _ => true
  }

  ghost predicate Good(cfg: Config, h: History) {
    match h case Start => true case Then(b, e) => Good(cfg, b) && Allowed(cfg, b, e)
  }

  /** `b` is `a` and what came after it. */
  ghost predicate Extends(a: History, b: History) {
    a == b || (b.Then? && Extends(a, b.before))
  }

  // ---------------------------------------------------------------------------------------
  // Theorems about every good history
  // ---------------------------------------------------------------------------------------

  lemma {:induction false} CountsGrow(a: History, b: History)
    requires Extends(a, b)
    ensures Frames(a) <= Frames(b) && Ticks(a) <= Ticks(b) && Resets(a) <= Resets(b)
    ensures Silence(a) <= Silence(b) && Gaps(a) <= Gaps(b)
    decreases b
  {
    if a != b {
      CountsGrow(a, b.before);
    }
  }

  lemma {:induction false} AheadWithinLead(cfg: Config, h: History)
    requires Good(cfg, h)
    ensures Ahead(h) <= cfg.lead
  {
    if h.Then? {
      AheadWithinLead(cfg, h.before);
    }
  }

  lemma {:induction false} FramesAgainstTicks(a: History, b: History)
    requires Extends(a, b) && Resets(a) == Resets(b)
    ensures Frames(b) + Ahead(a) <= Frames(a) + Ahead(b) + (Ticks(b) - Ticks(a))
    decreases b
  {
    CountsGrow(a, b);
    if a != b {
      CountsGrow(a, b.before);
      FramesAgainstTicks(a, b.before);
    }
  }

  /** Any stretch with k ticks and no hard cancel sends at most lead + k frames. */
  lemma Pacing(cfg: Config, a: History, b: History)
    requires Good(cfg, b) && Extends(a, b) && Resets(a) == Resets(b)
    ensures Frames(b) - Frames(a) <= cfg.lead + (Ticks(b) - Ticks(a))
  {
    FramesAgainstTicks(a, b);
    AheadWithinLead(cfg, b);
  }

  /** A frame reports all of the silence before it but at most one millisecond. */
  lemma GapIsClose(end: nat, at: nat)
    ensures var silence := if at > end then at - end else 0;
      GapOf(Some(end), at) * MS <= silence <= GapOf(Some(end), at) * MS + MS
  {
  }

  /** Over any stretch with no hard cancel that starts with audio sent: the end moves by the
      frames' own time and the silence, and the silence reported is short of the true one by
      at most a millisecond a frame. */
  lemma {:induction false} SilenceLedger(cfg: Config, a: History, b: History)
    requires Good(cfg, b) && Extends(a, b) && Resets(a) == Resets(b) && End(a).Some?
    ensures Frames(a) <= Frames(b) && Silence(a) <= Silence(b) && Gaps(a) <= Gaps(b)
    ensures End(b).Some?
    ensures End(b).value == End(a).value + FRAME_TIME * (Frames(b) - Frames(a)) + (Silence(b) - Silence(a))
    ensures 0 <= Silence(b) - Silence(a) - MS * (Gaps(b) - Gaps(a)) <= MS * (Frames(b) - Frames(a))
    decreases b
  {
    if a != b {
      CountsGrow(a, b.before);
      SilenceLedger(cfg, a, b.before);
      if b.entry.Sent? {
        var frames, gaps := Frames(b.before) - Frames(a), Gaps(b.before) - Gaps(a);
        GapIsClose(End(b.before).value, b.entry.at);
        assert FRAME_TIME * (frames + 1) == FRAME_TIME * frames + FRAME_TIME;
        assert MS * (frames + 1) == MS * frames + MS;
        assert MS * (gaps + b.entry.gap) == MS * gaps + b.entry.gap * MS;
      }
    }
  }

  /** The same from the first frame after a start or a hard cancel. */
  lemma {:induction false} SilenceLedgerFromFirst(cfg: Config, a: History, b: History)
    requires Good(cfg, b) && Extends(a, b) && Resets(a) == Resets(b)
    requires a.Then? && a.entry.Sent? && End(a.before) == None
    ensures End(b).Some? && Frames(b) > Frames(a.before)
    ensures var silence := Silence(b) - Silence(a.before);
      End(b).value == a.entry.at + FRAME_TIME * (Frames(b) - Frames(a.before)) + silence
    ensures var silence := Silence(b) - Silence(a.before);
      0 <= silence - MS * (Gaps(b) - Gaps(a.before)) <= MS * (Frames(b) - Frames(a.before) - 1)
  {
    GoodBefore(cfg, a, b);
    FirstFrame(cfg, a);
    SilenceLedger(cfg, a, b);
    var later := Frames(b) - Frames(a);
    assert Frames(b) - Frames(a.before) == later + 1;
    assert FRAME_TIME * (later + 1) == FRAME_TIME + FRAME_TIME * later;
  }

  lemma FirstFrame(cfg: Config, a: History)
    requires Good(cfg, a) && a.Then? && a.entry.Sent? && End(a.before) == None
    ensures End(a) == Some(a.entry.at + FRAME_TIME) && Frames(a) == Frames(a.before) + 1
    ensures Silence(a) == Silence(a.before) && Gaps(a) == Gaps(a.before)
  {
  }

  lemma {:induction false} GoodBefore(cfg: Config, a: History, b: History)
    requires Good(cfg, b) && Extends(a, b)
    ensures Good(cfg, a)
    decreases b
  {
    if a != b {
      GoodBefore(cfg, a, b.before);
    }
  }

  /** The end is never before any frame sent at its time could have played with all after it. */
  lemma {:induction false} EndCoversEveryFrame(a: History, b: History)
    requires Extends(a, b) && Resets(a) == Resets(b) && a.Then? && a.entry.Sent?
    ensures End(b).Some? && End(b).value >= a.entry.at + FRAME_TIME * (Frames(b) - Frames(a.before))
    decreases b
  {
    CountsGrow(a, b);
    if a != b {
      CountsGrow(a, b.before);
      EndCoversEveryFrame(a, b.before);
    }
  }

  /** And some frame attains it: the end is the earliest time at which all of them can have played. */
  lemma {:induction false} EndIsAttained(b: History) returns (a: History)
    requires End(b).Some?
    ensures Extends(a, b) && Resets(a) == Resets(b) && a.Then? && a.entry.Sent?
    ensures Frames(a) <= Frames(b)
    ensures End(b).value == a.entry.at + FRAME_TIME * (Frames(b) - Frames(a.before))
  {
    if b.entry.Sent? && (End(b.before).None? || End(b.before).value <= b.entry.at) {
      a := b;
    } else {
      a := EndIsAttained(b.before);
    }
  }

  lemma {:induction false} QuietHasNoFrames(a: History, b: History)
    requires Extends(a, b) && Quiet(a) && Frames(a) == Frames(b)
    ensures Quiet(b)
    decreases b
  {
    if a != b {
      CountsGrow(a, b.before);
      QuietHasNoFrames(a, b.before);
    }
  }

  /** An audio frame lies between any two `Idle`s. */
  lemma IdlesAreSeparated(cfg: Config, a: History, b: History)
    requires Good(cfg, b) && b.Then? && b.entry.Idle? && a.Then? && a.entry.Idle? && Extends(a, b.before)
    ensures Frames(a) < Frames(b)
  {
    CountsGrow(a, b.before);
    if Frames(a) == Frames(b.before) {
      QuietHasNoFrames(a, b.before);
      assert false;
    }
  }

  /** Between an item's first frame and its end only its own frames are sent. */
  lemma {:induction false} ItemsDoNotInterleave(cfg: Config, a: History, b: History)
    requires Good(cfg, b) && Extends(a, b) && After(a).playing.Some? && Resets(a) == Resets(b)
    requires FinishedCount(a) == FinishedCount(b)
    ensures After(b).playing == After(a).playing && After(a).played <= After(b).played
    ensures b != a && b.entry.Sent? ==> b.entry.id == After(a).playing.value && !b.entry.first
    decreases b
  {
    if a != b {
      CountsGrow(a, b.before);
      FinishedGrow(a, b.before);
      ItemsDoNotInterleave(cfg, a, b.before);
    }
  }

  /** How many times `item` was finished. */
  ghost function Finishes(h: History, item: PlayItem): nat {
    match h case Start => 0 case Then(b, e) => Finishes(b, item) + if e.Finished? && e.done == item then 1 else 0
  }

  /** `b` is `a` with only frames, finished items and `Idle`s after it. */
  ghost predicate Sends(a: History, b: History) {
    a == b || (b.Then? && (b.entry.Sent? || b.entry.Finished? || b.entry.Idle?) && Sends(a, b.before))
  }

  lemma {:induction false} SendsTwice(a: History, b: History, c: History)
    requires Sends(a, b) && Sends(b, c)
    ensures Sends(a, c)
    decreases c
  {
    if b != c {
      SendsTwice(a, b, c.before);
    }
  }

  lemma {:induction false} SendsFinishes(a: History, b: History, item: PlayItem)
    requires Sends(a, b)
    ensures Finishes(a, item) <= Finishes(b, item)
    decreases b
  {
    if a != b {
      SendsFinishes(a, b.before, item);
    }
  }

  lemma {:induction false} SendsExtends(a: History, b: History)
    requires Sends(a, b)
    ensures Extends(a, b) && Resets(a) == Resets(b) && Ticks(a) == Ticks(b)
    decreases b
  {
    if a != b {
      SendsExtends(a, b.before);
    }
  }

  ghost function FinishedCount(h: History): nat {
    match h case Start => 0 case Then(b, e) => FinishedCount(b) + if e.Finished? then 1 else 0
  }

  lemma {:induction false} FinishedGrow(a: History, b: History)
    requires Extends(a, b)
    ensures FinishedCount(a) <= FinishedCount(b)
    decreases b
  {
    if a != b {
      FinishedGrow(a, b.before);
    }
  }

  // ---------------------------------------------------------------------------------------
  // The machine
  // ---------------------------------------------------------------------------------------

  datatype Wake = Enqueue(item: PlayItem) | Cancel | CancelSoft(protectMs: nat) | Data | Tick

  /** What the queue is known to hold, in ms: clips count and streams do not. */
  function QueuedMs(queue: seq<PlayItem>): nat {
    if queue == [] then 0
    else (if queue[0].source.Clip? then |queue[0].source.clip| / BYTES_PER_MS else 0) + QueuedMs(queue[1..])
  }

  function QueuedIds(queue: seq<PlayItem>): (r: seq<nat>)
    ensures |r| == |queue|
  {
    if queue == [] then [] else [queue[0].id] + QueuedIds(queue[1..])
  }

  function CurrentIds(current: Option<Active>): seq<nat> {
    if current.Some? then [current.value.item.id] else []
  }

  /** Every id enqueued and not settled is the current item or in the queue, as often as it should be. */
  ghost predicate Accounted(h: History, queue: seq<PlayItem>, current: Option<Active>) {
    forall id: nat :: Balance(h, id) == Count(CurrentIds(current), id) + Count(QueuedIds(queue), id)
  }

  lemma {:induction false} CountAppend(a: seq<nat>, b: seq<nat>, id: nat)
    ensures Count(a + b, id) == Count(a, id) + Count(b, id)
  {
    if a == [] {
      assert a + b == b;
    } else {
      assert (a + b)[1..] == a[1..] + b;
      CountAppend(a[1..], b, id);
    }
  }

  lemma {:induction false} QueuedIdsAppend(queue: seq<PlayItem>, item: PlayItem)
    ensures QueuedIds(queue + [item]) == QueuedIds(queue) + [item.id]
  {
    if queue != [] {
      assert (queue + [item])[1..] == queue[1..] + [item];
      QueuedIdsAppend(queue[1..], item);
    }
  }

  lemma AccountedEnqueue(h: History, queue: seq<PlayItem>, current: Option<Active>, item: PlayItem)
    requires Accounted(h, queue, current)
    ensures Accounted(Then(h, Enqueued(item)), queue + [item], current)
  {
    forall id: nat ensures Balance(Then(h, Enqueued(item)), id) ==
        Count(CurrentIds(current), id) + Count(QueuedIds(queue + [item]), id) {
      assert Balance(h, id) == Count(CurrentIds(current), id) + Count(QueuedIds(queue), id);
      QueuedIdsAppend(queue, item);
      CountAppend(QueuedIds(queue), [item.id], id);
      CountOne(item.id, id);
    }
  }

  lemma CountOne(one: nat, id: nat)
    ensures Count([one], id) == if one == id then 1 else 0
  {
  }

  lemma AccountedNext(h: History, queue: seq<PlayItem>, current: Option<Active>)
    requires queue != [] && Accounted(h, queue, None) && current.Some? && current.value.item == queue[0]
    ensures Accounted(h, queue[1..], current)
  {
    forall id: nat ensures Balance(h, id) == Count(CurrentIds(current), id) + Count(QueuedIds(queue[1..]), id) {
      CountOne(queue[0].id, id);
      assert Balance(h, id) == Count(CurrentIds(None), id) + Count(QueuedIds(queue), id);
    }
  }

  lemma AccountedFinish(h: History, queue: seq<PlayItem>, current: Option<Active>, whole: seq<Byte>)
    requires Accounted(h, queue, current) && current.Some?
    ensures Accounted(Then(h, Finished(current.value.item, whole)), queue, None)
  {
    var g := Then(h, Finished(current.value.item, whole));
    forall id: nat ensures Balance(g, id) == Count(CurrentIds(None), id) + Count(QueuedIds(queue), id) {
      CountOne(current.value.item.id, id);
      assert Balance(h, id) == Count(CurrentIds(current), id) + Count(QueuedIds(queue), id);
    }
  }

  /** A history and the cancelling of `ids`, when there are any. */
  ghost function Cancelling(h: History, ids: seq<nat>, ms: nat): History {
    if ids == [] then h else Then(h, Cancelled(ids, ms))
  }

  lemma AccountedCancel(h: History, queue: seq<PlayItem>, current: Option<Active>, ms: nat)
    requires Accounted(h, queue, current)
    ensures Accounted(Cancelling(h, QueuedIds(queue), ms), [], current)
    ensures Accounted(Cancelling(h, CurrentIds(current) + QueuedIds(queue), ms), [], None)
  {
    var some, all := QueuedIds(queue), CurrentIds(current) + QueuedIds(queue);
    forall id: nat ensures Balance(Cancelling(h, some, ms), id) == Count(CurrentIds(current), id)
      && Balance(Cancelling(h, all, ms), id) == 0 {
      assert Balance(h, id) == Count(CurrentIds(current), id) + Count(some, id);
      CountAppend(CurrentIds(current), some, id);
    }
  }

  lemma AccountedReset(h: History, queue: seq<PlayItem>, current: Option<Active>, clear: bool)
    requires Accounted(h, queue, current)
    ensures Accounted(Then(h, Reset(clear)), queue, current)
  {
  }

  lemma AppendSent(cfg: Config, h: History, id: nat, frame: seq<Byte>, at: nat, first: bool)
    requires Good(cfg, h) && Ahead(h) < cfg.lead && |frame| == FRAME_BYTES
    requires After(h).playing == (if first then None else Some(id))
    ensures var g := Then(h, Sent(id, frame, at, first, GapOf(End(h), at)));
      && Good(cfg, g) && Ahead(g) == Ahead(h) + 1 && End(g) == Some(Later(End(h), at) + FRAME_TIME) && !Quiet(g)
      && After(g) == Snapshot(Some(id), if first then frame else After(h).played + frame)
  {
  }

  lemma AppendFinished(cfg: Config, h: History, item: PlayItem, whole: seq<Byte>)
    requires Good(cfg, h) && Allowed(cfg, h, Finished(item, whole))
    ensures var g := Then(h, Finished(item, whole));
      && Good(cfg, g) && Ahead(g) == Ahead(h) && End(g) == End(h) && Quiet(g) == Quiet(h)
      && After(g) == After(h).(playing := None)
  {
  }

  /** Entries that change nothing but the accounts. */
  lemma AppendNote(cfg: Config, h: History, e: Entry)
    requires Good(cfg, h) && (e.Protected? || e.Cancelled? || e.Enqueued?)
    ensures var g := Then(h, e);
      Good(cfg, g) && Ahead(g) == Ahead(h) && End(g) == End(h) && Quiet(g) == Quiet(h) && After(g) == After(h)
  {
  }

  lemma AppendReset(cfg: Config, h: History, clear: bool)
    requires Good(cfg, h)
    ensures var g := Then(h, Reset(clear));
      Good(cfg, g) && Ahead(g) == 0 && End(g) == None && Quiet(g) == Quiet(h) && After(g) == After(h).(playing := None)
  {
  }

  lemma AppendIdle(cfg: Config, h: History)
    requires Good(cfg, h) && Allowed(cfg, h, Idle)
    ensures var g := Then(h, Idle);
      Good(cfg, g) && Ahead(g) == 0 && End(g) == End(h) && Quiet(g) && After(g) == After(h)
  {
  }

  /** The current item agrees with what was sent of it. */
  ghost predicate InStep(cfg: Config, s: Snapshot, current: Option<Active>) {
    match current
    case None => s.playing == None
    case Some(a) =>
      && a.Valid() && a.trim == cfg.trim && (a.started <==> a.sent != [])
      && s.playing == (if a.started then Some(a.item.id) else None)
      && (a.started ==> s.played == Padded(a.sent))
      && (Contiguous(cfg) ==> a.HeadFirst())
  }

  /** What is left to hear of an item, and of the frames in flight, in ms. */
  function Outstanding(a: Active, ahead: nat): nat
    requires a.Valid()
  {
    a.Left() / BYTES_PER_MS + FRAME_MS * ahead
  }

  /** And when there may be no item. */
  function LeftToHear(a: Option<Active>, ahead: nat): nat
    requires a.Some? ==> a.value.Valid()
  {
    if a.Some? then Outstanding(a.value, ahead) else FRAME_MS * ahead
  }

  /** The current item is let finish: the cancel is soft, all of the item is known, and little is left. */
  predicate KeepsIt(soft: Option<nat>, seen: Option<Active>, ahead: nat)
    requires seen.Some? ==> seen.value.Valid()
  {
    soft.Some? && (seen.Some? ==> seen.value.Exact()) && LeftToHear(seen, ahead) <= soft.value
  }

  lemma FinishedIsFaithful(cfg: Config, a: Active)
    requires a.Valid() && a.Done() && a.trim == cfg.trim && (Contiguous(cfg) ==> a.HeadFirst())
    ensures Faithful(cfg, a.item, a.Whole()) && a.Whole() == a.sent
  {
    if cfg.trim.None? {
      DoneIsWhole(a);
    }
    DoneIsSent(a);
    if Contiguous(cfg) {
      SentIsASlice(a);
    }
  }

  /** After a frame taken from it, the item agrees with what was sent of it. */
  lemma SentInStep(cfg: Config, h: History, a: Active, r: Active, frame: seq<Byte>, at: nat, gap: nat)
    requires InStep(cfg, After(h), Some(a)) && r.Valid() && Took(a, r, frame) && (Contiguous(cfg) ==> r.(started := true).HeadFirst())
    ensures InStep(cfg, After(Then(h, Sent(r.item.id, frame, at, !r.started, gap))), Some(r.(started := true)))
  {
    assert !a.started ==> Padded(a.sent) == [] && [] + frame == frame;
  }

  class Player {
    const cfg: Config
    var queue: seq<PlayItem>
    var current: Option<Active>
    var ahead: nat
    var idleReported: bool
    var playEnd: Option<nat>
    var protectedId: Option<nat>
    var clock: nat
    ghost var history: History

    ghost predicate Valid()
      reads this
    {
      && cfg.lead >= 1
      && Good(cfg, history)
      && ahead == Ahead(history)
      && playEnd == End(history)
      && idleReported == Quiet(history)
      && InStep(cfg, After(history), current)
      && Accounted(history, queue, current)
    }

    constructor (c: Config)
      ensures Valid() && history == Start && queue == [] && current == None
      ensures cfg == c.(lead := Max(c.lead, 1))
    {
      cfg := c.(lead := Max(c.lead, 1));
      queue, current, ahead, idleReported := [], None, 0, true;
      playEnd, protectedId, clock := None, None, 0;
      history := Start;
    }

    /** The current item is over. */
    method FinishCurrent()
      requires Valid() && current.Some? && current.value.Done()
      modifies this`current, this`history
      ensures Valid() && current == None
      ensures history == Then(old(history), Finished(old(current).value.item, old(current).value.Whole()))
      ensures Faithful(cfg, old(current).value.item, old(current).value.Whole())
    {
      ghost var item, whole := current.value.item, current.value.Whole();
      FinishedIsFaithful(cfg, current.value);
      AppendFinished(cfg, history, item, whole);
      AccountedFinish(history, queue, current, whole);
      history := Then(history, Finished(item, whole));
      current := None;
    }

    /** The next item of the queue becomes the current one. */
    method NextItem()
      requires Valid() && current == None && queue != []
      modifies this`current, this`queue
      ensures Valid() && current.Some? && queue == old(queue)[1..]
      ensures current.value.item == old(queue)[0] && !current.value.started
    {
      current := Some(Activate(queue[0], cfg, !idleReported));
      AccountedNext(history, queue, current);
      queue := queue[1..];
    }

    /** The current item sends a frame if it has one now. */
    method SendFrame() returns (sentOne: bool)
      requires Valid() && current.Some? && ahead < cfg.lead
      modifies this`current, this`ahead, this`playEnd, this`idleReported, this`clock, this`history
      ensures Valid() && current.Some?
      ensures !sentOne ==> history == old(history) && ahead == old(ahead)
      ensures sentOne ==> ahead == old(ahead) + 1 && history.Then? && history.entry.Sent? && history.before == old(history)
      ensures Sends(old(history), history)
      ensures current.value.item == old(current).value.item
      ensures old(current).value.Exact() ==> current.value.Exact() && (sentOne <==> !old(current).value.Done())
      ensures old(current).value.Exact() ==>
        current.value.Done() || current.value.Left() + FRAME_BYTES <= old(current).value.Left()
    {
      var active, frame := NextFrame(current.value);
      if frame.None? {
        current := Some(active);
        return false;
      }
      Record(active, frame.value);
      return true;
    }

    /** A frame just taken from the current item, now `active`, goes out. */
    method Record(active: Active, frame: seq<Byte>)
      requires Valid() && current.Some? && ahead < cfg.lead
      requires active.Valid() && Took(current.value, active, frame)
      requires Contiguous(cfg) ==> active.(started := true).HeadFirst()
      modifies this`current, this`ahead, this`playEnd, this`idleReported, this`clock, this`history
      ensures Valid() && current == Some(active.(started := true)) && ahead == old(ahead) + 1
      ensures history.Then? && history.entry.Sent? && history.before == old(history)
    {
      var now: nat :| now >= clock;
      clock := now;
      var first := !active.started;
      AppendSent(cfg, history, active.item.id, frame, now, first);
      SentInStep(cfg, history, current.value, active, frame, now, GapOf(playEnd, now));
      current := Some(active.(started := true));
      history := Then(history, Sent(active.item.id, frame, now, first, GapOf(playEnd, now)));
      playEnd := Some(Later(playEnd, now) + FRAME_TIME);
      ahead := ahead + 1;
      idleReported := false;
    }

    /** The item `a`, all of which is known, has been finished more than `n` times, or is still the
        current one: all sent, or with at most `ms` left to hear and `left` bytes left to send. */
    ghost predicate Carried(a: PlayItem, n: nat, ms: int, left: int)
      requires Valid()
      reads this
    {
      || n < Finishes(history, a)
      || (&& n == Finishes(history, a) && current.Some? && current.value.item == a && current.value.Exact()
          && (current.value.Done() || (Outstanding(current.value, ahead) <= ms && current.value.Left() <= left)))
    }

    /** An item that is over leaves. */
    method Retire(ghost a: PlayItem, ghost n: nat)
      requires Valid() && (current == None || current.value.Done())
      modifies this`current, this`history
      ensures Valid() && current == None && Sends(old(history), history)
      ensures n < Finishes(old(history), a) || (n == Finishes(old(history), a) && old(current).Some? && old(current).value.item == a) ==>
        n < Finishes(history, a)
    {
      if current.Some? {
        FinishCurrent();
      }
    }

    /** The current item sends a frame if it can; whether the loop goes on after it. */
    method Attempt(ghost a: PlayItem, ghost n: nat, ghost ms: int, ghost left: int) returns (again: bool)
      requires Valid() && current.Some? && ahead < cfg.lead
      modifies this`current, this`ahead, this`playEnd, this`idleReported, this`clock, this`history
      ensures Valid() && current.Some? && Sends(old(history), history)
      ensures n < Finishes(old(history), a) ==> n < Finishes(history, a)
      ensures !old(current).value.Done() && old(Carried(a, n, ms, left)) ==> Carried(a, n, ms, left - FRAME_BYTES)
      ensures ahead == old(ahead) || ahead == old(ahead) + 1
      ensures again && ahead == old(ahead) ==> current.value.Done()
    {
      var sentOne := SendFrame();
      SendsFinishes(old(history), history, a);
      again := sentOne || current.value.Done();
    }

    /** What the send loop can still do without sending a frame. */
    ghost function Unserved(): nat
      reads this
    {
      2 * |queue| + if current.Some? && !current.value.Done() then 1 else 0
    }

    /** One turn of the send loop. */
    method Round(ghost a: PlayItem, ghost n: nat, ghost ms: int, ghost left: int) returns (again: bool)
      requires Valid() && ahead < cfg.lead
      modifies this
      ensures Valid() && Sends(old(history), history)
      ensures old(Carried(a, n, ms, left)) ==> Carried(a, n, ms, left - FRAME_BYTES)
      ensures again && ahead == old(ahead) ==> Unserved() < old(Unserved())
      ensures ahead == old(ahead) || ahead == old(ahead) + 1
      ensures !again && current == None ==> queue == []
    {
      if current == None || current.value.Done() {
        Retire(a, n);
        if queue == [] {
          return false;
        }
        NextItem();
      }
      ghost var h := history;
      again := Attempt(a, n, ms, left);
      SendsTwice(old(history), h, history);
    }

    /** Frames go out until the lead is reached or no item can give one. */
    method SendAhead(ghost a: PlayItem, ghost n: nat, ghost ms: int, ghost left: int)
      requires Valid()
      modifies this
      ensures Valid() && Sends(old(history), history)
      ensures old(Carried(a, n, ms, left)) ==> Carried(a, n, ms, if old(ahead) < cfg.lead then left - FRAME_BYTES else left)
      ensures ahead < cfg.lead && current == None ==> queue == []
    {
      AheadWithinLead(cfg, history);
      var again := true;
      ghost var rounds := 0;
      while again && ahead < cfg.lead
        invariant Valid() && Sends(old(history), history)
        invariant old(Carried(a, n, ms, left)) ==> Carried(a, n, ms, left - FRAME_BYTES * rounds)
        invariant old(ahead) <= ahead <= cfg.lead && rounds >= 0 && (rounds == 0 ==> ahead == old(ahead) && again)
        invariant !again && current == None ==> queue == []
        decreases again, cfg.lead - ahead, Unserved()
      {
        ghost var h := history;
        again := Round(a, n, ms, left - FRAME_BYTES * rounds);
        SendsTwice(old(history), h, history);
        rounds := rounds + 1;
      }
    }

    /** The item `a`, all of which is known, has been finished more than `n` times, or is still
        playing with at most `ms` left to hear and `left` bytes left to send. */
    ghost predicate Held(a: PlayItem, n: nat, ms: int, left: int)
      requires Valid()
      reads this
    {
      || n < Finishes(history, a)
      || (&& n == Finishes(history, a) && current.Some? && current.value.item == a && current.value.Exact()
          && !current.value.Done() && Outstanding(current.value, ahead) <= ms && current.value.Left() <= left)
    }

    /** One `Idle` for each time that no item and no unpaid frame is left. */
    method ReportIdle()
      requires Valid()
      modifies this`idleReported, this`history
      ensures Valid()
      ensures history == if current == None && queue == [] && ahead == 0 && !old(idleReported)
                         then Then(old(history), Idle) else old(history)
    {
      if current == None && queue == [] && ahead == 0 && !idleReported {
        assert forall id: nat :: Balance(history, id) == Count(CurrentIds(current), id) + Count(QueuedIds(queue), id);
        AppendIdle(cfg, history);
        idleReported := true;
        history := Then(history, Idle);
      }
    }

    /** An item all sent is over. */
    method Conclude(ghost a: PlayItem, ghost n: nat, ghost ms: int, ghost left: int)
      requires Valid()
      modifies this`current, this`history, this`protectedId
      ensures Valid() && Sends(old(history), history)
      ensures old(Carried(a, n, ms, left)) ==> Held(a, n, ms, left)
    {
      if current.Some? && current.value.Done() {
        FinishCurrent();
      }
      if current == None {
        protectedId := None;
      }
    }

    /** What the loop does before it waits: send, settle what is over, report idleness. */
    method Send(ghost a: PlayItem, ghost n: nat, ghost ms: int, ghost left: int)
      requires Valid()
      modifies this
      ensures Valid() && Sends(old(history), history)
      ensures old(Carried(a, n, ms, left)) ==> Held(a, n, ms, if old(ahead) < cfg.lead then left - FRAME_BYTES else left)
    {
      SendAhead(a, n, ms, left);
      ghost var h := history;
      Conclude(a, n, ms, if old(ahead) < cfg.lead then left - FRAME_BYTES else left);
      SendsTwice(old(history), h, history);
      ReportIdle();
    }

    method OnEnqueue(item: PlayItem)
      requires Valid()
      modifies this`queue, this`history
      ensures Valid() && queue == old(queue) + [item] && history == Then(old(history), Enqueued(item))
    {
      AppendNote(cfg, history, Enqueued(item));
      AccountedEnqueue(history, queue, current, item);
      queue := queue + [item];
      history := Then(history, Enqueued(item));
    }

    method OnTick()
      requires Valid()
      modifies this`ahead, this`history
      ensures Valid() && history == Then(old(history), Ticked) && ahead == if old(ahead) == 0 then 0 else old(ahead) - 1
    {
      ahead := if ahead == 0 then 0 else ahead - 1;
      history := Then(history, Ticked);
    }

    /** The channel of the current item is looked at only while the item waits for it. */
    method OnData()
      requires Valid()
      modifies this`current
      ensures Valid() && (old(current).Some? && old(current).value.Exact() ==> current == old(current))
      ensures current != old(current) ==>
        && old(current).Some? && current.Some? && current.value.From(old(current).value)
        && current.value.consumed == old(current).value.consumed + 1
    {
      if current.Some? && current.value.WaitingOnStream() && ahead < cfg.lead
        && current.value.consumed < |current.value.source.channel|
      {
        current := Some(WaitForData(current.value));
      }
    }

    /** What is queued is dropped. */
    method CancelQueued(queuedMs: nat)
      requires Valid()
      modifies this`queue, this`history
      ensures Valid() && queue == [] && history == Cancelling(old(history), QueuedIds(old(queue)), queuedMs)
    {
      var ids := QueuedIds(queue);
      AppendNote(cfg, history, Cancelled(ids, queuedMs));
      AccountedCancel(history, queue, current, queuedMs);
      if ids != [] {
        history := Then(history, Cancelled(ids, queuedMs));
      }
      queue := [];
    }

    /** A soft cancel that lets the current item finish drops only what is queued after it. */
    method KeepCurrent(keptMs: nat, queuedMs: nat, ghost a: PlayItem)
      requires Valid()
      modifies this`queue, this`history, this`protectedId
      ensures Valid() && queue == [] && Finishes(history, a) == Finishes(old(history), a) && Resets(history) == Resets(old(history))
      ensures var protects := current.Some? && old(protectedId) != Some(current.value.item.id);
        var kept := if protects then Then(old(history), Protected(current.value.item.id, keptMs)) else old(history);
        history == Cancelling(kept, QueuedIds(old(queue)), queuedMs)
    {
      if current.Some? && protectedId != Some(current.value.item.id) {
        AppendNote(cfg, history, Protected(current.value.item.id, keptMs));
        protectedId := Some(current.value.item.id);
        history := Then(history, Protected(current.value.item.id, keptMs));
      }
      ghost var kept := history;
      CancelQueued(queuedMs);
      assert Finishes(history, a) == Finishes(kept, a) && Resets(history) == Resets(kept);
    }

    /** A hard cancel drops everything. */
    method DropAll(remainingMs: nat, ghost a: PlayItem)
      requires Valid()
      modifies this
      ensures Valid() && queue == [] && current == None && ahead == 0 && Resets(history) == Resets(old(history)) + 1
      ensures Finishes(history, a) == Finishes(old(history), a)
      ensures var ids := CurrentIds(old(current)) + QueuedIds(old(queue));
        var dropped := Cancelling(Then(old(history), Reset(old(ahead) > 0 || ids != [])), ids, remainingMs);
        history == if old(idleReported) then dropped else Then(dropped, Idle)
    {
      var ids := CurrentIds(current) + QueuedIds(queue);
      ghost var reset := Then(history, Reset(ahead > 0 || ids != []));
      AppendReset(cfg, history, ahead > 0 || ids != []);
      AppendNote(cfg, reset, Cancelled(ids, remainingMs));
      AccountedReset(history, queue, current, ahead > 0 || ids != []);
      AccountedCancel(reset, queue, current, remainingMs);
      current, queue, ahead, playEnd, protectedId := None, [], 0, None, None;
      history := Cancelling(reset, ids, remainingMs);
      assert Resets(history) == Resets(reset) && Finishes(history, a) == Finishes(reset, a);
      ReportIdle();
    }

    /** How much of the current item is left, in ms, and whether that is all of it. */
    method LookAtCurrent() returns (left: nat, exact: bool)
      requires Valid()
      modifies this`current
      ensures Valid() && (current.Some? <==> old(current).Some?)
      ensures current.None? ==> left == 0 && exact
      ensures current.Some? ==>
        && current.value.From(old(current).value)
        && left == current.value.Left() / BYTES_PER_MS && exact == current.value.Exact()
        && (old(current).value.Exact() ==> exact && current.value.Left() == old(current).value.Left())
    {
      left, exact := 0, true;
      if current.Some? {
        var active, bytes, all := Remaining(current.value);
        current := Some(active);
        left, exact := bytes / BYTES_PER_MS, all;
      }
    }

    /** What a soft cancel that keeps the current item leaves on record. */
    ghost function KeptHistory(h: History, seen: Option<Active>, queue: seq<PlayItem>, ahead: nat, protectedId: Option<nat>): History
      requires seen.Some? ==> seen.value.Valid()
    {
      var ms := LeftToHear(seen, ahead);
      var protects := seen.Some? && protectedId != Some(seen.value.item.id);
      Cancelling(if protects then Then(h, Protected(seen.value.item.id, ms)) else h, QueuedIds(queue), QueuedMs(queue))
    }

    /** And a cancel that drops everything. */
    ghost function DroppedHistory(h: History, seen: Option<Active>, queue: seq<PlayItem>, ahead: nat, idle: bool): History
      requires seen.Some? ==> seen.value.Valid()
    {
      var ms := LeftToHear(seen, ahead) + QueuedMs(queue);
      var ids := CurrentIds(seen) + QueuedIds(queue);
      var dropped := Cancelling(Then(h, Reset(ahead > 0 || ids != [])), ids, ms);
      if idle then dropped else Then(dropped, Idle)
    }

    /** A cancel, once it is known how much of the current item is left. */
    method CancelNow(soft: Option<nat>, left: nat, exact: bool, ghost a: PlayItem)
      requires Valid() && left + ahead * FRAME_MS == LeftToHear(current, ahead)
      requires exact == (current.Some? ==> current.value.Exact())
      modifies this
      ensures Valid() && queue == [] && Finishes(history, a) == Finishes(old(history), a)
      ensures old(KeepsIt(soft, current, ahead)) ==>
        && current == old(current) && ahead == old(ahead) && Resets(history) == Resets(old(history))
        && history == KeptHistory(old(history), old(current), old(queue), old(ahead), old(protectedId))
      ensures !old(KeepsIt(soft, current, ahead)) ==>
        && current == None && ahead == 0 && Resets(history) == Resets(old(history)) + 1
        && history == DroppedHistory(old(history), old(current), old(queue), old(ahead), old(idleReported))
    {
      var inFlight, queued := ahead * FRAME_MS, QueuedMs(queue);
      if soft.Some? && exact && left + inFlight <= soft.value {
        KeepCurrent(left + inFlight, queued, a);
      } else {
        DropAll(left + inFlight + queued, a);
      }
    }

    /**
      A cancel. The current item, as it is once its channel was emptied (`seen`), is let finish
      exactly when the cancel is soft, all of it is known, and little enough of it is left.
    */
    method OnCancel(soft: Option<nat>, ghost a: PlayItem) returns (ghost seen: Option<Active>)
      requires Valid()
      modifies this
      ensures Valid() && queue == [] && Finishes(history, a) == Finishes(old(history), a)
      ensures (seen.Some? <==> old(current).Some?) && (seen.Some? ==> seen.value.From(old(current).value))
      ensures old(current).Some? && old(current).value.Exact() ==>
        seen.value.Exact() && seen.value.Left() == old(current).value.Left()
      ensures KeepsIt(soft, seen, old(ahead)) ==>
        && current == seen && ahead == old(ahead) && Resets(history) == Resets(old(history))
        && history == KeptHistory(old(history), seen, old(queue), old(ahead), old(protectedId))
      ensures !KeepsIt(soft, seen, old(ahead)) ==>
        && current == None && ahead == 0 && Resets(history) == Resets(old(history)) + 1
        && history == DroppedHistory(old(history), seen, old(queue), old(ahead), old(idleReported))
    {
      var left, exact := LookAtCurrent();
      seen := current;
      CancelNow(soft, left, exact, a);
    }

    /** One wake-up of the loop, and what the loop does after it. */
    method Handle(w: Wake, ghost a: PlayItem, ghost n: nat, ghost ms: int, ghost left: int)
      requires Valid()
      modifies this
      ensures Valid()
      ensures !w.Cancel? && (w.CancelSoft? ==> ms <= w.protectMs) && old(Held(a, n, ms, left)) ==>
        Held(a, n, ms, if w.Tick? then left - FRAME_BYTES else left)
    {
      AheadWithinLead(cfg, history);
      match w
      case Enqueue(item) => OnEnqueue(item);
      case Cancel =>
        ghost var seen := OnCancel(None, a);
      case CancelSoft(protectMs) =>
        ghost var seen := OnCancel(Some(protectMs), a);
      case Data => OnData();
      case Tick => OnTick();
      Send(a, n, ms, left);
    }
  }

  /** At any moment, what was sent of the current item is the start of its bytes, in order, with
      silence only after the last of them: untrimmed, of its clip or of what its channel delivers;
      trimmed, one piece of that. */
  lemma SentSoFar(p: Player)
    requires p.Valid() && p.current.Some? && p.current.value.started
    ensures var a, sent := p.current.value, After(p.history);
      && sent.playing == Some(a.item.id) && sent.played == Padded(a.sent) && a.sent <= a.Whole()
      && (p.cfg.trim.None? ==> a.sent <= Content(a.item))
      && (Contiguous(p.cfg) ==> IsSlice(a.sent, Content(a.item)))
      && (!a.Done() ==> sent.played == a.sent)
  {
    var a := p.current.value;
    if !a.Done() {
      WholeFrames(a.sent, a.frames);
    }
    if p.cfg.trim.None? {
      SentIsAStart(a);
    }
    if Contiguous(p.cfg) {
      SentIsASlice(a);
    }
  }

  /** Whole frames need no filling up. */
  lemma {:induction false} WholeFrames(bytes: seq<Byte>, frames: nat)
    requires |bytes| == frames * FRAME_BYTES
    ensures Padded(bytes) == bytes
  {
    var n := PaddedIs(bytes);
    assert n == frames;
  }

  /** A playout driven by any wake-ups, in any order: what it sent and heard is a good history. */
  method Run(cfg: Config, wakes: seq<Wake>) returns (p: Player)
    ensures fresh(p) && p.Valid() && p.cfg == cfg.(lead := Max(cfg.lead, 1)) && Good(p.cfg, p.history)
  {
    p := new Player(cfg);
    ghost var none := PlayItem(0, Stream([]));
    p.Send(none, 0, 0, 0);
    for i := 0 to |wakes|
      invariant fresh(p) && p.Valid() && p.cfg == cfg.(lead := Max(cfg.lead, 1))
    {
      p.Handle(wakes[i], none, 0, 0, 0);
    }
  }

  ghost function TickCount(wakes: seq<Wake>): nat {
    if wakes == [] then 0 else TickCount(wakes[..|wakes| - 1]) + if wakes[|wakes| - 1].Tick? then 1 else 0
  }

  /** An item that a soft cancel with `ms` lets finish is never cut by later soft cancels that
      allow at least as much, and is finished once enough ticks have passed for its frames. */
  method LetFinish(p: Player, wakes: seq<Wake>, ghost ms: nat)
    requires p.Valid() && p.current.Some? && p.current.value.Exact() && !p.current.value.Done()
    requires Outstanding(p.current.value, p.ahead) <= ms
    requires forall w <- wakes :: !w.Cancel? && (w.CancelSoft? ==> ms <= w.protectMs)
    modifies p
    ensures p.Valid()
    ensures var item, finishes := old(p.current).value.item, Finishes(old(p.history), old(p.current).value.item);
      && p.Held(item, finishes, ms, old(p.current).value.Left())
      && (FRAME_BYTES * TickCount(wakes) >= old(p.current).value.Left() ==> finishes < Finishes(p.history, item))
  {
    ghost var item, left := p.current.value.item, p.current.value.Left();
    ghost var n := Finishes(p.history, item);
    for i := 0 to |wakes|
      invariant p.Valid() && p.Held(item, n, ms, left - FRAME_BYTES * TickCount(wakes[..i]))
    {
      assert wakes[..i + 1][..i] == wakes[..i];
      p.Handle(wakes[i], item, n, ms, left - FRAME_BYTES * TickCount(wakes[..i]));
    }
    assert wakes[..|wakes|] == wakes;
  }
}
