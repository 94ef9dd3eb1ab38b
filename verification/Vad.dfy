/**
  When the caller starts to speak and when the caller stops, one frame at a time.

  `Step` says what one frame does to the detector; the class `Detector` does it in place. The
  theorems are about runs of any length: when speech starts, when it ends, that starts and
  ends take turns, and that a steady sound starts speech at most once.
*/
module Vad {
  import opened Options
  import opened Audio

  datatype Config = Config(
    thresholdRms: real,
    triggerMs: nat,
    endpointMs: nat,
    maxSpeechMs: nat,
    noiseFloorRatio: real,
    voiceStart: Option<real>,
    voiceHold: real)

  datatype Event = SpeechStarted | SpeechEnded

  /** One inbound frame: its length in bytes, its level, and the network's guess at a voice in it. */
  datatype Frame = Frame(bytes: nat, rms: real, voice: Option<real>) {
    function Ms(): nat {
      bytes * 1000 / 8000
    }
  }

  /** The loudest sample there is. */
  const PEAK: int := 32124

  function Power(exponent: nat): nat
    requires exponent < 8
  {
    [1, 2, 4, 8, 16, 32, 64, 128][exponent]
  }

  function Magnitude(mantissa: nat, exponent: nat): int
    requires exponent < 8
  {
    (8 * mantissa + 132) * Power(exponent) - 132
  }

  /** One byte of mu-law as a sample. */
  function Sample(b: Byte): int {
    var value: nat := 255 - b;
    var magnitude := Magnitude(value % 16, value / 16 % 8);
    if value >= 128 then -magnitude else magnitude
  }

  function Square(x: int): int {
    x * x
  }

  function Squares(audio: seq<Byte>): int {
    if audio == [] then 0 else Square(Sample(audio[0])) + Squares(audio[1..])
  }

  /** The squares of `n` samples of that level. */
  function Energy(level: real, n: nat): real {
    level * level * n as real
  }

  /** The root of the mean of the squares; nothing at all has no level. */
  ghost predicate IsLevel(audio: seq<Byte>, level: real) {
    if audio == [] then level == 0.0 else level >= 0.0 && Energy(level, |audio|) == Squares(audio) as real
  }

  /** Some audio makes the frame. */
  ghost predicate Genuine(f: Frame) {
    exists audio: seq<Byte> :: |audio| == f.bytes && IsLevel(audio, f.rms)
  }

  datatype State = State(
    speechMs: nat,
    silenceMs: nat,
    speaking: bool,
    lastRms: real,
    threshold: real,
    speakingMs: nat,
    loudness: real,
    peak: real,
    endpointMs: nat,
    floor: real)

  function Initial(cfg: Config): State {
    State(0, 0, false, 0.0, cfg.thresholdRms, 0, 0.0, 0.0, cfg.endpointMs, 300.0)
  }

  function MaxReal(x: real, y: real): real {
    if x < y then y else x
  }

  function Min(x: nat, y: nat): nat {
    if x < y then x else y
  }

  /** A multiple of the background. */
  function Times(floor: real, ratio: real): real {
    floor * ratio
  }

  /** A frame is loud from here on: the threshold, or a multiple of the background if that is more. */
  function Threshold(cfg: Config, s: State): real {
    if cfg.noiseFloorRatio > 0.0 then MaxReal(s.threshold, Times(s.floor, cfg.noiseFloorRatio)) else s.threshold
  }

  function Floor(s: State, rms: real): real {
    if rms < s.floor then 0.9 * s.floor + 0.1 * rms else 0.995 * s.floor + 0.005 * rms
  }

  predicate Voiced(cfg: Config, s: State, f: Frame) {
    cfg.voiceStart.Some? && f.voice.Some? ==>
      f.voice.value >= if s.speaking then cfg.voiceHold else cfg.voiceStart.value
  }

  predicate Loud(cfg: Config, s: State, f: Frame) {
    f.rms >= Threshold(cfg, s) && Voiced(cfg, s, f)
  }

  /** The counters after the frame is heard, before anything is decided. */
  function Heard(cfg: Config, s: State, f: Frame): State {
    var s' := s.(lastRms := f.rms, floor := Floor(s, f.rms));
    if Loud(cfg, s, f) then s'.(speechMs := Min(s.speechMs + f.Ms(), 2 * cfg.triggerMs), silenceMs := 0)
    else s'.(speechMs := if s.speechMs < 2 * f.Ms() then 0 else s.speechMs - 2 * f.Ms(), silenceMs := s.silenceMs + f.Ms())
  }

  /** The mean level of the utterance, when it has any length; the threshold goes above it. */
  function Raised(s: State): real {
    if s.speakingMs == 0 then s.threshold else MaxReal(s.threshold, s.loudness / s.speakingMs as real * 1.2)
  }

  /** The utterance with one more frame. */
  function Uttered(s: State, f: Frame): State {
    s.(speakingMs := s.speakingMs + f.Ms(), loudness := s.loudness + f.rms * f.Ms() as real, peak := MaxReal(s.peak, f.rms))
  }

  function Step(cfg: Config, s: State, f: Frame): (State, Option<Event>) {
    var h := Heard(cfg, s, f);
    if !h.speaking then
      if h.speechMs >= cfg.triggerMs then
        (h.(speaking := true, speakingMs := 0, loudness := 0.0, peak := 0.0), Some(SpeechStarted))
      else (h, None)
    else
      var u := Uttered(h, f);
      if u.speakingMs >= cfg.maxSpeechMs then
        (u.(threshold := Raised(u), speaking := false, speechMs := 0, silenceMs := 0), Some(SpeechEnded))
      else if u.silenceMs >= u.endpointMs then (u.(speaking := false, speechMs := 0), Some(SpeechEnded))
      else (u, None)
  }

  /** The state after a reset. */
  function Forgotten(s: State): State {
    s.(speechMs := 0, silenceMs := 0, speaking := false)
  }

  // ---------------------------------------------------------------------------------------
  // The detector
  // ---------------------------------------------------------------------------------------

  class Detector {
    const cfg: Config
    var speechMs: nat
    var silenceMs: nat
    var speaking: bool
    var lastRms: real
    /** Starts as configured and only goes up. */
    var threshold: real
    var speakingMs: nat
    var loudness: real
    var peak: real
    var endpointMs: nat
    /** Moves towards each frame's level, ten times as fast when that is lower. */
    var floor: real

    function Now(): State
      reads this
    {
      State(speechMs, silenceMs, speaking, lastRms, threshold, speakingMs, loudness, peak, endpointMs, floor)
    }

    constructor (c: Config)
      ensures cfg == c && Now() == Initial(c)
    {
      cfg := c;
      speechMs, silenceMs, speaking, lastRms := 0, 0, false, 0.0;
      threshold, speakingMs, loudness, peak := c.thresholdRms, 0, 0.0, 0.0;
      endpointMs, floor := c.endpointMs, 300.0;
    }

    /** How much quiet ends speech from now on, and no less than 60 ms (see `NoEarlyEnd`). */
    method SetEndpoint(ms: nat)
      modifies this
      ensures Now() == old(Now()).(endpointMs := endpointMs) && endpointMs >= 60 && (ms >= 60 ==> endpointMs == ms)
    {
      endpointMs := if ms < 60 then 60 else ms;
    }

    /** Forget what was heard, but for the levels (see `ResetForgets`). */
    method Reset()
      modifies this
      ensures Now() == Forgotten(old(Now()))
    {
      speechMs, silenceMs, speaking := 0, 0, false;
    }

    /** Count the frame as speech or as silence. */
    method Hear(f: Frame)
      modifies this
      ensures Now() == Heard(cfg, old(Now()), f)
    {
      var frameMs := f.Ms();
      var level := if cfg.noiseFloorRatio > 0.0 then MaxReal(threshold, Times(floor, cfg.noiseFloorRatio)) else threshold;
      lastRms := f.rms;
      floor := if lastRms < floor then 0.9 * floor + 0.1 * lastRms else 0.995 * floor + 0.005 * lastRms;
      var sure := if speaking then Some(cfg.voiceHold) else cfg.voiceStart;
      var voiced := if cfg.voiceStart.Some? && f.voice.Some? then f.voice.value >= sure.value else true;
      if lastRms >= level && voiced {
        speechMs := Min(speechMs + frameMs, 2 * cfg.triggerMs);
        silenceMs := 0;
      } else {
        speechMs := if speechMs < 2 * frameMs then 0 else speechMs - 2 * frameMs;
        silenceMs := silenceMs + frameMs;
      }
    }

    /** Feed one frame. */
    method Push(f: Frame) returns (event: Option<Event>)
      modifies this
      ensures (Now(), event) == Step(cfg, old(Now()), f)
    {
      Hear(f);
      if !speaking && speechMs >= cfg.triggerMs {
        speaking, speakingMs, loudness, peak := true, 0, 0.0, 0.0;
        return Some(SpeechStarted);
      }
      if speaking {
        speakingMs := speakingMs + f.Ms();
        loudness := loudness + f.rms * f.Ms() as real;
        peak := MaxReal(peak, f.rms);
        ghost var h := Heard(cfg, old(Now()), f);
        assert Now() == Uttered(h, f);
        if speakingMs >= cfg.maxSpeechMs {
          threshold := Raised(Now());
          speaking, speechMs, silenceMs := false, 0, 0;
          return Some(SpeechEnded);
        }
      }
      if speaking && silenceMs >= endpointMs {
        speaking, speechMs := false, 0;
        return Some(SpeechEnded);
      }
      return None;
    }
  }

  // ---------------------------------------------------------------------------------------
  // Runs
  // ---------------------------------------------------------------------------------------

  function Last<T>(s: seq<T>): T
    requires s != []
  {
    s[|s| - 1]
  }

  function Front<T>(s: seq<T>): seq<T>
    requires s != []
  {
    s[..|s| - 1]
  }

  /** The state after the frames. */
  function After(cfg: Config, s: State, frames: seq<Frame>): State {
    if frames == [] then s else Step(cfg, After(cfg, s, Front(frames)), Last(frames)).0
  }

  /** What the last frame gave. */
  function EventOf(cfg: Config, s: State, frames: seq<Frame>): Option<Event>
    requires frames != []
  {
    Step(cfg, After(cfg, s, Front(frames)), Last(frames)).1
  }

  /** Everything the frames gave. */
  function Events(cfg: Config, s: State, frames: seq<Frame>): seq<Event> {
    if frames == [] then []
    else Events(cfg, s, Front(frames)) + var e := EventOf(cfg, s, frames); if e.Some? then [e.value] else []
  }

  /** A frame as the detector took it. */
  datatype Beat = Beat(ms: nat, loud: bool)

  function Beats(cfg: Config, s: State, frames: seq<Frame>): (r: seq<Beat>)
    ensures |r| == |frames|
  {
    if frames == [] then []
    else Beats(cfg, s, Front(frames)) + [Beat(Last(frames).Ms(), Loud(cfg, After(cfg, s, Front(frames)), Last(frames)))]
  }

  /** Loud milliseconds less twice the quiet ones. */
  function Score(beats: seq<Beat>): int {
    if beats == [] then 0 else Score(Front(beats)) + if Last(beats).loud then Last(beats).ms else -2 * Last(beats).ms
  }

  /** The best score of a window that ends with the last beat. */
  function Best(beats: seq<Beat>): nat {
    if beats == [] then 0
    else if Last(beats).loud then Best(Front(beats)) + Last(beats).ms
    else if Best(Front(beats)) < 2 * Last(beats).ms then 0
    else Best(Front(beats)) - 2 * Last(beats).ms
  }

  lemma {:induction false} BestBoundsWindows(beats: seq<Beat>, k: nat)
    requires k <= |beats|
    ensures Score(beats[k..]) <= Best(beats)
  {
    if k < |beats| {
      assert Front(beats[k..]) == Front(beats)[k..];
      BestBoundsWindows(Front(beats), k);
    }
  }

  lemma {:induction false} BestIsAWindow(beats: seq<Beat>) returns (k: nat)
    ensures k <= |beats| && Score(beats[k..]) == Best(beats)
  {
    if beats == [] {
      k := 0;
    } else {
      k := BestIsAWindow(Front(beats));
      if !Last(beats).loud && Best(Front(beats)) < 2 * Last(beats).ms {
        k := |beats|;
      } else {
        assert Front(beats[k..]) == Front(beats)[k..];
      }
    }
  }

  /** No frame gave an event. */
  ghost predicate Silent(cfg: Config, s: State, frames: seq<Frame>) {
    if frames == [] then true else Silent(cfg, s, Front(frames)) && EventOf(cfg, s, frames) == None
  }

  lemma {:induction false} CounterIsBest(cfg: Config, s: State, frames: seq<Frame>)
    requires !s.speaking && s.speechMs == 0 && Silent(cfg, s, frames)
    ensures var t := After(cfg, s, frames);
      !t.speaking && t.speechMs == Best(Beats(cfg, s, frames)) && (frames != [] ==> t.speechMs < cfg.triggerMs)
  {
    if frames != [] {
      CounterIsBest(cfg, s, Front(frames));
      assert Front(Beats(cfg, s, frames)) == Beats(cfg, s, Front(frames));
    }
  }

  /** Speech starts at the first frame where some window that ends there has loud milliseconds
      less twice the quiet ones of at least the trigger. */
  lemma StartsExactly(cfg: Config, s: State, frames: seq<Frame>)
    requires !s.speaking && s.speechMs == 0 && frames != [] && Silent(cfg, s, Front(frames))
    ensures var beats := Beats(cfg, s, frames);
      EventOf(cfg, s, frames) == Some(SpeechStarted) <==> exists k: nat :: k <= |beats| && Score(beats[k..]) >= cfg.triggerMs
    ensures EventOf(cfg, s, frames) != Some(SpeechEnded)
  {
    var beats := Beats(cfg, s, frames);
    CounterIsBest(cfg, s, Front(frames));
    assert Front(beats) == Beats(cfg, s, Front(frames));
    var k := BestIsAWindow(beats);
    forall j: nat | j <= |beats| ensures Score(beats[j..]) <= Best(beats) {
      BestBoundsWindows(beats, j);
    }
    assert EventOf(cfg, s, frames) == Some(SpeechStarted) <==> Best(beats) >= cfg.triggerMs;
    if Best(beats) >= cfg.triggerMs {
      assert k <= |beats| && Score(beats[k..]) >= cfg.triggerMs;
    }
  }

  function Total(beats: seq<Beat>): nat {
    if beats == [] then 0 else Total(Front(beats)) + Last(beats).ms
  }

  /** The unbroken quiet at the end of the beats, after `before` ms of it. */
  function TrailingQuiet(before: nat, beats: seq<Beat>): nat {
    if beats == [] then before
    else if Last(beats).loud then 0
    else TrailingQuiet(before, Front(beats)) + Last(beats).ms
  }

  lemma {:induction false} UtteranceCounters(cfg: Config, s: State, frames: seq<Frame>)
    requires s.speaking && Silent(cfg, s, frames)
    ensures var t, beats := After(cfg, s, frames), Beats(cfg, s, frames);
      && t.speaking && t.speakingMs == s.speakingMs + Total(beats) && t.endpointMs == s.endpointMs
      && t.silenceMs == TrailingQuiet(s.silenceMs, beats)
  {
    if frames != [] {
      UtteranceCounters(cfg, s, Front(frames));
      assert Front(Beats(cfg, s, frames)) == Beats(cfg, s, Front(frames));
    }
  }

  /** Speech ends exactly at the first frame that completes `endpointMs` of unbroken quiet or
      brings the utterance to its longest. */
  lemma EndsExactly(cfg: Config, s: State, frames: seq<Frame>)
    requires s.speaking && frames != [] && Silent(cfg, s, Front(frames))
    ensures var beats := Beats(cfg, s, frames);
      EventOf(cfg, s, frames) == Some(SpeechEnded) <==>
      s.speakingMs + Total(beats) >= cfg.maxSpeechMs || TrailingQuiet(s.silenceMs, beats) >= s.endpointMs
    ensures EventOf(cfg, s, frames) != Some(SpeechStarted)
  {
    UtteranceCounters(cfg, s, Front(frames));
    assert Front(Beats(cfg, s, frames)) == Beats(cfg, s, Front(frames));
  }

  /** Short of the longest utterance, speech ends only after all of the endpoint's quiet. */
  lemma {:induction false} NoEarlyEnd(cfg: Config, s: State, frames: seq<Frame>)
    requires s.speaking && frames != [] && Silent(cfg, s, Front(frames)) && EventOf(cfg, s, frames) == Some(SpeechEnded)
    requires s.speakingMs + Total(Beats(cfg, s, frames)) < cfg.maxSpeechMs
    ensures s.endpointMs == 0 || (TrailingQuiet(s.silenceMs, Beats(cfg, s, frames)) >= s.endpointMs && !Last(Beats(cfg, s, frames)).loud)
  {
    EndsExactly(cfg, s, frames);
  }

  /** What of a state the detector's future depends on. */
  ghost predicate Alike(s: State, t: State) {
    && s.speechMs == t.speechMs && s.silenceMs == t.silenceMs && s.speaking == t.speaking
    && s.threshold == t.threshold && s.endpointMs == t.endpointMs && s.floor == t.floor
    && (s.speaking ==> s.speakingMs == t.speakingMs && s.loudness == t.loudness)
  }

  lemma AlikeStep(cfg: Config, s: State, t: State, f: Frame)
    requires Alike(s, t)
    ensures Alike(Step(cfg, s, f).0, Step(cfg, t, f).0) && Step(cfg, s, f).1 == Step(cfg, t, f).1
  {
  }

  lemma {:induction false} AlikeEvents(cfg: Config, s: State, t: State, frames: seq<Frame>)
    requires Alike(s, t)
    ensures Alike(After(cfg, s, frames), After(cfg, t, frames)) && Events(cfg, s, frames) == Events(cfg, t, frames)
  {
    if frames != [] {
      AlikeEvents(cfg, s, t, Front(frames));
      AlikeStep(cfg, After(cfg, s, Front(frames)), After(cfg, t, Front(frames)), Last(frames));
    }
  }

  /** After a reset nothing of the past matters but the threshold, the endpoint and the background level. */
  lemma {:induction false} ResetForgets(cfg: Config, s: State, t: State, frames: seq<Frame>)
    requires s.threshold == t.threshold && s.endpointMs == t.endpointMs && s.floor == t.floor
    ensures Events(cfg, Forgotten(s), frames) == Events(cfg, Forgotten(t), frames)
  {
    AlikeEvents(cfg, Forgotten(s), Forgotten(t), frames);
  }

  ghost predicate TakeTurns(events: seq<Event>) {
    forall i :: 0 < i < |events| ==> events[i - 1] != events[i]
  }

  /** Starts and ends take turns, and the last of them says whether there is speech now. */
  lemma {:induction false} EventsTakeTurns(cfg: Config, s: State, frames: seq<Frame>)
    ensures var events := Events(cfg, s, frames);
      && TakeTurns(events)
      && (events != [] ==> events[0] == if s.speaking then SpeechEnded else SpeechStarted)
      && After(cfg, s, frames).speaking == (if events == [] then s.speaking else Last(events) == SpeechStarted)
  {
    if frames != [] {
      EventsTakeTurns(cfg, s, Front(frames));
    }
  }

  // ---------------------------------------------------------------------------------------
  // A steady sound
  // ---------------------------------------------------------------------------------------

  /** The level `level` is not speech now, and will not be however long it lasts. */
  ghost predicate Deaf(cfg: Config, s: State, level: real) {
    || s.threshold > level
    || (cfg.noiseFloorRatio > 0.0 && s.floor <= level && Times(s.floor, cfg.noiseFloorRatio) > level)
  }

  /** Speech made of `level` alone, which is still speech. */
  ghost predicate Sustained(cfg: Config, s: State, level: real) {
    s.speaking && Threshold(cfg, s) <= level && s.loudness == level * s.speakingMs as real
  }

  lemma ScaleMonotone(x: real, y: real, ratio: real)
    requires ratio > 0.0
    ensures x <= y ==> x * ratio <= y * ratio && Times(x, ratio) <= Times(y, ratio)
  {
  }

  lemma TimesMore(x: real, y: real, ratio: real)
    requires x > y && ratio > 0.0
    ensures x * ratio > y * ratio && Times(x, ratio) > Times(y, ratio)
  {
  }

  lemma FloorMoves(s: State, level: real)
    ensures s.floor <= level ==> s.floor <= Floor(s, level) <= level
    ensures s.floor > level ==> level <= Floor(s, level) <= s.floor
  {
  }

  /** Nothing that only goes up, and no background that rises towards the level, brings it back. */
  lemma StaysOver(threshold: real, threshold': real, floor: real, floor': real, ratio: real, level: real)
    requires threshold <= threshold' && (floor <= level ==> floor <= floor' <= level)
    requires threshold > level || (ratio > 0.0 && floor <= level && Times(floor, ratio) > level)
    ensures threshold' > level || (ratio > 0.0 && floor' <= level && Times(floor', ratio) > level)
  {
    if threshold <= level {
      ScaleMonotone(floor, floor', ratio);
    }
  }

  lemma DeafIsNotLoud(cfg: Config, s: State, f: Frame)
    requires Deaf(cfg, s, f.rms)
    ensures !Loud(cfg, s, f)
  {
  }

  lemma StepLevels(cfg: Config, s: State, f: Frame)
    ensures var t := Step(cfg, s, f).0; t.threshold >= s.threshold && t.floor == Floor(s, f.rms)
  {
  }

  lemma DeafStaysDeaf(cfg: Config, s: State, f: Frame)
    requires Deaf(cfg, s, f.rms)
    ensures Deaf(cfg, Step(cfg, s, f).0, f.rms)
    ensures !s.speaking && s.speechMs < cfg.triggerMs ==> Step(cfg, s, f).1 == None && Step(cfg, s, f).0.speechMs < cfg.triggerMs
  {
    DeafIsNotLoud(cfg, s, f);
    FloorMoves(s, f.rms);
    StepLevels(cfg, s, f);
    var t := Step(cfg, s, f).0;
    StaysOver(s.threshold, t.threshold, s.floor, t.floor, cfg.noiseFloorRatio, f.rms);
  }

  lemma MaxUnder(threshold: real, low: real, high: real, level: real)
    requires low <= high && MaxReal(threshold, high) <= level
    ensures MaxReal(threshold, low) <= level
  {
  }

  lemma StillUnder(threshold: real, before: real, after: real, ratio: real, level: real)
    requires ratio > 0.0 && after <= before && MaxReal(threshold, Times(before, ratio)) <= level
    ensures MaxReal(threshold, Times(after, ratio)) <= level
  {
    ScaleMonotone(after, before, ratio);
    MaxUnder(threshold, Times(after, ratio), Times(before, ratio), level);
  }

  /** What is left after a frame at which `level` was speech: still speech, or never again. */
  lemma LoudThen(cfg: Config, s: State, t: State, level: real)
    requires Threshold(cfg, s) <= level
    requires t.floor == Floor(s, level) && t.threshold == s.threshold
    ensures Threshold(cfg, t) <= level || Deaf(cfg, t, level)
  {
    FloorMoves(s, level);
    if cfg.noiseFloorRatio > 0.0 && s.floor > level {
      StillUnder(s.threshold, s.floor, t.floor, cfg.noiseFloorRatio, level);
    }
  }

  /** What a frame adds to an utterance of one level. */
  lemma LoudnessGrows(level: real, before: nat, ms: nat)
    ensures level * before as real + level * ms as real == level * (before + ms) as real
  {
  }

  lemma MeanIsLevel(level: real, ms: nat)
    requires ms > 0
    ensures level * ms as real / ms as real == level
  {
  }

  /** An utterance of one level that reaches its longest puts the threshold above that level. */
  lemma RaisedAbove(s: State, level: real)
    requires level > 0.0 && s.speakingMs > 0 && s.loudness == level * s.speakingMs as real
    ensures Raised(s) > level
  {
    MeanIsLevel(level, s.speakingMs);
  }

  /** The times that must be positive for a steady sound to be told from speech. */
  predicate Timed(cfg: Config, s: State) {
    cfg.triggerMs > 0 && s.endpointMs > 0
  }

  /** An utterance that reaches its longest has a length: there is a longest, or the frame is not empty. */
  predicate Lasts(cfg: Config, f: Frame) {
    cfg.maxSpeechMs > 0 || f.Ms() > 0
  }

  /** A sustained sound starts nothing, and goes on until the threshold passes it. */
  lemma SustainedThen(cfg: Config, s: State, f: Frame)
    requires cfg.voiceStart.None? && f.rms > 0.0 && Timed(cfg, s) && Lasts(cfg, f)
    requires Sustained(cfg, s, f.rms)
    ensures Sustained(cfg, Step(cfg, s, f).0, f.rms) || Deaf(cfg, Step(cfg, s, f).0, f.rms)
  {
    var h := Heard(cfg, s, f);
    var u := Uttered(h, f);
    LoudnessGrows(f.rms, s.speakingMs, f.Ms());
    assert u.loudness == f.rms * u.speakingMs as real;
    if u.speakingMs >= cfg.maxSpeechMs {
      RaisedAbove(u, f.rms);
    } else {
      LoudThen(cfg, s, u, f.rms);
    }
  }

  ghost predicate Ready(cfg: Config, s: State) {
    !s.speaking ==> s.speechMs < cfg.triggerMs
  }

  lemma StepIsReady(cfg: Config, s: State, f: Frame)
    requires Timed(cfg, s)
    ensures Ready(cfg, Step(cfg, s, f).0) && Timed(cfg, Step(cfg, s, f).0)
  {
  }

  /** Speech starts only at a loud frame, and then it is sustained or will not come back. */
  lemma StartedThen(cfg: Config, s: State, f: Frame)
    requires cfg.voiceStart.None? && Timed(cfg, s) && Ready(cfg, s) && Step(cfg, s, f).1 == Some(SpeechStarted)
    ensures Sustained(cfg, Step(cfg, s, f).0, f.rms) || Deaf(cfg, Step(cfg, s, f).0, f.rms)
  {
    assert Loud(cfg, s, f);
    LoudThen(cfg, s, Step(cfg, s, f).0, f.rms);
  }

  ghost function Starts(events: seq<Event>): nat {
    if events == [] then 0 else Starts(Front(events)) + if Last(events).SpeechStarted? then 1 else 0
  }

  lemma StartsThen(events: seq<Event>, e: Option<Event>)
    ensures Starts(events + if e.Some? then [e.value] else []) == Starts(events) + if e == Some(SpeechStarted) then 1 else 0
  {
    if e.Some? {
      assert Front(events + [e.value]) == events;
    } else {
      assert events + [] == events;
    }
  }

  /** Frames of one level. */
  ghost predicate Steady(frames: seq<Frame>, level: real) {
    forall f <- frames :: f.rms == level
  }

  /** One more frame of the sound, after `starts` starts. */
  lemma {:induction false} StepSteady(cfg: Config, s: State, f: Frame, starts: nat)
    requires cfg.voiceStart.None? && Timed(cfg, s) && Ready(cfg, s) && (f.rms > 0.0 || s.threshold > f.rms) && Lasts(cfg, f)
    requires starts <= 1 && (starts == 1 ==> Sustained(cfg, s, f.rms) || Deaf(cfg, s, f.rms))
    ensures var t, e := Step(cfg, s, f).0, Step(cfg, s, f).1;
      && s.threshold <= t.threshold
      && (e == Some(SpeechStarted) ==> starts == 0)
      && (starts == 1 || e == Some(SpeechStarted) ==> Sustained(cfg, t, f.rms) || Deaf(cfg, t, f.rms))
  {
    if starts == 1 && Deaf(cfg, s, f.rms) {
      DeafStaysDeaf(cfg, s, f);
    } else if starts == 1 {
      SustainedThen(cfg, s, f);
    } else if Step(cfg, s, f).1 == Some(SpeechStarted) {
      StartedThen(cfg, s, f);
    }
  }

  /**
    On the energy test alone, a sound of constant level starts speech at most once, however long
    it lasts and however it is cut into frames: with a trigger and an endpoint, with a longest
    utterance or no empty frames, and at any level that is positive or below the threshold.
  */
  lemma {:induction false} SteadySoundStartsOnce(cfg: Config, s: State, frames: seq<Frame>, level: real)
    requires cfg.voiceStart.None? && Timed(cfg, s) && Ready(cfg, s) && (level > 0.0 || s.threshold > level)
    requires Steady(frames, level) && forall f <- frames :: Lasts(cfg, f)
    ensures var t, starts := After(cfg, s, frames), Starts(Events(cfg, s, frames));
      && Timed(cfg, t) && Ready(cfg, t) && starts <= 1 && s.threshold <= t.threshold
      && (starts == 1 ==> Sustained(cfg, t, level) || Deaf(cfg, t, level))
  {
    if frames != [] {
      SteadySoundStartsOnce(cfg, s, Front(frames), level);
      var before, f := After(cfg, s, Front(frames)), Last(frames);
      assert f in frames;
      StartsThen(Events(cfg, s, Front(frames)), EventOf(cfg, s, frames));
      StepIsReady(cfg, before, f);
      StepSteady(cfg, before, f, Starts(Events(cfg, s, Front(frames))));
    }
  }

  // ---------------------------------------------------------------------------------------
  // And when it does not
  // ---------------------------------------------------------------------------------------

  /** At rest, and the next long enough frame of the level starts speech. */
  ghost predicate Resting(cfg: Config, s: State, level: real) {
    !s.speaking && (cfg.triggerMs == 0 || (cfg.voiceStart.None? && cfg.noiseFloorRatio <= 0.0 && s.threshold <= level))
  }

  /** What lets a sound that started speech start it again: no trigger, no endpoint, no longest utterance, no level. */
  ghost predicate Loose(cfg: Config, s: State, level: real) {
    cfg.triggerMs == 0 || s.endpointMs == 0 || cfg.maxSpeechMs == 0 || level == 0.0
  }

  /** A frame that long, and never without bytes: an eighth of a millisecond more counts for nothing. */
  function FrameOf(ms: nat, level: real): (f: Frame)
    ensures f.Ms() == ms && f.bytes > 0
  {
    Frame(8 * ms + 1, level, None)
  }

  /** A frame as long as the trigger starts speech. */
  lemma FrameStarts(cfg: Config, s: State, level: real)
    requires Resting(cfg, s, level)
    ensures var f := FrameOf(cfg.triggerMs, level);
      && Step(cfg, s, f).1 == Some(SpeechStarted)
      && var t := Step(cfg, s, f).0;
        t.speaking && t.speakingMs == 0 && t.loudness == 0.0 && t.threshold == s.threshold && t.endpointMs == s.endpointMs
  {
  }

  /** And one more frame ends it, leaving it as ready as it was. */
  lemma FrameEnds(cfg: Config, s: State, level: real) returns (f: Frame)
    requires s.speaking && s.speakingMs == 0 && s.loudness == 0.0 && Loose(cfg, s, level)
    requires Resting(cfg, s.(speaking := false), level)
    ensures f.rms == level && f.bytes > 0 && Step(cfg, s, f).1 == Some(SpeechEnded)
    ensures Resting(cfg, Step(cfg, s, f).0, level) && Step(cfg, s, f).0.endpointMs == s.endpointMs
  {
    if cfg.triggerMs == 0 || level == 0.0 {
      f := FrameOf(cfg.maxSpeechMs, level);
    } else {
      f := FrameOf(0, level);
    }
  }

  lemma {:induction false} RunsInTurn(cfg: Config, s: State, a: seq<Frame>, b: seq<Frame>)
    ensures After(cfg, s, a + b) == After(cfg, After(cfg, s, a), b)
    ensures Events(cfg, s, a + b) == Events(cfg, s, a) + Events(cfg, After(cfg, s, a), b)
    decreases |b|
  {
    if b == [] {
      assert a + b == a;
      assert Events(cfg, s, a) + [] == Events(cfg, s, a);
    } else {
      assert Front(a + b) == a + Front(b) && Last(a + b) == Last(b);
      RunsInTurn(cfg, s, a, Front(b));
    }
  }

  lemma {:induction false} StartsAddUp(a: seq<Event>, b: seq<Event>)
    ensures Starts(a + b) == Starts(a) + Starts(b)
    decreases |b|
  {
    if b == [] {
      assert a + b == a;
    } else {
      assert Front(a + b) == a + Front(b) && Last(a + b) == Last(b);
      StartsAddUp(a, Front(b));
    }
  }

  lemma {:induction false} TwoFrames(cfg: Config, s: State, f: Frame, g: Frame)
    requires Step(cfg, s, f).1 == Some(SpeechStarted) && Step(cfg, Step(cfg, s, f).0, g).1 == Some(SpeechEnded)
    ensures After(cfg, s, [f, g]) == Step(cfg, Step(cfg, s, f).0, g).0 && Events(cfg, s, [f, g]) == [SpeechStarted, SpeechEnded]
  {
    assert Front([f]) == [] && Front([f, g]) == [f];
    assert After(cfg, s, [f]) == Step(cfg, s, f).0;
    assert Events(cfg, s, [f]) == [SpeechStarted];
  }

  /** Then a sound of that one level starts speech as often as one likes. */
  lemma {:induction false} StartsAgainAndAgain(cfg: Config, s: State, level: real, n: nat) returns (frames: seq<Frame>)
    requires Resting(cfg, s, level) && Loose(cfg, s, level)
    ensures Steady(frames, level) && (forall f <- frames :: f.bytes > 0) && Starts(Events(cfg, s, frames)) == n
    ensures Resting(cfg, After(cfg, s, frames), level) && After(cfg, s, frames).endpointMs == s.endpointMs
    decreases n
  {
    frames := [];
    if n > 0 {
      var before := StartsAgainAndAgain(cfg, s, level, n - 1);
      var t, f := After(cfg, s, before), FrameOf(cfg.triggerMs, level);
      FrameStarts(cfg, t, level);
      var g := FrameEnds(cfg, Step(cfg, t, f).0, level);
      TwoFrames(cfg, t, f, g);
      RunsInTurn(cfg, s, before, [f, g]);
      StartsAddUp(Events(cfg, s, before), [SpeechStarted, SpeechEnded]);
      assert Front([SpeechStarted, SpeechEnded]) == [SpeechStarted] && Front([SpeechStarted]) == [];
      assert Starts([SpeechStarted, SpeechEnded]) == 1;
      frames := before + [f, g];
    }
  }

  // ---------------------------------------------------------------------------------------
  // Levels there are
  // ---------------------------------------------------------------------------------------

  lemma MagnitudeIsBounded(mantissa: nat, exponent: nat)
    requires mantissa < 16 && exponent < 8
    ensures 0 <= Magnitude(mantissa, exponent) <= PEAK
  {
    var power := Power(exponent);
    assert power == 1 || power == 2 || power == 4 || power == 8 || power == 16 || power == 32 || power == 64 || power == 128;
  }

  lemma SquareIsBounded(x: int, peak: int)
    requires 0 - peak <= x <= peak
    ensures 0 <= Square(x) <= Square(peak)
  {
    var size := if x < 0 then -x else x;
    assert Square(x) == size * size <= size * peak <= peak * peak;
  }

  lemma SampleIsBounded(b: Byte)
    ensures 0 <= Square(Sample(b)) <= Square(PEAK)
  {
    var value: nat := 255 - b;
    MagnitudeIsBounded(value % 16, value / 16 % 8);
    SquareIsBounded(Sample(b), PEAK);
  }

  lemma EnergyOfOneMore(x: int, n: nat)
    ensures Energy(x as real, 0) == 0.0
    ensures Energy(x as real, n + 1) == Energy(x as real, n) + Square(x) as real
  {
    var y := x as real;
    assert y * y == Square(x) as real;
    assert y * y * (n + 1) as real == y * y * n as real + y * y;
  }

  lemma {:induction false} SquaresAreBounded(audio: seq<Byte>)
    ensures Squares(audio) as real <= Energy(PEAK as real, |audio|)
  {
    if audio == [] {
      EnergyOfOneMore(PEAK, 0);
    } else {
      SampleIsBounded(audio[0]);
      SquaresAreBounded(audio[1..]);
      EnergyOfOneMore(PEAK, |audio| - 1);
    }
  }

  lemma EnergyGrows(x: real, y: real, n: nat)
    requires x > y >= 0.0 && n > 0
    ensures Energy(x, n) > Energy(y, n)
  {
    TimesMore(x, y, x);
    if y > 0.0 {
      TimesMore(x, y, y);
    }
    TimesMore(x * x, y * y, n as real);
  }

  /** No frame is louder than its loudest sample could be. */
  lemma {:induction false} LevelIsBounded(f: Frame)
    requires Genuine(f)
    ensures 0.0 <= f.rms <= PEAK as real
  {
    var audio: seq<Byte> :| |audio| == f.bytes && IsLevel(audio, f.rms);
    SquaresAreBounded(audio);
    if audio != [] && f.rms > PEAK as real {
      EnergyGrows(f.rms, PEAK as real, |audio|);
      assert false;
    }
  }

  /** The same byte, over and over. */
  ghost predicate AllAre(audio: seq<Byte>, b: Byte) {
    forall i :: 0 <= i < |audio| ==> audio[i] == b
  }

  lemma {:induction false} SquaresOfOne(audio: seq<Byte>, b: Byte)
    requires AllAre(audio, b)
    ensures Squares(audio) as real == Energy(Sample(b) as real, |audio|)
  {
    if audio == [] {
      EnergyOfOneMore(Sample(b), 0);
    } else {
      SquaresOfOne(audio[1..], b);
      EnergyOfOneMore(Sample(b), |audio| - 1);
      assert audio[0] == b;
    }
  }

  /** One sample repeated makes frames of any length whose level is that sample. */
  lemma {:induction false} OneSampleIsGenuine(f: Frame, b: Byte)
    requires f.bytes > 0 && f.rms == Sample(b) as real && Sample(b) >= 0
    ensures Genuine(f)
  {
    var audio := Repeat(b, f.bytes);
    SquaresOfOne(audio, b);
    assert IsLevel(audio, f.rms);
  }

  lemma MagnitudeWith(mantissa: nat, exponent: nat, power: nat)
    requires exponent < 8 && Power(exponent) == power && (power == 1 || power == 128)
    ensures Magnitude(mantissa, exponent) == if power == 1 then 8 * mantissa else 1024 * mantissa + 16764
  {
  }

  lemma SilentByte(b: Byte)
    requires b == 255
    ensures Sample(b) == 0
  {
    var value: nat := 255 - b;
    assert value == 0;
    var none := value % 16;
    assert none == 0 && value / 16 % 8 == none;
    MagnitudeWith(none, none, 1);
  }

  lemma LoudestByte(b: Byte)
    requires b == 128
    ensures Sample(b) == PEAK
  {
    MagnitudeWith(15, 7, 128);
  }

  lemma {:induction false} SoundOfTheseIsGenuine(frames: seq<Frame>, level: real)
    requires Steady(frames, level) && (forall f <- frames :: f.bytes > 0) && (level == 0.0 || level == PEAK as real)
    ensures forall f <- frames :: Genuine(f)
  {
    SilentByte(255);
    LoudestByte(128);
    forall f | f in frames ensures Genuine(f) {
      OneSampleIsGenuine(f, if level == 0.0 then 255 else 128);
    }
  }

  /** No sound of one level starts speech twice. */
  ghost predicate StartsOnce(cfg: Config) {
    forall level: real, frames: seq<Frame> ::
      Steady(frames, level) && (forall f <- frames :: Genuine(f)) ==> Starts(Events(cfg, Initial(cfg), frames)) <= 1
  }

  // ---------------------------------------------------------------------------------------
  // Multiples of the background
  // ---------------------------------------------------------------------------------------

  /** Two frames after it starts speech, a steady sound is this share of the background. */
  const HeardTwice := 0.009975

  /** The background two frames after it was at its first level. */
  function Risen(level: real): real {
    300.0 * 0.990025 + HeardTwice * level
  }

  /** A multiple so great that even the loudest sound is below it two frames after it starts speech. */
  predicate Great(ratio: real) {
    ratio > 0.0 && Times(Risen(PEAK as real), ratio) > PEAK as real
  }

  lemma GreatIsMore(ratio: real)
    requires Great(ratio)
    ensures ratio > 1.0
  {
    if ratio <= 1.0 {
      ScaleMonotone(ratio, 1.0, Risen(PEAK as real));
    }
  }

  /** And so is every sound. */
  lemma {:induction false} GreatForAll(level: real, ratio: real)
    requires Great(ratio) && 0.0 <= level <= PEAK as real
    ensures Times(Risen(level), ratio) > level
  {
    var peak, rest := PEAK as real, 1.0 - HeardTwice * ratio;
    RisenTimes(level, ratio);
    RisenTimes(peak, ratio);
    if rest >= 0.0 {
      if rest > 0.0 {
        ScaleMonotone(level, peak, rest);
      }
    } else {
      assert level * rest <= 0.0;
    }
  }

  lemma RisenTimes(level: real, ratio: real)
    ensures Times(Risen(level), ratio) - level == 300.0 * 0.990025 * ratio - level * (1.0 - HeardTwice * ratio)
  {
  }

  /** The background has come so far up that the next frame of the level takes it past all hope. */
  ghost predicate Fading(s: State, level: real) {
    s.speaking && 298.5 + 0.005 * level <= s.floor <= level
  }

  /** The background does not fall below its first level but towards the sound. */
  ghost predicate Based(s: State, level: real) {
    s.floor > 0.0 && (s.floor >= 300.0 || s.floor >= level)
  }

  /** With a great multiple of the background, one frame after a start leaves no hope of another. */
  lemma {:induction false} FadingThen(cfg: Config, s: State, f: Frame)
    requires Great(cfg.noiseFloorRatio) && 0.0 <= f.rms <= PEAK as real && Fading(s, f.rms)
    ensures Deaf(cfg, Step(cfg, s, f).0, f.rms)
  {
    var t := Step(cfg, s, f).0;
    StepLevels(cfg, s, f);
    FloorMoves(s, f.rms);
    GreatForAll(f.rms, cfg.noiseFloorRatio);
    ScaleMonotone(Risen(f.rms), t.floor, cfg.noiseFloorRatio);
  }

  /** Such a start needs a level far above the background, which then begins to rise. */
  lemma {:induction false} StartFades(cfg: Config, s: State, f: Frame)
    requires cfg.voiceStart.None? && Great(cfg.noiseFloorRatio) && cfg.triggerMs > 0 && Based(s, f.rms)
    requires Ready(cfg, s) && Step(cfg, s, f).1 == Some(SpeechStarted)
    ensures Fading(Step(cfg, s, f).0, f.rms)
  {
    assert Loud(cfg, s, f);
    GreatIsMore(cfg.noiseFloorRatio);
    TimesMore(cfg.noiseFloorRatio, 1.0, s.floor);
    assert s.floor < Times(s.floor, cfg.noiseFloorRatio) <= f.rms;
  }

  lemma StepIsBased(cfg: Config, s: State, f: Frame)
    requires Based(s, f.rms) && f.rms >= 0.0
    ensures Based(Step(cfg, s, f).0, f.rms)
  {
    StepLevels(cfg, s, f);
  }

  lemma {:induction false} StepFading(cfg: Config, s: State, f: Frame, starts: nat)
    requires cfg.voiceStart.None? && cfg.triggerMs > 0 && Great(cfg.noiseFloorRatio) && 0.0 <= f.rms <= PEAK as real
    requires Ready(cfg, s) && Based(s, f.rms)
    requires starts <= 1 && (starts == 1 ==> Fading(s, f.rms) || Deaf(cfg, s, f.rms))
    ensures var t, e := Step(cfg, s, f).0, Step(cfg, s, f).1;
      && Ready(cfg, t) && Based(t, f.rms)
      && (e == Some(SpeechStarted) ==> starts == 0)
      && (starts == 1 || e == Some(SpeechStarted) ==> Fading(t, f.rms) || Deaf(cfg, t, f.rms))
  {
    StepIsBased(cfg, s, f);
    if starts == 1 && Deaf(cfg, s, f.rms) {
      DeafStaysDeaf(cfg, s, f);
    } else if starts == 1 {
      FadingThen(cfg, s, f);
    } else if Step(cfg, s, f).1 == Some(SpeechStarted) {
      StartFades(cfg, s, f);
    }
  }

  lemma {:induction false} GreatRatioStartsOnce(cfg: Config, s: State, frames: seq<Frame>, level: real)
    requires cfg.voiceStart.None? && cfg.triggerMs > 0 && Great(cfg.noiseFloorRatio) && 0.0 <= level <= PEAK as real
    requires Ready(cfg, s) && Based(s, level) && Steady(frames, level)
    ensures var t, starts := After(cfg, s, frames), Starts(Events(cfg, s, frames));
      && Ready(cfg, t) && Based(t, level) && starts <= 1
      && (starts == 1 ==> Fading(t, level) || Deaf(cfg, t, level))
  {
    if frames != [] {
      GreatRatioStartsOnce(cfg, s, Front(frames), level);
      var before, f := After(cfg, s, Front(frames)), Last(frames);
      assert f in frames;
      StartsThen(Events(cfg, s, Front(frames)), EventOf(cfg, s, frames));
      StepFading(cfg, before, f, Starts(Events(cfg, s, Front(frames))));
    }
  }

  /** Any frame as long as the trigger starts speech, when its level is above the threshold and the multiple. */
  lemma LoudStarts(cfg: Config, s: State, level: real)
    requires cfg.voiceStart.None? && !s.speaking && s.threshold <= level && Times(s.floor, cfg.noiseFloorRatio) <= level
    ensures var f := FrameOf(cfg.triggerMs, level);
      && Step(cfg, s, f).1 == Some(SpeechStarted)
      && var t := Step(cfg, s, f).0;
        t.speaking && t.speakingMs == 0 && t.threshold == s.threshold && t.endpointMs == s.endpointMs && t.floor == Floor(s, level)
  {
  }

  /** A frame shorter than a millisecond ends speech that has just begun. */
  lemma ShortEnds(cfg: Config, s: State, level: real)
    requires s.speaking && s.speakingMs == 0 && (s.endpointMs == 0 || cfg.maxSpeechMs == 0)
    ensures var g := FrameOf(0, level);
      && Step(cfg, s, g).1 == Some(SpeechEnded)
      && var t := Step(cfg, s, g).0; !t.speaking && t.threshold == s.threshold && t.floor == Floor(s, level)
  {
  }

  lemma FloorTwice(s: State, t: State, u: State, level: real)
    requires s.floor == 300.0 && level >= 300.0 && t.floor == Floor(s, level) && u.floor == Floor(t, level)
    ensures u.floor == Risen(level)
  {
    assert t.floor == 298.5 + 0.005 * level;
  }

  lemma {:induction false} ThirdStart(cfg: Config, s: State, f: Frame, g: Frame)
    requires Events(cfg, s, [f, g]) == [SpeechStarted, SpeechEnded] && Step(cfg, After(cfg, s, [f, g]), f).1 == Some(SpeechStarted)
    ensures Starts(Events(cfg, s, [f, g, f])) == 2
  {
    assert Front([f, g, f]) == [f, g];
    StartsThen([SpeechStarted, SpeechEnded], EventOf(cfg, s, [f, g, f]));
    assert Front([SpeechStarted, SpeechEnded]) == [SpeechStarted] && Front([SpeechStarted]) == [];
  }

  /** Under a smaller multiple, without an endpoint or without a longest utterance, the loudest sound starts twice. */
  lemma {:induction false} StartsTwice(cfg: Config) returns (frames: seq<Frame>)
    requires cfg.voiceStart.None? && cfg.noiseFloorRatio > 0.0 && !Great(cfg.noiseFloorRatio)
    requires cfg.thresholdRms <= PEAK as real && (cfg.endpointMs == 0 || cfg.maxSpeechMs == 0)
    ensures Steady(frames, PEAK as real) && (forall f <- frames :: f.bytes > 0)
    ensures Starts(Events(cfg, Initial(cfg), frames)) == 2
  {
    var level := PEAK as real;
    ScaleMonotone(300.0, Risen(level), cfg.noiseFloorRatio);
    var s, f, g := Initial(cfg), FrameOf(cfg.triggerMs, level), FrameOf(0, level);
    LoudStarts(cfg, s, level);
    var t := Step(cfg, s, f).0;
    ShortEnds(cfg, t, level);
    var u := Step(cfg, t, g).0;
    FloorTwice(s, t, u, level);
    LoudStarts(cfg, u, level);
    TwoFrames(cfg, s, f, g);
    frames := [f, g, f];
    ThirdStart(cfg, s, f, g);
  }

  // ---------------------------------------------------------------------------------------
  // Every configuration
  // ---------------------------------------------------------------------------------------

  /** What a configuration needs on the energy test alone: a trigger; and unless no sound reaches the
      threshold, an endpoint and a longest utterance or a great multiple of the background, and a
      threshold or any multiple. */
  predicate Sound(cfg: Config) {
    && cfg.triggerMs > 0
    && (|| cfg.thresholdRms > PEAK as real
        || Great(cfg.noiseFloorRatio)
        || (cfg.endpointMs > 0 && cfg.maxSpeechMs > 0 && (cfg.thresholdRms > 0.0 || cfg.noiseFloorRatio > 0.0)))
  }

  lemma {:induction false} NothingIsNotLoud(cfg: Config, s: State, frames: seq<Frame>)
    requires cfg.triggerMs > 0 && cfg.noiseFloorRatio > 0.0 && s.floor > 0.0 && !s.speaking && s.speechMs == 0
    requires Steady(frames, 0.0)
    ensures var t := After(cfg, s, frames);
      t.floor > 0.0 && !t.speaking && t.speechMs == 0 && Events(cfg, s, frames) == []
  {
    if frames != [] {
      NothingIsNotLoud(cfg, s, Front(frames));
      var t := After(cfg, s, Front(frames));
      assert Last(frames) in frames;
      TimesMore(t.floor, 0.0, cfg.noiseFloorRatio);
      assert !Loud(cfg, t, Last(frames));
    }
  }

  /** A sound the detector is deaf to starts nothing. */
  lemma {:induction false} DeafStartsNothing(cfg: Config, s: State, frames: seq<Frame>, level: real)
    requires Deaf(cfg, s, level) && !s.speaking && s.speechMs < cfg.triggerMs && Steady(frames, level)
    ensures var t := After(cfg, s, frames);
      Deaf(cfg, t, level) && !t.speaking && t.speechMs < cfg.triggerMs && Events(cfg, s, frames) == []
  {
    if frames != [] {
      DeafStartsNothing(cfg, s, Front(frames), level);
      assert Last(frames) in frames;
      DeafStaysDeaf(cfg, After(cfg, s, Front(frames)), Last(frames));
    }
  }

  /** One steady sound, from the beginning. */
  lemma {:induction false} SoundStartsOnce(cfg: Config, frames: seq<Frame>, level: real)
    requires cfg.voiceStart.None? && Sound(cfg) && 0.0 <= level <= PEAK as real && Steady(frames, level)
    ensures Starts(Events(cfg, Initial(cfg), frames)) <= 1
  {
    var s := Initial(cfg);
    if cfg.thresholdRms > PEAK as real {
      DeafStartsNothing(cfg, s, frames, level);
    } else if Great(cfg.noiseFloorRatio) {
      GreatRatioStartsOnce(cfg, s, frames, level);
    } else if level > 0.0 || cfg.thresholdRms > 0.0 {
      SteadySoundStartsOnce(cfg, s, frames, level);
    } else {
      NothingIsNotLoud(cfg, s, frames);
    }
  }

  /** Some sound there is starts twice. */
  lemma {:induction false} UnsoundStartsTwice(cfg: Config) returns (level: real, frames: seq<Frame>)
    requires cfg.voiceStart.None? && !Sound(cfg)
    ensures Steady(frames, level) && (forall f <- frames :: Genuine(f)) && Starts(Events(cfg, Initial(cfg), frames)) == 2
  {
    if cfg.triggerMs == 0 || (cfg.thresholdRms <= 0.0 && cfg.noiseFloorRatio <= 0.0) {
      level := 0.0;
      frames := StartsAgainAndAgain(cfg, Initial(cfg), level, 2);
    } else if cfg.noiseFloorRatio <= 0.0 {
      level := PEAK as real;
      frames := StartsAgainAndAgain(cfg, Initial(cfg), level, 2);
    } else {
      level := PEAK as real;
      frames := StartsTwice(cfg);
    }
    SoundOfTheseIsGenuine(frames, level);
  }

  /**
    On the energy test alone, a detector starts at most once on every steady sound there is, if
    and only if its configuration is `Sound`.
  */
  lemma {:induction false} StartsOnceExactly(cfg: Config)
    requires cfg.voiceStart.None?
    ensures StartsOnce(cfg) <==> Sound(cfg)
  {
    if Sound(cfg) {
      forall level: real, frames: seq<Frame> | Steady(frames, level) && (forall f <- frames :: Genuine(f))
        ensures Starts(Events(cfg, Initial(cfg), frames)) <= 1
      {
        if frames != [] {
          assert frames[0] in frames;
          LevelIsBounded(frames[0]);
          SoundStartsOnce(cfg, frames, level);
        }
      }
    } else {
      var level, frames := UnsoundStartsTwice(cfg);
    }
  }
}
