/**
  The dialogue engine: what a call does with every turn, silence and action result.

  The engine keeps a history of the call beside its own state. The caller's words come in
  understood (`Understanding`, `AgentTurn`); responses go out by their names.
*/
module Engine {
  import opened Options
  import opened CallState
  import opened Business
  import opened CallLog
  import opened Tasks

  datatype Phase = Active | HandingOff | Ending

  datatype MetaIntent =
    | RepeatLast | CancelCurrentFlow | GoBack | TransferHuman | Goodbye | Wait

  datatype Guess = Guess(id: Name, confidence: real)

  datatype Understanding = Understanding(
    slots: seq<SlotFill>, affirm: Option<bool>, intent: Option<Guess>, meta: Option<MetaIntent>, noise: bool, abusive: bool)

  /** What the agent's words and the caller's made the turn, beside its task and values. */
  datatype Course =
    | SayOnly
    | GoOn
    | AskNext(question: Option<Name>)
    | GiveUp(why: string)
    | Transfer
    | EndCall
    | ReadTaskBack
    | Submit(saidYes: bool)

  /** `asked`: the agent's own words end in a question. */
  datatype AgentTurn = AgentTurn(
    abusive: bool, insists: bool, stuck: bool, intent: Option<Name>, held: bool, misplaced: Option<Name>,
    stale: seq<Name>, cities: Values, fills: seq<SlotFill>, asked: bool, course: Course)

  /** Nothing in the caller's words was understood. */
  predicate Empty(u: Understanding) {
    u.slots == [] && u.affirm.None? && u.intent.None? && u.meta.None? && !u.noise && !u.abusive
  }

  datatype ActionResult = Ok(response: Option<Name>) | Err(outcomeUnknown: bool)

  datatype Event =
    | Utterance(u: Understanding)
    | Decision(turn: AgentTurn)
    | Result(id: nat, result: ActionResult)
    | Silence
    | Fault(why: string)
    | NoToOptional
    | Closing
    | Desk(available: bool)

  /** The event is a turn of the caller's, and whether it is a yes. */
  predicate IsTurn(e: Event) {
    e.Utterance? || e.Decision? || e.NoToOptional?
  }

  predicate SaysYes(e: Event) {
    (e.Utterance? && e.u.affirm == Some(true)) || (e.Decision? && e.turn.course == Submit(true))
  }

  /** The turns are those of some of the events, in order. */
  ghost predicate TurnsAmong(turns: seq<bool>, events: seq<Event>) {
    turns == [] || (events != [] &&
      var e, rest := events[|events| - 1], events[..|events| - 1];
      || TurnsAmong(turns, rest)
      || (IsTurn(e) && turns[|turns| - 1] == SaysYes(e) && TurnsAmong(turns[..|turns| - 1], rest)))
  }

  // ---------------------------------------------------------------------------------------
  // What the engine says and takes
  // ---------------------------------------------------------------------------------------

  function InputOf(r: PipelineRun): Input {
    Input(r.pipeline, r.intent, ValuesOf(r.slots))
  }

  /** A place of the task given only in part. */
  predicate InPart(b: Settings, p: Pipeline, f: SlotFill) {
    Accepts(b, p, f) && f.place.Partial?
  }

  predicate AnyInPart(b: Settings, p: Pipeline, fs: seq<SlotFill>) {
    exists i :: 0 <= i < |fs| && InPart(b, p, fs[i])
  }

  function CheckedOne(b: Settings, p: Pipeline, f: SlotFill): seq<SlotFill> {
    if InPart(b, p, f) then [] else if Accepts(b, p, f) && f.place.Found? then [f.(value := f.place.value)] else [f]
  }

  /** The values as looked up, without the places given only in part. */
  function Checked(b: Settings, p: Pipeline, fs: seq<SlotFill>): seq<SlotFill> {
    if fs == [] then [] else Checked(b, p, fs[..|fs| - 1]) + CheckedOne(b, p, fs[|fs| - 1])
  }

  /** The same task with some values gone at most. */
  ghost predicate Fewer(r: PipelineRun, before: PipelineRun) {
    && r == before.(slots := r.slots)
    && forall k :: k in r.slots ==> k in before.slots && r.slots[k] == before.slots[k]
  }

  /** The task without the values of another town than that of the places given in part. */
  function Noted(b: Settings, p: Pipeline, r: PipelineRun, fs: seq<SlotFill>): PipelineRun {
    if fs == [] then r
    else
      var before, f := Noted(b, p, r, fs[..|fs| - 1]), fs[|fs| - 1];
      if InPart(b, p, f) && f.place.stale then before.(slots := before.slots - {f.slot}) else before
  }

  /** The towns of the places given in part. */
  function NotedCities(b: Settings, p: Pipeline, cities: Values, fs: seq<SlotFill>): Values {
    if fs == [] then cities
    else
      var before, f := NotedCities(b, p, cities, fs[..|fs| - 1]), fs[|fs| - 1];
      if InPart(b, p, f) && f.place.city.Some? then before[f.slot := f.place.city.value] else before
  }

  lemma {:induction false} NotedKeeps(b: Settings, p: Pipeline, r: PipelineRun, fs: seq<SlotFill>)
    ensures Noted(b, p, r, fs) == r.(slots := Noted(b, p, r, fs).slots)
  {
    if fs != [] {
      NotedKeeps(b, p, r, fs[..|fs| - 1]);
    }
  }

  /** Values taken leave the task the one it is. */
  lemma TakenKeeps(b: Settings, p: Pipeline, r: PipelineRun, fs: seq<SlotFill>)
    ensures WithFills(b, p, Noted(b, p, r, fs), Checked(b, p, fs)).pipeline == r.pipeline
  {
    NotedKeeps(b, p, r, fs);
    TakingKeepsTheRest(b, p, Noted(b, p, r, fs), Checked(b, p, fs));
  }

  /** The task agreed to: every value of it confirmed, none of them changed. */
  function AgreedTo(r: PipelineRun, provenance: Option<Provenance>): PipelineRun {
    r.(confirmed := true,
       slots := map k | k in r.slots :: r.slots[k].(
         confirmed := true, provenance := if provenance.Some? then provenance.value else r.slots[k].provenance))
  }

  /** The task with one value confirmed, going on. */
  function Confirming(r: PipelineRun, slot: Name): PipelineRun {
    r.(step := Collecting(None),
       slots := if slot in r.slots then r.slots[slot := r.slots[slot].(confirmed := true, provenance := Confirmed)] else r.slots)
  }

  /** The task with every value that needs no question. */
  function WithDefaults(src: Sources, p: Pipeline, r: PipelineRun): PipelineRun {
    r.(slots := FillSlots(src, true, p.slots, r.slots))
  }

  /** The task with the values taken: a new one ends the wait for a yes. */
  function WithFills(b: Settings, p: Pipeline, r: PipelineRun, fs: seq<SlotFill>): PipelineRun {
    var taken := TakeAll(b, p, r, fs);
    if Accepted(b, p, fs) > 0 && (taken.step.AwaitingConfirmation? || taken.step.ConfirmingSlot?)
    then taken.(step := Collecting(None)) else taken
  }

  // ---------------------------------------------------------------------------------------
  // What a turn is
  // ---------------------------------------------------------------------------------------

  /** The caller named the slot. */
  predicate Names(fs: seq<SlotFill>, slot: Name) {
    exists i :: 0 <= i < |fs| && fs[i].slot == slot
  }

  /** Another doubtful value for the slot. */
  predicate DoubtfulAgain(b: Settings, fs: seq<SlotFill>, slot: Name) {
    slot in b.slots && exists i ::
      0 <= i < |fs| && fs[i].slot == slot && fs[i].confidence < b.slots[slot].confirmBelow
      && forall j :: 0 <= j < i ==> fs[j].slot != slot
  }

  /** A yes or a no to the value read back. */
  predicate Answers(u: Understanding, slot: Name) {
    u.affirm.Some? && !Names(u.slots, slot)
  }

  predicate Settles(b: Settings, u: Understanding, slot: Name) {
    Answers(u, slot) || DoubtfulAgain(b, u.slots, slot)
  }

  /** A yes or a no to the task read back, with nothing of it corrected. */
  predicate Judges(u: Understanding, p: Pipeline) {
    u.affirm.Some? && forall i :: 0 <= i < |u.slots| ==> !p.Has(u.slots[i].slot)
  }

  /** The guess is certain enough to leave the current task for it. */
  predicate Switches(run: Option<PipelineRun>, intent: Intent, guess: Guess) {
    var threshold := if intent.respond.Some? && intent.switchConfidence > 0.6 then 0.6 else intent.switchConfidence;
    run.None? || (run.value.intent != intent.id && guess.confidence >= threshold)
  }

  /** Neither noise nor abuse nor a request about the call itself. */
  predicate Plain(u: Understanding) {
    !u.noise && !u.abusive && u.meta.None?
  }

  /** A question the business answers, and nothing else, while no answer to a value is awaited. */
  predicate AsksOnly(b: Settings, u: Understanding, run: Option<PipelineRun>) {
    && u.slots == [] && u.affirm.None? && u.intent.Some?
    && var found := FindIntent(b.intents, u.intent.value.id);
      && found.Some? && found.value.respond.Some? && !found.value.handoff
      && Switches(run, found.value, u.intent.value)
  }

  /** A task named that begins. */
  predicate Begins(b: Settings, u: Understanding) {
    && u.intent.Some?
    && var found := FindIntent(b.intents, u.intent.value.id);
      && found.Some? && found.value.respond.None? && !found.value.handoff
      && found.value.pipeline.Some? && found.value.pipeline.value in b.pipelines
  }

  /** No task named but one that the guess is not certain enough to switch to. */
  predicate StaysWith(b: Settings, u: Understanding, r: PipelineRun) {
    u.intent.Some? ==>
      var found := FindIntent(b.intents, u.intent.value.id);
      found.Some? && !Switches(Some(r), found.value, u.intent.value)
  }

  /** The turn settles neither a value read back nor the task read back. */
  predicate Unsettled(b: Settings, u: Understanding, run: Option<PipelineRun>)
    requires run.Some? ==> run.value.pipeline in b.pipelines
  {
    run.Some? ==>
      && (run.value.step.ConfirmingSlot? ==> !Settles(b, u, run.value.step.slot))
      && (run.value.step.AwaitingConfirmation? ==> !Judges(u, b.pipelines[run.value.pipeline]))
  }

  /** Some value of the turn is taken, or noted as a place given in part. */
  ghost predicate TakesAny(b: Settings, p: Pipeline, fs: seq<SlotFill>) {
    Accepted(b, p, Checked(b, p, fs)) > 0 || AnyInPart(b, p, fs)
  }

  /** The rule is about this task, did not fire yet, and its test holds. */
  predicate Hits(rule: Rule, r: PipelineRun) {
    && (rule.pipeline.Some? ==> rule.pipeline.value == r.pipeline) && rule.id !in r.firedRules
    && rule.test(if rule.slot in r.slots then Some(r.slots[rule.slot].value) else None)
  }

  predicate NoneHits(b: Settings, r: PipelineRun) {
    forall i :: 0 <= i < |b.rules| ==> !Hits(b.rules[i], r)
  }

  /** An agent's turn that names no task, drops nothing, and goes its course. */
  predicate Simple(t: AgentTurn) {
    !t.insists && !t.abusive && !t.stuck && t.intent.None? && !t.held && t.misplaced.None? && t.stale == []
  }

  /** A detail changed while the read-back was awaited is read back before anything is only said. */
  function CourseOf(course: Course, again: bool): Course {
    if again && (course.SayOnly? || course.GoOn?) then ReadTaskBack else course
  }

  // ---------------------------------------------------------------------------------------
  // What the engine's tasks have to do with its history
  // ---------------------------------------------------------------------------------------

  /** Task `n` as it is agrees with the history: a yes is on record, a read-back, and its values. */
  ghost predicate Fits(b: Settings, k: Book, r: PipelineRun, n: nat) {
    && r.pipeline in b.pipelines && n < k.next && n in k.values && k.values[n] == ValuesOf(r.slots)
    && (r.confirmed ==> n in k.agreed) && (r.step.AwaitingConfirmation? ==> n in k.asked)
  }

  /** The tasks put aside; none of them has an action out that nothing disturbed. */
  ghost predicate TasksFit(b: Settings, k: Book, suspended: seq<PipelineRun>) {
    && |suspended| == |k.stack| && Increasing(k.stack)
    && forall i :: 0 <= i < |suspended| ==> Fits(b, k, suspended[i], k.stack[i]) && k.stack[i] !in k.spent
  }

  ghost predicate Above(stack: seq<nat>, n: nat) {
    forall i :: 0 <= i < |stack| ==> stack[i] < n
  }

  ghost predicate RunFits(b: Settings, k: Book, run: Option<PipelineRun>, n: nat) {
    run.Some? ==> Fits(b, k, run.value, n) && Above(k.stack, n) && (n in k.spent ==> run.value.step.Executing?)
  }

  /** What the current task and those put aside are, the history says too. */
  ghost predicate AllFit(b: Settings, k: Book, suspended: seq<PipelineRun>, run: Option<PipelineRun>, n: nat) {
    TasksFit(b, k, suspended) && RunFits(b, k, run, n)
  }

  /** The action the task waits for is its own, and was sent as often as the task counts. */
  ghost predicate CountsRight(b: Settings, i: Ids, run: Option<PipelineRun>, n: nat) {
    run.Some? && run.value.step.Executing? && run.value.pipeline in b.pipelines ==>
      && var id, p := run.value.step.actionRun, b.pipelines[run.value.pipeline];
      && id in i.sent && i.sent[id] == run.value.attempts && id in i.owner && i.owner[id] == n
      && p.action.Some? && run.value.attempts <= b.MaxAttempts(p.action.value)
  }

  /** An entry about the values of task `n` leaves the tasks put aside below it as they are. */
  lemma ChangeKeepsTasks(
    b: Settings, k: Book, n: nat, e: Entry, suspended: seq<PipelineRun>, r: PipelineRun, s: PipelineRun)
    requires AllFit(b, k, suspended, Some(r), n)
    requires s.pipeline == r.pipeline && s.step == r.step
    requires s.confirmed ==> r.confirmed && (e.Edited? ==> e.before == e.after)
    requires (e.Edited? && e.edited == n && e.after == ValuesOf(s.slots)) || (e.Slipped? && e.slipped == n && e.now == ValuesOf(s.slots))
    ensures AllFit(b, NextBook(k, false, e), suspended, Some(s), n)
  {
  }

  lemma BeginKeepsTasks(b: Settings, k: Book, r: PipelineRun, suspended: seq<PipelineRun>, n: nat)
    requires AllFit(b, k, suspended, None, n) && k.next !in k.spent && r.pipeline in b.pipelines && !r.confirmed && r.step.Collecting?
    ensures AllFit(b, NextBook(k, false, Began(k.next, ValuesOf(r.slots))), suspended, Some(r), k.next)
  {
  }

  lemma SuspendKeepsTasks(b: Settings, k: Book, r: PipelineRun, suspended: seq<PipelineRun>, n: nat)
    requires AllFit(b, k, suspended, Some(r), n) && n !in k.spent
    ensures AllFit(b, NextBook(k, false, Suspended(n)), suspended + [r], None, n)
    ensures k.stack == [] || k.stack[|k.stack| - 1] < n
  {
  }

  lemma ResumeKeepsTasks(b: Settings, k: Book, suspended: seq<PipelineRun>, n: nat)
    requires AllFit(b, k, suspended, None, n) && suspended != []
    ensures var last := |suspended| - 1;
      && k.stack[last] !in k.spent && suspended == suspended[..last] + [suspended[last]]
      && AllFit(b, NextBook(k, false, Resumed(k.stack[last])), suspended[..last], Some(suspended[last]), k.stack[last])
  {
    var last := |suspended| - 1;
    var next := NextBook(k, false, Resumed(k.stack[last]));
    assert next.stack == k.stack[..last];
    forall i | 0 <= i < last ensures Fits(b, next, suspended[..last][i], next.stack[i]) && next.stack[i] !in next.spent {
      assert Fits(b, k, suspended[i], k.stack[i]);
    }
    assert Fits(b, k, suspended[last], k.stack[last]);
  }

  /** A turn or trouble frees the task whose action it disturbs. */
  lemma DisturbKeepsTasks(b: Settings, k: Book, suspended: seq<PipelineRun>, run: Option<PipelineRun>, n: nat, e: Entry)
    requires AllFit(b, k, suspended, run, n) && (e.Turn? || e.Trouble?)
    requires e.busy == if run.Some? && run.value.step.Executing? then Some(n) else None
    ensures AllFit(b, NextBook(k, false, e), suspended, run, n) && (run.Some? ==> n !in NextBook(k, false, e).spent)
  {
  }

  /** A new action of the current task. */
  lemma StartKeepsTasks(b: Settings, k: Book, suspended: seq<PipelineRun>, r: PipelineRun, n: nat, e: Entry, id: nat)
    requires AllFit(b, k, suspended, Some(r), n) && e.Ran? && e.task == n
    ensures AllFit(b, NextBook(k, true, e), suspended, Some(r.(step := Executing(id), attempts := 1)), n)
  {
  }

  /** Agreeing changes no value. */
  lemma AgreedValues(r: PipelineRun, provenance: Option<Provenance>, slot: Name)
    ensures ValuesOf(AgreedTo(r, provenance).slots) == ValuesOf(r.slots)
    ensures ValuesOf(Confirming(r, slot).slots) == ValuesOf(r.slots)
  {
  }

  /** A move that does not end the task, and has what it needs. */
  predicate Stays(p: Pipeline, r: PipelineRun, m: Move) {
    match m
    case CheckValue(slot) => slot in r.slots
    case Ask(slot) => true
    case ReadItBack => p.confirm.Some?
    case Act => p.action.Some?
    case _ => false
  }

  /** The task after such a move. */
  function Moved(p: Pipeline, r: PipelineRun, m: Move, id: nat): PipelineRun
    requires Stays(p, r, m)
  {
    match m
    case CheckValue(slot) => r.(step := ConfirmingSlot(slot))
    case Ask(slot) => r.(step := Collecting(Some(slot)))
    case ReadItBack => r.(step := AwaitingConfirmation)
    case Act => r.(step := Executing(id), attempts := 1)
  }

  /** What such a move sends. */
  function Word(p: Pipeline, r: PipelineRun, m: Move, id: nat): Directive
    requires Stays(p, r, m)
  {
    match m
    case CheckValue(slot) => Speak(Check(slot, r.slots[slot].value))
    case Ask(slot) => Speak(Question(slot))
    case ReadItBack => Speak(Response(p.confirm.value.response))
    case Act => RunAction(id, p.action.value, InputOf(r))
  }

  /** What of a call a move of its task can change, beside the task. */
  datatype Seen = Seen(
    phase: Phase, suspended: seq<PipelineRun>, completed: seq<CompletedRun>, next: nat, out: seq<Directive>)

  function Saying(before: Seen, words: seq<Directive>): Seen {
    before.(out := before.out + words)
  }

  /** The call after such a move, but for the task. */
  function AfterMove(p: Pipeline, r: PipelineRun, m: Move, before: Seen): Seen
    requires Stays(p, r, m)
  {
    Saying(before, [Word(p, r, m, before.next)]).(next := if m.Act? then before.next + 1 else before.next)
  }

  lemma SuitingStays(b: Settings, p: Pipeline, r: PipelineRun, failed: seq<Attempt>, m: Move)
    requires Suits(b, p, r, failed, m) && !m.FailAgain? && !m.Finish?
    ensures Stays(p, r, m) && (m.Act? ==> Ready(b, p, r))
  {
  }

  /** From `before`, the task `r` made the move `m`, and is `run` then. */
  ghost predicate Went(
    b: Settings, failed: seq<Attempt>, p: Pipeline, r: PipelineRun, before: Seen, m: Move, run: Option<PipelineRun>, after: Seen)
  {
    && Suits(b, p, r, failed, m)
    && (!m.FailAgain? && !m.Finish? ==>
          Stays(p, r, m) && run == Some(Moved(p, r, m, before.next)) && after == AfterMove(p, r, m, before))
  }

  /** The task `r` made the move that suits it. */
  ghost predicate WentOn(
    b: Settings, failed: seq<Attempt>, p: Pipeline, r: PipelineRun, before: Seen, run: Option<PipelineRun>, after: Seen)
  {
    exists m :: Went(b, failed, p, r, before, m, run, after)
  }

  /** The task put aside last went on. */
  ghost predicate WentBack(
    b: Settings, failed: seq<Attempt>, before: Seen, cities: Values, customer: Option<Customer>, run: Option<PipelineRun>, after: Seen)
    requires before.suspended != []
  {
    var n := |before.suspended| - 1;
    var r, rest := before.suspended[n], before.suspended[..n];
    && r.pipeline in b.pipelines
    && var p := b.pipelines[r.pipeline];
      WentOn(b, failed, p, WithDefaults(Sources(rest, before.completed, cities, customer), p, r), before.(suspended := rest), run, after)
  }

  lemma WentBackWith(
    b: Settings, failed: seq<Attempt>, before: Seen, cities: Values, customer: Option<Customer>, r: PipelineRun,
    rest: seq<PipelineRun>, run: Option<PipelineRun>, after: Seen)
    requires before.suspended == rest + [r] && r.pipeline in b.pipelines
    requires var p := b.pipelines[r.pipeline];
      WentOn(b, failed, p, WithDefaults(Sources(rest, before.completed, cities, customer), p, r), before.(suspended := rest), run, after)
    ensures WentBack(b, failed, before, cities, customer, run, after)
  {
    assert before.suspended[..|rest|] == rest;
  }

  /** The task `r` was read back and awaits its answer; or what is missing first was asked for; or,
      with nothing missing and no read-back, it went on. */
  ghost predicate ReadOrAsked(
    b: Settings, failed: seq<Attempt>, p: Pipeline, r: PipelineRun, ask: bool, before: Seen, run: Option<PipelineRun>, after: Seen)
  {
    && (NoneMissing(p, r) && p.confirm.Some? ==>
          && run == Some(r.(step := AwaitingConfirmation, confirmed := false))
          && after == Saying(before, [Speak(Response(p.confirm.value.response))]))
    && (NoneMissing(p, r) && p.confirm.None? ==> WentOn(b, failed, p, r, before, run, after))
    && (!NoneMissing(p, r) ==>
          && run == Some(r)
          && exists i ::
            && 0 <= i < |p.slots| && Missing(r, p.slots[i]) && (forall j :: 0 <= j < i ==> !Missing(r, p.slots[j]))
            && after == Saying(before, if ask then [Speak(Question(p.slots[i].slot))] else []))
  }

  const REQUESTED: string := "caller_requested"

  /** The agent's course, with the task `r`; `changed`: a value of it is new. */
  ghost predicate Followed(
    b: Settings, failed: seq<Attempt>, desk: bool, src: Sources, p: Pipeline, r: PipelineRun, course: Course, asked: bool,
    changed: bool, before: Seen, run: Option<PipelineRun>, after: Seen)
  {
    var filled := WithDefaults(src, p, r);
    match course
    case SayOnly => run == Some(r) && after == Saying(before, [Speak(Free)])
    case GoOn => WentOn(b, failed, p, filled, before, run, after)
    case AskNext(question) =>
      if question.Some? then run == Some(filled) && after == Saying(before, [Speak(Question(question.value))])
      else ReadOrAsked(b, failed, p, filled, true, before, run, after)
    case GiveUp(_) => !after.phase.Active?
    case Transfer => Transferred(b, failed, desk, p, r, filled, before, run, after)
    case EndCall =>
      run == Some(r) && after == before.(phase := Ending, out := before.out + [Speak(Response(b.goodbye)), Hangup])
    case ReadTaskBack => ReadOrAsked(b, failed, p, filled, !asked, before, run, after)
    case Submit(saidYes) =>
      if saidYes && !changed && r.step.AwaitingConfirmation?
      then WentOn(b, failed, p, WithDefaults(src, p, AgreedTo(r, Some(Confirmed))), before, run, after)
      else ReadOrAsked(b, failed, p, filled, !asked, before, run, after)
  }

  /** To a person who is there; or, with the word that nobody is, on with the task. */
  ghost predicate Transferred(
    b: Settings, failed: seq<Attempt>, desk: bool, p: Pipeline, r: PipelineRun, filled: PipelineRun, before: Seen,
    run: Option<PipelineRun>, after: Seen)
  {
    if desk then
      && run == Some(r)
      && after == before.(
           phase := HandingOff, out := before.out + [Speak(Response(b.handoffResponse)), Handoff(Reason.Other(REQUESTED))])
    else WentOn(b, failed, p, filled, Saying(before, [Speak(Response(b.unavailableResponse))]), run, after)
  }

  /** What the agent's turn makes of the task `r`, when no rule hits it. */
  ghost predicate Obeyed(
    b: Settings, failed: seq<Attempt>, desk: bool, src: Sources, t: AgentTurn, r: PipelineRun, before: Seen,
    run: Option<PipelineRun>, after: Seen)
    requires r.pipeline in b.pipelines
  {
    var p := b.pipelines[r.pipeline];
    var taken := WithFills(b, p, r, t.fills);
    var changed := taken.slots != r.slots;
    NoneHits(b, taken) ==>
      Followed(b, failed, desk, src, p, taken, CourseOf(t.course, changed && r.step.AwaitingConfirmation?), t.asked, changed,
        before, run, after)
  }

  /** The values of the turn are taken, and, when no rule hits the task then, it went on. */
  ghost predicate TookValues(
    b: Settings, failed: seq<Attempt>, src: Sources, p: Pipeline, r: PipelineRun, fs: seq<SlotFill>, before: Seen,
    run: Option<PipelineRun>, after: Seen)
  {
    var taken := WithFills(b, p, Noted(b, p, r, fs), Checked(b, p, fs));
    NoneHits(b, taken) ==>
      WentOn(b, failed, p, WithDefaults(src.(cities := NotedCities(b, p, src.cities, fs)), p, taken), before, run, after)
  }

  /** The words that ask what to change. */
  function AskChange(p: Pipeline): seq<Directive> {
    if p.confirm.Some? then [Speak(Response(p.confirm.value.askChange))] else []
  }

  /** A yes to the task read back goes on with it as agreed to; a no asks what to change. */
  ghost predicate Judged(
    b: Settings, failed: seq<Attempt>, src: Sources, u: Understanding, p: Pipeline, r: PipelineRun, before: Seen,
    run: Option<PipelineRun>, after: Seen)
    requires u.affirm.Some?
  {
    if u.affirm.value then WentOn(b, failed, p, WithDefaults(src, p, AgreedTo(r, None)), before, run, after)
    else p.slots != [] ==>
      run == Some(r.(step := Collecting(None))) && after == Saying(before, AskChange(p))
  }

  /** A question is answered and the task goes on, or the values of the turn are taken. */
  ghost predicate Served(
    b: Settings, failed: seq<Attempt>, src: Sources, u: Understanding, p: Pipeline, r: PipelineRun, before: Seen,
    run: Option<PipelineRun>, after: Seen)
  {
    && (AsksOnly(b, u, Some(r)) ==>
          var answer := FindIntent(b.intents, u.intent.value.id).value.respond.value;
          WentOn(b, failed, p, WithDefaults(src, p, r), Saying(before, [Speak(Response(answer))]), run, after))
    && (StaysWith(b, u, r) && TakesAny(b, p, u.slots) ==> TookValues(b, failed, src, p, r, u.slots, before, run, after))
  }

  /** With no task, the one named begins and takes the values of the turn. */
  ghost predicate Begun(
    b: Settings, failed: seq<Attempt>, src: Sources, u: Understanding, before: Seen, run: Option<PipelineRun>, after: Seen)
  {
    Begins(b, u) ==>
      var i := FindIntent(b.intents, u.intent.value.id).value;
      var r := NewTask(b, before.completed, i.pipeline.value, i.id);
      TookValues(b, failed, src, b.pipelines[i.pipeline.value], r, u.slots, before, run, after)
  }

  /** What a turn that settles nothing read back makes of the call. */
  ghost predicate Rested(
    b: Settings, failed: seq<Attempt>, src: Sources, u: Understanding, r: Option<PipelineRun>, before: Seen,
    run: Option<PipelineRun>, after: Seen)
    requires r.Some? ==> r.value.pipeline in b.pipelines
  {
    if r.Some? then Served(b, failed, src, u, b.pipelines[r.value.pipeline], r.value, before, run, after)
    else Begun(b, failed, src, u, before, run, after)
  }

  /** What an understood turn makes of the call. */
  ghost predicate UnderstoodAs(
    b: Settings, failed: seq<Attempt>, src: Sources, u: Understanding, r: Option<PipelineRun>, before: Seen,
    run: Option<PipelineRun>, after: Seen)
    requires r.Some? ==> r.value.pipeline in b.pipelines
  {
    && (r.Some? && r.value.step.AwaitingConfirmation? && Judges(u, b.pipelines[r.value.pipeline]) ==>
          Judged(b, failed, src, u, b.pipelines[r.value.pipeline], r.value, before, run, after))
    && (Unsettled(b, u, r) ==> Rested(b, failed, src, u, r, before, run, after))
  }

  class Engine {
    const b: Settings
    var phase: Phase
    var run: Option<PipelineRun>
    var suspended: seq<PipelineRun>
    var completed: seq<CompletedRun>
    var failedActions: seq<Attempt>
    var fallbackLevel: nat
    var fallbackRestarts: nat
    var actionFailures: nat
    var silenceReprompts: nat
    var abuseStrikes: nat
    var nextActionRun: nat
    var offeredMore: bool
    var desk: bool
    var customer: Option<Customer>
    var cities: Values
    var out: seq<Directive>
    ghost var log: History
    /** The number of the current task. */
    ghost var task: nat

    ghost predicate Base()
      reads this
    {
      var t := Tally(log);
      && b.Valid() && Good(b, log) && out == Outbox(log)
      && t.mood == Mood(fallbackLevel, fallbackRestarts, silenceReprompts, phase.Active?)
      && nextActionRun >= t.ids.next && AllFit(b, t.book, suspended, run, task)
    }

    ghost predicate Calm()
      reads this
    {
      Settled(b, Tally(log))
    }

    ghost predicate Running()
      reads this
    {
      CountsRight(b, Tally(log).ids, run, task)
    }

    ghost predicate Valid()
      reads this
    {
      Base() && Calm() && Running()
    }

    function Now(): Seen
      reads this
    {
      Seen(phase, suspended, completed, nextActionRun, out)
    }

    /** From `before`, the task `r` made the move that suits it, and the call is now as that left it. */
    ghost predicate GoesOn(p: Pipeline, r: PipelineRun, before: Seen)
      reads this
    {
      WentOn(b, failedActions, p, r, before, run, Now())
    }

    /** The same of reading the task back, or asking for what is missing. */
    ghost predicate ReadsOrAsks(p: Pipeline, r: PipelineRun, ask: bool, before: Seen)
      reads this
    {
      ReadOrAsked(b, failedActions, p, r, ask, before, run, Now())
    }

    /** The task whose action is running. */
    ghost function Busy(): Option<nat>
      reads this
    {
      if run.Some? && run.value.step.Executing? then Some(task) else None
    }

    /** No action of the current task is out that nothing disturbed. */
    ghost predicate Unbound()
      reads this
    {
      run.Some? ==> task !in Tally(log).book.spent
    }

    /** Of the history's sum only the mood is another. */
    twostate predicate OnlyMood()
      reads this
    {
      Tally(log) == old(Tally(log)).(mood := Tally(log).mood)
    }

    /** Only the values of tasks are others. */
    twostate predicate OnlyValues()
      reads this
    {
      Tally(log) == old(Tally(log)).(book := old(Tally(log)).book.(values := Tally(log).book.values))
    }

    /** Only the values of tasks are others, and the agreements that go with them. */
    twostate predicate OnlyEdits()
      reads this
    {
      Tally(log) == old(Tally(log)).(book :=
        old(Tally(log)).book.(agreed := Tally(log).book.agreed, values := Tally(log).book.values))
    }

    /** The caller took no turn. */
    twostate predicate SameTurns()
      reads this
    {
      Tally(log).turns == old(Tally(log)).turns
    }

    function Sources(): Sources
      reads this
    {
      Tasks.Sources(suspended, completed, cities, customer)
    }

    constructor (b: Settings, desk: bool, customer: Option<Customer>)
      requires b.Valid()
      ensures Valid() && this.b == b && this.desk == desk && phase == Active && log == Start
      ensures run == None && suspended == [] && completed == [] && failedActions == [] && out == [] && nextActionRun == 1
    {
      this.b := b;
      phase, run, suspended, completed, failedActions := Active, None, [], [], [];
      fallbackLevel, fallbackRestarts, actionFailures, silenceReprompts, abuseStrikes := 0, 0, 0, 0, 0;
      nextActionRun, offeredMore := 1, false;
      this.desk, this.customer, cities := desk, customer, map[];
      out, log, task := [], Start, 0;
    }

    // -------------------------------------------------------------------------------------
    // Single steps
    // -------------------------------------------------------------------------------------

    method Say(s: Speech)
      requires Base()
      modifies this`out, this`log
      ensures Base() && Tally(log) == old(Tally(log)) && out == old(out) + [Speak(s)]
    {
      out := out + [Speak(s)];
      log := Then(log, Sent(Speak(s)));
    }

    method SayIfAny(r: Option<Name>)
      requires Base()
      modifies this`out, this`log
      ensures Base() && Tally(log) == old(Tally(log))
      ensures out == old(out) + if r.Some? then [Speak(Response(r.value))] else []
    {
      if r.Some? {
        Say(Response(r.value));
      }
    }

    /** The call goes to a person, or ends. */
    method Leave(d: Directive)
      requires Base() && (d.Hangup? || d.Handoff?)
      modifies this`phase, this`out, this`log
      ensures Base() && Calm() && out == old(out) + [d] && phase == if d.Hangup? then Ending else HandingOff
      ensures OnlyMood()
    {
      phase := if d.Hangup? then Ending else HandingOff;
      out := out + [d];
      log := Then(log, Sent(d));
    }

    /** The caller's turn, a yes or not: the silences start over. */
    method HearTurn(yes: bool)
      requires Base()
      modifies this`silenceReprompts, this`log
      ensures Base() && Unbound() && log == Then(old(log), Turn(yes, Busy()))
      ensures Tally(log).turns == old(Tally(log)).turns + [yes] && Tally(log).ids == old(Tally(log)).ids && silenceReprompts == 0
    {
      DisturbKeepsTasks(b, Tally(log).book, suspended, run, task, Turn(yes, Busy()));
      silenceReprompts := 0;
      log := Then(log, Turn(yes, Busy()));
    }

    /** Something outside the conversation went wrong. */
    method HearTrouble()
      requires Base()
      modifies this`log
      ensures Base() && Unbound() && log == Then(old(log), Trouble(Busy()))
      ensures Tally(log).turns == old(Tally(log)).turns && Tally(log).ids == old(Tally(log)).ids && Tally(log).mood == old(Tally(log)).mood
    {
      DisturbKeepsTasks(b, Tally(log).book, suspended, run, task, Trouble(Busy()));
      log := Then(log, Trouble(Busy()));
    }

    /** Something was understood, and an answer to it. */
    method SayUnderstood(s: Speech)
      requires Base()
      modifies this`fallbackLevel, this`out, this`log
      ensures Base() && OnlyMood() && fallbackLevel == 0 && out == old(out) + [Speak(s)]
    {
      ResetFallbacks();
      Say(s);
    }

    method ResetFallbacks()
      requires Base()
      modifies this`fallbackLevel, this`log
      ensures Base() && OnlyMood() && fallbackLevel == 0
    {
      fallbackLevel := 0;
      log := Then(log, Understood);
    }

    /** The current task after `Set`, `Clear` or `Undo`. */
    method Edit(r: PipelineRun)
      requires Base() && run.Some?
      requires r.pipeline == run.value.pipeline && r.step == run.value.step && r.attempts == run.value.attempts
      requires r.confirmed ==> run.value.confirmed && ValuesOf(r.slots) == ValuesOf(run.value.slots)
      modifies this`run, this`log
      ensures Base() && run == Some(r)
      ensures log == Then(old(log), Edited(task, ValuesOf(old(run).value.slots), ValuesOf(r.slots)))
      ensures OnlyEdits()
    {
      ghost var e := Edited(task, ValuesOf(run.value.slots), ValuesOf(r.slots));
      ChangeKeepsTasks(b, Tally(log).book, task, e, suspended, run.value, r);
      run := Some(r);
      log := Then(log, e);
    }

    method SetSlot(slot: Name, state: SlotState)
      requires Base() && run.Some?
      modifies this`run, this`log
      ensures Base() && run == Some(Set(old(run).value, slot, state))
      ensures log == Then(old(log), Edited(task, ValuesOf(old(run).value.slots), ValuesOf(run.value.slots)))
      ensures OnlyEdits()
    {
      AgreementKeepsValues(run.value, slot, state);
      Edit(Set(run.value, slot, state));
    }

    method ClearSlot(slot: Name)
      requires Base() && run.Some?
      modifies this`run, this`log
      ensures Base() && run == Some(Clear(old(run).value, slot))
      ensures log == Then(old(log), Edited(task, ValuesOf(old(run).value.slots), ValuesOf(run.value.slots)))
      ensures OnlyEdits()
    {
      AgreementKeepsValues(run.value, slot, SlotState("", 0.0, Rules, false));
      Edit(Clear(run.value, slot));
    }

    method UndoLast()
      requires Base() && run.Some?
      modifies this`run, this`log
      ensures Base() && run == Some(Undo(old(run).value))
      ensures log == Then(old(log), Edited(task, ValuesOf(old(run).value.slots), ValuesOf(run.value.slots)))
      ensures OnlyEdits()
    {
      AgreementKeepsValues(run.value, "", SlotState("", 0.0, Rules, false));
      Edit(Undo(run.value));
    }

    /** Another step, which is not the wait for an answer to a read-back. */
    method SetStep(step: Step)
      requires Base() && Unbound() && run.Some? && !step.AwaitingConfirmation? && !step.Executing?
      modifies this`run
      ensures Base() && Unbound() && Running() && run == Some(old(run).value.(step := step))
    {
      run := Some(run.value.(step := step));
    }

    /** The task read back, and its answer awaited. */
    method SayReadBack(response: Name)
      requires Base() && Unbound() && run.Some?
      modifies this`run, this`out, this`log
      ensures Base() && Running() && run == Some(old(run).value.(step := AwaitingConfirmation))
      ensures log == Then(old(log), ReadBack(task, response, ValuesOf(run.value.slots)))
      ensures out == old(out) + [Speak(Response(response))]
    {
      out := out + [Speak(Response(response))];
      log := Then(log, ReadBack(task, response, ValuesOf(run.value.slots)));
      run := Some(run.value.(step := AwaitingConfirmation));
    }

    /** A yes to the read-back: everything in it is agreed to. */
    method Agree(provenance: Option<Provenance>)
      requires Base() && run.Some? && run.value.step.AwaitingConfirmation? && YesNow(Tally(log))
      modifies this`run, this`log
      ensures Base() && Unbound() && Running() && log == Then(old(log), Yes(task, AwaitingConfirmation))
      ensures run == Some(AgreedTo(old(run).value, provenance))
    {
      AgreedValues(run.value, provenance, "");
      run := Some(AgreedTo(run.value, provenance));
      log := Then(log, Yes(task, AwaitingConfirmation));
    }

    /** A new task in the place of the current one. */
    method Begin(r: PipelineRun)
      requires Base() && run.None? && r.pipeline in b.pipelines && !r.confirmed && r.step.Collecting?
      modifies this`run, this`log, this`task
      ensures Base() && Unbound() && Running() && run == Some(r) && log == Then(old(log), Began(task, ValuesOf(r.slots)))
      ensures Tally(log) == old(Tally(log)).(book := Tally(log).book)
    {
      NextIsNotSpent(b, log);
      BeginKeepsTasks(b, Tally(log).book, r, suspended, task);
      task := Tally(log).book.next;
      log := Then(log, Began(task, ValuesOf(r.slots)));
      run := Some(r);
    }

    /** The current task put aside. */
    method Suspend()
      requires Base() && Unbound() && run.Some?
      modifies this`run, this`suspended, this`log
      ensures Base() && run == None && suspended == old(suspended) + [old(run).value]
      ensures log == Then(old(log), Suspended(task))
    {
      SuspendKeepsTasks(b, Tally(log).book, run.value, suspended, task);
      suspended := suspended + [run.value];
      run := None;
      log := Then(log, Suspended(task));
    }

    /** The task put aside last, current again. */
    method Resume()
      requires Base() && run.None? && suspended != []
      modifies this`run, this`suspended, this`log, this`task
      ensures Base() && Unbound() && run.Some? && old(suspended) == suspended + [run.value]
      ensures log == Then(old(log), Resumed(task)) && Tally(log) == old(Tally(log)).(book := Tally(log).book)
    {
      var last := |suspended| - 1;
      ResumeKeepsTasks(b, Tally(log).book, suspended, task);
      assert |suspended| == |Tally(log).book.stack|;
      task := Tally(log).book.stack[last];
      run := Some(suspended[last]);
      suspended := suspended[..last];
      log := Then(log, Resumed(task));
    }

    /** A new action of the current task. */
    method StartAction(action: Name)
      requires Base() && Unbound() && run.Some? && b.pipelines[run.value.pipeline].action == Some(action)
      requires Ready(b, b.pipelines[run.value.pipeline], run.value)
      modifies this`run, this`nextActionRun, this`out, this`log
      ensures Base() && Running() && nextActionRun == old(nextActionRun) + 1
      ensures run == Some(old(run).value.(step := Executing(old(nextActionRun)), attempts := 1))
      ensures out == old(out) + [RunAction(old(nextActionRun), action, InputOf(old(run).value))]
      ensures log == Then(old(log), Ran(task, old(nextActionRun), action, InputOf(old(run).value)))
    {
      var id, input := nextActionRun, InputOf(run.value);
      assert Complete(b.pipelines[run.value.pipeline], input.slots);
      NextIsNotSent(b, log, id);
      StartKeepsTasks(b, Tally(log).book, suspended, run.value, task, Ran(task, id, action, input), id);
      nextActionRun := id + 1;
      run := Some(run.value.(step := Executing(id), attempts := 1));
      out := out + [RunAction(id, action, input)];
      log := Then(log, Ran(task, id, action, input));
    }

    /** The same action again, under its own id. */
    method RetryAction(action: Name)
      requires Valid() && run.Some? && run.value.step.Executing?
      requires b.pipelines[run.value.pipeline].action == Some(action) && run.value.attempts < b.MaxAttempts(action)
      modifies this`run, this`out, this`log
      ensures Valid() && run == Some(old(run).value.(attempts := old(run).value.attempts + 1))
      ensures out == old(out) + [RunAction(run.value.step.actionRun, action, InputOf(run.value))]
      ensures log == Then(old(log), Ran(task, run.value.step.actionRun, action, InputOf(run.value)))
    {
      var id, input := run.value.step.actionRun, InputOf(run.value);
      run := Some(run.value.(attempts := run.value.attempts + 1));
      out := out + [RunAction(id, action, input)];
      log := Then(log, Ran(task, id, action, input));
    }

    // -------------------------------------------------------------------------------------
    // Going on with a task
    // -------------------------------------------------------------------------------------

    /** The current task's pipeline. */
    function PipelineOf(): Pipeline
      requires run.Some? && run.value.pipeline in b.pipelines
      reads this
    {
      b.pipelines[run.value.pipeline]
    }

    /** The current task with every value that needs no question. */
    function Filled(all: bool): PipelineRun
      requires run.Some? && run.value.pipeline in b.pipelines
      reads this
    {
      run.value.(slots := FillSlots(Sources(), all, PipelineOf().slots, run.value.slots))
    }

    /** Values that come or go outside the journal. */
    method Slip(slots: map<Name, SlotState>)
      requires Base() && run.Some?
      modifies this`run, this`log
      ensures Base() && run == Some(old(run).value.(slots := slots)) && (old(Running()) ==> Running())
      ensures log == Then(old(log), Slipped(task, ValuesOf(old(run).value.slots), ValuesOf(slots)))
      ensures OnlyValues()
    {
      ghost var e := Slipped(task, ValuesOf(run.value.slots), ValuesOf(slots));
      ChangeKeepsTasks(b, Tally(log).book, task, e, suspended, run.value, run.value.(slots := slots));
      run := Some(run.value.(slots := slots));
      log := Then(log, e);
    }

    method FillDefaults(all: bool)
      requires Base() && run.Some?
      modifies this`run, this`log
      ensures Base() && run == Some(old(Filled(all))) && (old(Running()) ==> Running())
      ensures log == Then(old(log), Slipped(task, ValuesOf(old(run).value.slots), ValuesOf(run.value.slots)))
      ensures OnlyValues()
    {
      var ps, src, slots, i := PipelineOf().slots, Sources(), run.value.slots, 0;
      while i < |ps|
        invariant i <= |ps| && slots == FillSlots(src, all, ps[..i], run.value.slots)
      {
        assert ps[..i + 1][..i] == ps[..i];
        slots := FillSlot(src, all, ps[i], slots);
        i := i + 1;
      }
      assert ps[..i] == ps;
      Slip(slots);
    }

    method SayAndLeave(response: Name, d: Directive)
      requires Base() && (d.Hangup? || d.Handoff?)
      modifies this`phase, this`out, this`log
      ensures Base() && Calm() && OnlyMood() && phase == if d.Hangup? then Ending else HandingOff
      ensures out == old(out) + [Speak(Response(response)), d]
    {
      Say(Response(response));
      Leave(d);
    }

    method SayGoodbye()
      requires Base()
      modifies this`phase, this`out, this`log
      ensures Base() && Calm() && phase == Ending && OnlyMood()
      ensures out == old(out) + [Speak(Response(b.goodbye)), Hangup]
    {
      SayAndLeave(b.goodbye, Hangup);
    }

    method OfferMore()
      requires Base()
      modifies this`offeredMore, this`out, this`log
      ensures Base() && offeredMore && Tally(log) == old(Tally(log)) && out == old(out) + [Speak(Response(b.anythingElse))]
    {
      Say(Response(b.anythingElse));
      offeredMore := true;
    }

    /** No task is left: the caller is asked for more, or the call ends. */
    method AfterTask(p: Pipeline, outcome: Outcome)
      requires Base() && Calm() && run.None?
      modifies this`phase, this`offeredMore, this`out, this`log
      ensures Valid() && SameTurns()
      ensures if p.after.End? && outcome.Success? then phase == Ending else phase == old(phase) && offeredMore
    {
      if p.after.Continue? && p.offer.Some? {
        Say(Response(p.offer.value));
        offeredMore := true;
      } else if p.after.End? && outcome.Success? {
        SayGoodbye();
      } else {
        OfferMore();
      }
    }

    /** The current task ends; one put aside goes on, or the caller is asked for more, or the call ends. */
    method FinishRun(outcome: Outcome)
      requires Base() && Calm() && run.Some?
      modifies this`run, this`suspended, this`completed, this`nextActionRun, this`phase, this`offeredMore,
        this`out, this`log, this`task
      ensures Valid() && SameTurns() && (phase.Active? ==> old(phase).Active?)
      ensures old(completed) + [Record(old(run).value, outcome)] <= completed
      ensures suspended <= old(suspended) && (old(suspended) != [] ==> |suspended| < |old(suspended)|)
      ensures old(suspended) == [] ==> run.None? && completed == old(completed) + [Record(old(run).value, outcome)]
      ensures old(suspended) == [] ==> (phase == old(phase) && offeredMore) || (phase == Ending && outcome.Success?)
      ensures old(suspended) != [] ==> WentBack(b, failedActions,
        old(Now()).(completed := old(completed) + [Record(old(run).value, outcome)]), cities, customer, run, Now())
      decreases |suspended|, 0
    {
      var p := PipelineOf();
      completed := completed + [Record(run.value, outcome)];
      run := None;
      if suspended != [] {
        GoBack();
      } else {
        AfterTask(p, outcome);
      }
    }

    /** The task put aside last goes on. */
    method GoBack()
      requires Base() && Calm() && run.None? && suspended != []
      modifies this`run, this`suspended, this`completed, this`nextActionRun, this`phase, this`offeredMore,
        this`out, this`log, this`task
      ensures Valid() && SameTurns() && (phase.Active? ==> old(phase).Active?)
      ensures old(completed) <= completed && suspended <= old(suspended) && |suspended| < |old(suspended)|
      ensures WentBack(b, failedActions, old(Now()), cities, customer, run, Now())
      decreases |suspended| - 1, 4
    {
      Resume();
      ghost var r, rest := run.value, suspended;
      assert Now() == old(Now()).(suspended := rest) && Sources() == Tasks.Sources(rest, completed, cities, customer);
      Advance();
      WentBackWith(b, failedActions, old(Now()), cities, customer, r, rest, run, Now());
    }

    method Conclude(words: Option<Name>, outcome: Outcome)
      requires Base() && Calm() && run.Some?
      modifies this`run, this`suspended, this`completed, this`nextActionRun, this`phase, this`offeredMore,
        this`out, this`log, this`task
      ensures Valid() && SameTurns() && (phase.Active? ==> old(phase).Active?)
      ensures old(completed) + [Record(old(run).value, outcome)] <= completed
      ensures old(completed) <= completed && suspended <= old(suspended)
      decreases |suspended|, 1
    {
      SayIfAny(words);
      FinishRun(outcome);
    }

    /** A step that waits for the caller, and its question. */
    method AskFor(step: Step, words: Speech)
      requires Base() && Unbound() && Calm() && run.Some? && !step.AwaitingConfirmation? && !step.Executing?
      modifies this`run, this`out, this`log
      ensures Valid() && SameTurns() && run == Some(old(run).value.(step := step)) && out == old(out) + [Speak(words)]
    {
      SetStep(step);
      Say(words);
    }

    method AskMove(m: Move)
      requires Base() && Unbound() && Calm() && run.Some? && Stays(PipelineOf(), run.value, m) && !m.Act?
      modifies this`run, this`out, this`log
      ensures Valid() && SameTurns() && run == Some(Moved(old(PipelineOf()), old(run).value, m, nextActionRun))
      ensures out == old(out) + [Word(old(PipelineOf()), old(run).value, m, nextActionRun)]
    {
      if m.ReadItBack? {
        SayReadBack(PipelineOf().confirm.value.response);
      } else if m.CheckValue? {
        AskFor(ConfirmingSlot(m.slot), Check(m.slot, run.value.slots[m.slot].value));
      } else {
        AskFor(Collecting(Some(m.slot)), Question(m.slot));
      }
    }

    /** A move after which the caller, or the action, has the next word. */
    method MakeMove(m: Move)
      requires Base() && Unbound() && Calm() && run.Some? && Stays(PipelineOf(), run.value, m)
      requires m.Act? ==> Ready(b, PipelineOf(), run.value)
      modifies this`run, this`nextActionRun, this`out, this`log
      ensures Valid() && SameTurns()
      ensures run == Some(Moved(old(PipelineOf()), old(run).value, m, old(nextActionRun)))
      ensures Now() == AfterMove(old(PipelineOf()), old(run).value, m, old(Now()))
    {
      if m.Act? {
        StartAction(PipelineOf().action.value);
      } else {
        AskMove(m);
      }
    }

    method Decide() returns (m: Move)
      requires Base() && run.Some?
      modifies this`run, this`log
      ensures Base() && run == Some(old(Filled(true))) && OnlyValues()
      ensures Suits(b, old(PipelineOf()), run.value, failedActions, m)
    {
      FillDefaults(true);
      m := Choose(b, PipelineOf(), run.value, failedActions);
    }

    /** The task, filled, makes its move. */
    method GoBy(m: Move)
      requires Base() && Unbound() && Calm() && run.Some? && Suits(b, PipelineOf(), run.value, failedActions, m)
      modifies this`run, this`suspended, this`completed, this`nextActionRun, this`phase, this`offeredMore,
        this`out, this`log, this`task
      ensures Valid() && SameTurns() && (phase.Active? ==> old(phase).Active?)
      ensures suspended <= old(suspended) && old(completed) <= completed
      ensures GoesOn(old(PipelineOf()), old(run).value, old(Now()))
      ensures m.FailAgain? || m.Finish? ==>
        old(completed) + [Record(old(run).value, if m.Finish? then Completed else Failed)] <= completed
      decreases |suspended|, 2
    {
      var p := PipelineOf();
      ghost var r, before, failed := run.value, Now(), failedActions;
      if m.FailAgain? {
        nextActionRun := nextActionRun + 1;
        Conclude(p.onFailure, Failed);
      } else if m.Finish? {
        Conclude(p.onComplete, Completed);
      } else {
        SuitingStays(b, p, r, failed, m);
        MakeMove(m);
      }
      assert Went(b, failed, p, r, before, m, run, Now());
    }

    /** Fill the task, choose the move that suits it, and make it. */
    method Advance()
      requires Base() && Unbound() && Calm() && run.Some?
      modifies this`run, this`suspended, this`completed, this`nextActionRun, this`phase, this`offeredMore,
        this`out, this`log, this`task
      ensures Valid() && SameTurns() && (phase.Active? ==> old(phase).Active?)
      ensures suspended <= old(suspended) && old(completed) <= completed
      ensures GoesOn(old(PipelineOf()), old(Filled(true)), old(Now()))
      decreases |suspended|, 3
    {
      var m := Decide();
      GoBy(m);
    }

    // -------------------------------------------------------------------------------------
    // Not understood
    // -------------------------------------------------------------------------------------

    method StartLadderOver(response: Name)
      requires Base() && fallbackRestarts == 0 && fallbackLevel > |b.ladder|
      modifies this`fallbackLevel, this`fallbackRestarts, this`out, this`log
      ensures Base() && OnlyMood() && fallbackLevel == 0 && fallbackRestarts == 1
    {
      fallbackRestarts := fallbackRestarts + 1;
      fallbackLevel := 0;
      log := Then(log, Restarted);
      Say(Response(response));
    }

    /** The call goes to a person; with none there it starts over, ends or goes on. */
    method HandOver(reason: Reason)
      requires Base() && Running() && (phase.Active? ==> silenceReprompts <= b.Patience())
      requires if reason.NotUnderstood? then phase.Active? && fallbackLevel == |b.ladder| + 1 else Calm()
      requires reason.NotUnderstood? || reason.ActionFailed? || desk || Unbound()
      modifies this`run, this`suspended, this`completed, this`nextActionRun, this`phase, this`offeredMore,
        this`out, this`log, this`task, this`fallbackLevel, this`fallbackRestarts
      ensures Valid() && SameTurns() && (phase.Active? ==> old(phase).Active?) && suspended <= old(suspended)
      ensures desk ==>
        && run == old(run)
        && Now() == old(Now()).(phase := HandingOff, out := old(out) + [Speak(Response(b.handoffResponse)), Handoff(reason)])
      ensures !desk && !reason.NotUnderstood? && !reason.ActionFailed? && old(run).Some? ==>
        GoesOn(old(PipelineOf()), old(Filled(true)), Saying(old(Now()), [Speak(Response(b.unavailableResponse))]))
      ensures !desk && (reason.NotUnderstood? || reason.ActionFailed?) ==>
        if reason.NotUnderstood? && old(fallbackRestarts) == 0 && b.restart.Some?
        then phase == old(phase) && fallbackLevel == 0 && fallbackRestarts == 1 && run == old(run)
        else phase == Ending
      ensures !reason.NotUnderstood? ==> fallbackLevel == old(fallbackLevel) && fallbackRestarts == old(fallbackRestarts)
    {
      if desk {
        SayAndLeave(b.handoffResponse, Handoff(reason));
      } else if reason.NotUnderstood? && fallbackRestarts == 0 && b.restart.Some? {
        StartLadderOver(b.restart.value);
      } else {
        NobodyThere(reason);
      }
    }

    method NobodyThere(reason: Reason)
      requires Base() && Running() && (reason.NotUnderstood? || Calm())
      requires reason.NotUnderstood? || reason.ActionFailed? || Unbound()
      modifies this`run, this`suspended, this`completed, this`nextActionRun, this`phase, this`offeredMore,
        this`out, this`log, this`task
      ensures Valid() && SameTurns() && (phase.Active? ==> old(phase).Active?) && suspended <= old(suspended)
      ensures reason.NotUnderstood? || reason.ActionFailed? ==> phase == Ending
      ensures !reason.NotUnderstood? && !reason.ActionFailed? && old(run).Some? ==>
        GoesOn(old(PipelineOf()), old(Filled(true)), Saying(old(Now()), [Speak(Response(b.unavailableResponse))]))
    {
      if reason.NotUnderstood? || reason.ActionFailed? {
        SayAndLeave(b.unavailableResponse, Hangup);
      } else {
        Say(Response(b.unavailableResponse));
        if run.Some? {
          Advance();
        }
      }
    }

    method Fall()
      requires Base() && Calm() && phase.Active?
      modifies this`fallbackLevel, this`log
      ensures Base() && fallbackLevel == old(fallbackLevel) + 1
      ensures OnlyMood()
    {
      fallbackLevel := fallbackLevel + 1;
      log := Then(log, Fell);
    }

    /** One more step down the ladder, and the question again; past its end, a person. */
    method Fallback()
      requires Valid() && Unbound() && phase.Active?
      modifies this`run, this`suspended, this`completed, this`nextActionRun, this`phase, this`offeredMore,
        this`out, this`log, this`task, this`fallbackLevel, this`fallbackRestarts
      ensures Valid() && SameTurns() && suspended <= old(suspended)
      ensures phase.Active? ==> OneRungDown(old(fallbackLevel), old(fallbackRestarts))
      ensures old(fallbackLevel) < |b.ladder| ==> fallbackLevel == old(fallbackLevel) + 1 && fallbackRestarts == old(fallbackRestarts)
      ensures old(fallbackLevel) == |b.ladder| && phase.Active? ==>
        !desk && b.restart.Some? && fallbackLevel == 0 && old(fallbackRestarts) == 0 && fallbackRestarts == 1
    {
      Fall();
      if fallbackLevel > |b.ladder| {
        HandOver(NotUnderstood);
      } else if run.Some? && !run.value.step.Executing? {
        Say(Response(b.ladder[0]));
        Advance();
      } else {
        Say(Response(b.ladder[fallbackLevel - 1]));
      }
    }

    /** A person takes the call, or it ends. */
    method ForceHandoff(why: string)
      requires Valid() && (phase.Active? ==> Unbound())
      modifies this`run, this`suspended, this`completed, this`nextActionRun, this`phase, this`offeredMore,
        this`out, this`log, this`task, this`fallbackLevel, this`fallbackRestarts
      ensures Valid() && SameTurns() && !phase.Active? && (old(phase) != Active ==> unchanged(this))
    {
      if phase != Active {
        return;
      }
      HandOver(Other(why));
      if phase == Active {
        Leave(Hangup);
      }
    }

    /** A fault of the system: the call cannot go on. */
    method OnFault(why: string)
      requires Valid()
      modifies this`run, this`suspended, this`completed, this`nextActionRun, this`phase, this`offeredMore,
        this`out, this`log, this`task, this`fallbackLevel, this`fallbackRestarts
      ensures Valid() && SameTurns() && !phase.Active? && (old(phase) != Active ==> unchanged(this))
    {
      if phase == Active {
        HearTrouble();
        ForceHandoff(why);
      }
    }

    /** The caller said nothing for a while. */
    method OnSilence()
      requires Valid()
      modifies this`phase, this`offeredMore, this`out, this`log, this`silenceReprompts
      ensures Valid() && SameTurns() && (phase.Active? ==> old(phase).Active?)
      ensures old(phase) != Active || (run.Some? && run.value.step.Executing?) ==> unchanged(this)
      ensures phase.Active? && !(run.Some? && run.value.step.Executing?) ==> silenceReprompts == old(silenceReprompts) + 1
      ensures old(phase).Active? && run.None? && old(silenceReprompts) >= b.maxReprompts ==> phase == Ending
    {
      if phase != Active || (run.Some? && run.value.step.Executing?) {
        return;
      }
      if offeredMore && run.None? && completed != [] && completed[|completed| - 1].outcome.Success? {
        SayGoodbye();
        return;
      }
      CountSilence();
      var inTask := run.Some? && |run.value.slots| > 0;
      var patient := if inTask && b.patientResponse.Some? then b.patientReprompts else 0;
      if silenceReprompts > b.maxReprompts + patient {
        SayGoodbye();
      } else if silenceReprompts > b.maxReprompts && b.patientResponse.Some? {
        Say(Response(b.patientResponse.value));
      } else {
        SayIfAny(b.silenceResponse);
        Say(Repeat);
      }
    }

    method CountSilence()
      requires Valid() && phase.Active?
      modifies this`silenceReprompts, this`log
      ensures Base() && Running() && silenceReprompts == old(silenceReprompts) + 1
      ensures OnlyMood()
    {
      silenceReprompts := silenceReprompts + 1;
      log := Then(log, Quiet);
    }

    // -------------------------------------------------------------------------------------
    // Results of actions
    // -------------------------------------------------------------------------------------

    /** The call is waiting for this id. */
    predicate Awaits(id: nat)
      reads this
    {
      run.Some? && run.value.step == Executing(id)
    }

    /** A task closed without a word, the call being handed over. */
    method CloseRun(outcome: Outcome)
      requires Valid()
      modifies this`run, this`completed
      ensures Valid() && run.None?
      ensures completed == old(completed) + if old(run).Some? then [Record(old(run).value, outcome)] else []
    {
      if run.Some? {
        completed := completed + [Record(run.value, outcome)];
        run := None;
      }
    }

    method HandOverUnknown(words: Option<Name>)
      requires Valid() && desk
      modifies this`run, this`suspended, this`completed, this`nextActionRun, this`phase, this`offeredMore,
        this`out, this`log, this`task, this`fallbackLevel, this`fallbackRestarts
      ensures Valid() && SameTurns() && phase == HandingOff && run == old(run) && completed == old(completed)
      ensures suspended == old(suspended)
    {
      SayIfAny(words);
      HandOver(OutcomeUnknown);
    }

    /** No outcome is known: the desk gets the call; without one the task is recorded as unknown. */
    method OnUnknown()
      requires Valid() && run.Some?
      modifies this`run, this`suspended, this`completed, this`nextActionRun, this`phase, this`offeredMore,
        this`out, this`log, this`task, this`fallbackLevel, this`fallbackRestarts
      ensures Valid() && SameTurns() && (phase.Active? ==> old(phase).Active?) && suspended <= old(suspended)
      ensures desk ==> phase == HandingOff && run.None? && completed == old(completed) + [Record(old(run).value, Unknown)]
      ensures !desk ==> old(completed) + [Record(old(run).value, Unknown)] <= completed
    {
      if desk {
        HandOverUnknown(PipelineOf().onUnknown);
        CloseRun(Unknown);
      } else {
        FinishRun(Unknown);
      }
    }

    /** Failures of changing actions are counted; others are kept, with their values. */
    method CountFailure(action: Name)
      requires Valid() && run.Some?
      modifies this`actionFailures, this`failedActions
      ensures Valid() && actionFailures == old(actionFailures) + if b.Changes(action) then 1 else 0
      ensures !b.Changes(action) ==> (action, ValuesOf(run.value.slots)) in failedActions
    {
      if b.Changes(action) {
        actionFailures := actionFailures + 1;
      } else if (action, ValuesOf(run.value.slots)) !in failedActions {
        failedActions := failedActions + [(action, ValuesOf(run.value.slots))];
      }
    }

    /** A failure after the last attempt. */
    method OnFailure(action: Name)
      requires Valid() && run.Some?
      modifies this`run, this`suspended, this`completed, this`nextActionRun, this`phase, this`offeredMore,
        this`out, this`log, this`task, this`fallbackLevel, this`fallbackRestarts, this`actionFailures,
        this`failedActions
      ensures Valid() && SameTurns() && (phase.Active? ==> old(phase).Active?) && suspended <= old(suspended)
      ensures actionFailures == old(actionFailures) + if b.Changes(action) then 1 else 0
      ensures !b.Changes(action) ==> (action, ValuesOf(old(run).value.slots)) in failedActions
      ensures actionFailures >= b.afterActionFailures ==> !phase.Active?
    {
      var p := PipelineOf();
      CountFailure(action);
      EndFailed(p.onFailure, actionFailures >= b.afterActionFailures);
    }

    /** The task that failed ends, or the call goes to a person. */
    method EndFailed(words: Option<Name>, tooMany: bool)
      requires Valid() && run.Some?
      modifies this`run, this`suspended, this`completed, this`nextActionRun, this`phase, this`offeredMore,
        this`out, this`log, this`task, this`fallbackLevel, this`fallbackRestarts
      ensures Valid() && SameTurns() && (phase.Active? ==> old(phase).Active?) && suspended <= old(suspended)
      ensures tooMany ==> !phase.Active?
    {
      SayIfAny(words);
      if tooMany {
        HandOver(ActionFailed);
      } else {
        FinishRun(Failed);
      }
    }

    method OnActionResult(id: nat, result: ActionResult)
      requires Valid()
      modifies this`run, this`suspended, this`completed, this`nextActionRun, this`phase, this`offeredMore,
        this`out, this`log, this`task, this`fallbackLevel, this`fallbackRestarts, this`actionFailures,
        this`failedActions
      ensures Valid() && SameTurns() && (phase.Active? ==> old(phase).Active?) && suspended <= old(suspended)
      ensures !old(Awaits(id)) ==> unchanged(this)
      ensures old(Awaits(id)) && result.Ok? ==> old(completed) + [Record(old(run).value, Success)] <= completed
      ensures old(Awaits(id)) && result.Err? && old(run).value.attempts < b.MaxAttempts(old(PipelineOf()).action.value) ==>
        && run == Some(old(run).value.(attempts := old(run).value.attempts + 1))
        && out == old(out) + [RunAction(id, old(PipelineOf()).action.value, InputOf(old(run).value))]
    {
      if !Awaits(id) {
        return;
      }
      var p := PipelineOf();
      var action := p.action.value;
      match result
      case Ok(named) =>
        SayIfAny(if named.Some? then named else p.onSuccess);
        FinishRun(Success);
      case Err(outcomeUnknown) =>
        if run.value.attempts < b.MaxAttempts(action) {
          RetryAction(action);
        } else if outcomeUnknown {
          OnUnknown();
        } else {
          OnFailure(action);
        }
    }

    // -------------------------------------------------------------------------------------
    // Reading a task back, and its values
    // -------------------------------------------------------------------------------------

    /** Filled first; then the read-back, or the first question before it, if asking is wanted. */
    method ReadTask(askIfMissing: bool)
      requires Valid() && Unbound() && run.Some?
      modifies this`run, this`suspended, this`completed, this`nextActionRun, this`phase, this`offeredMore,
        this`out, this`log, this`task
      ensures Valid() && SameTurns() && (phase.Active? ==> old(phase).Active?) && suspended <= old(suspended)
      ensures ReadsOrAsks(old(PipelineOf()), old(Filled(true)), askIfMissing, old(Now()))
    {
      FillingTwice(Sources(), PipelineOf().slots, run.value.slots);
      FillDefaults(true);
      assert Filled(true) == run.value;
      ReadFilled(askIfMissing);
    }

    /** Read back again, an earlier yes forgotten. */
    method ReadBackAnew(response: Name)
      requires Valid() && Unbound() && run.Some?
      modifies this`run, this`out, this`log
      ensures Valid() && SameTurns() && run == Some(old(run).value.(step := AwaitingConfirmation, confirmed := false))
      ensures out == old(out) + [Speak(Response(response))]
    {
      run := Some(run.value.(confirmed := false));
      SayReadBack(response);
    }

    method ReadFilled(askIfMissing: bool)
      requires Valid() && Unbound() && run.Some? && Filled(true) == run.value
      modifies this`run, this`suspended, this`completed, this`nextActionRun, this`phase, this`offeredMore,
        this`out, this`log, this`task
      ensures Valid() && SameTurns() && (phase.Active? ==> old(phase).Active?) && suspended <= old(suspended)
      ensures ReadsOrAsks(old(PipelineOf()), old(run).value, askIfMissing, old(Now()))
    {
      var p := PipelineOf();
      var i := FirstMissing(p, run.value);
      if i < |p.slots| {
        if askIfMissing {
          Say(Question(p.slots[i].slot));
        }
      } else if p.confirm.Some? {
        ReadBackAnew(p.confirm.value.response);
      } else {
        Advance();
      }
    }

    /** Fills taken one by one; the count of those that passed. */
    method ApplyFills(fs: seq<SlotFill>) returns (accepted: nat)
      requires Valid()
      modifies this`run, this`log
      ensures Valid() && OnlyEdits()
      ensures run.Some? <==> old(run).Some?
      ensures old(run).None? ==> accepted == 0
      ensures old(run).Some? ==> accepted == Accepted(b, old(PipelineOf()), fs)
      ensures old(run).Some? ==> run == Some(WithFills(b, old(PipelineOf()), old(run).value, fs))
    {
      accepted := 0;
      if run.Some? {
        accepted := ApplyEach(PipelineOf(), fs);
        if accepted > 0 && (run.value.step.AwaitingConfirmation? || run.value.step.ConfirmingSlot?) {
          SetStep(Collecting(None));
        }
      }
    }

    method ApplyEach(p: Pipeline, fs: seq<SlotFill>) returns (accepted: nat)
      requires Valid() && run.Some?
      modifies this`run, this`log
      ensures Valid() && OnlyEdits()
      ensures accepted == Accepted(b, p, fs) && run == Some(TakeAll(b, p, old(run).value, fs))
    {
      accepted := 0;
      var i := 0;
      while i < |fs|
        invariant i <= |fs| && Valid()
        invariant OnlyEdits()
        invariant accepted == Accepted(b, p, fs[..i]) && run == Some(TakeAll(b, p, old(run).value, fs[..i]))
      {
        assert fs[..i + 1][..i] == fs[..i];
        ApplyFill(p, fs[i]);
        accepted := accepted + if Accepts(b, p, fs[i]) then 1 else 0;
        i := i + 1;
      }
      assert fs[..i] == fs;
    }

    method ApplyFill(p: Pipeline, f: SlotFill)
      requires Valid() && run.Some?
      modifies this`run, this`log
      ensures Valid() && OnlyEdits()
      ensures run == Some(Take(b, p, old(run).value, f))
    {
      if Accepts(b, p, f) && !(f.slot in run.value.slots && run.value.slots[f.slot].value == f.value) {
        SetSlot(f.slot, SlotState(f.value, f.confidence, f.provenance, false));
      }
    }

    /** A value of another town, gone without a trace in the journal. */
    method DropStale(slot: Name)
      requires Valid()
      modifies this`run, this`log
      ensures Valid() && (run.Some? <==> old(run).Some?)
      ensures run.Some? ==> run.value == old(run).value.(slots := old(run).value.slots - {slot})
      ensures OnlyValues()
    {
      if run.Some? {
        Slip(run.value.slots - {slot});
      }
    }

    /** One rule that fires; whether it took the turn over. */
    method Fire(rule: Rule) returns (taken: bool)
      requires Valid() && Unbound() && run.Some?
      modifies this`run, this`suspended, this`completed, this`nextActionRun, this`phase, this`offeredMore,
        this`out, this`log, this`task, this`fallbackLevel, this`fallbackRestarts
      ensures Valid() && SameTurns() && (phase.Active? ==> old(phase).Active?) && suspended <= old(suspended)
      ensures taken <==> !rule.effect.SetTo?
      ensures rule.effect.Reject? ==>
        && run.Some? && rule.slot !in run.value.slots && run.value.step == Collecting(Some(rule.slot))
        && out == old(out) + [Speak(Response(rule.effect.response)), Speak(Question(rule.slot))]
      ensures !taken ==> Unbound() && run.Some? && phase == old(phase) && run.value.step == old(run).value.step
      ensures !taken && rule.effect.value.Some? ==>
        rule.effect.slot in run.value.slots && run.value.slots[rule.effect.slot].value == rule.effect.value.value
    {
      run := Some(run.value.(firedRules := run.value.firedRules + [rule.id]));
      match rule.effect
      case Reject(response) =>
        Refuse(rule.slot, response);
        taken := true;
      case HandOver(say, why) =>
        SayIfAny(say);
        HandOver(Other(why));
        taken := true;
      case SetTo(slot, value) =>
        if value.Some? {
          SetSlot(slot, SlotState(value.value, 1.0, Provenance.Rule, true));
        }
        taken := false;
    }

    /** A value refused and asked for again. */
    method Refuse(slot: Name, response: Name)
      requires Valid() && Unbound() && run.Some?
      modifies this`run, this`out, this`log
      ensures Valid() && SameTurns() && run == Some(Clear(old(run).value, slot).(step := Collecting(Some(slot))))
      ensures out == old(out) + [Speak(Response(response)), Speak(Question(slot))]
    {
      AskAgain(slot);
      Say(Response(response));
      Say(Question(slot));
    }

    /** The business's rules; whether one of them took the turn over. */
    method ApplyRules() returns (taken: bool)
      requires Valid() && Unbound()
      modifies this`run, this`suspended, this`completed, this`nextActionRun, this`phase, this`offeredMore,
        this`out, this`log, this`task, this`fallbackLevel, this`fallbackRestarts
      ensures Valid() && SameTurns() && (phase.Active? ==> old(phase).Active?) && suspended <= old(suspended)
      ensures !taken ==> Unbound() && (run.Some? <==> old(run).Some?) && phase == old(phase)
      ensures !taken && run.Some? ==> run.value.step == old(run).value.step
      ensures old(run).None? || NoneHits(b, old(run).value) ==> !taken && unchanged(this)
    {
      taken := false;
      var i := 0;
      while i < |b.rules|
        invariant Valid() && Unbound() && SameTurns() && phase == old(phase) && suspended <= old(suspended)
        invariant (run.Some? <==> old(run).Some?) && (run.Some? ==> run.value.step == old(run).value.step)
        invariant old(run).None? || NoneHits(b, old(run).value) ==> unchanged(this)
      {
        if run.Some? && Hits(b.rules[i], run.value) {
          taken := Fire(b.rules[i]);
          if taken {
            return;
          }
        }
        i := i + 1;
      }
    }

    // -------------------------------------------------------------------------------------
    // The caller's turn, understood
    // -------------------------------------------------------------------------------------

    /** A yes to one value, and what the task does on it. */
    method ConfirmAndGoOn(slot: Name)
      requires Valid() && Unbound() && phase.Active? && run.Some?
      modifies this`run, this`suspended, this`completed, this`nextActionRun, this`phase, this`offeredMore,
        this`out, this`log, this`task, this`fallbackLevel
      ensures Valid() && SameTurns() && fallbackLevel == 0
      ensures GoesOn(old(PipelineOf()), WithDefaults(old(Sources()), old(PipelineOf()), Confirming(old(run).value, slot)), old(Now()))
    {
      ConfirmSlot(slot);
      assert PipelineOf() == old(PipelineOf()) && Now() == old(Now()) && Sources() == old(Sources());
      assert Filled(true) == WithDefaults(Sources(), PipelineOf(), run.value);
      Advance();
    }

    /** The answer to one value read back; whether that was all of the turn. */
    method AnswerToValue(u: Understanding) returns (done: bool)
      requires Valid() && Unbound() && phase.Active?
      modifies this`run, this`suspended, this`completed, this`nextActionRun, this`phase, this`offeredMore,
        this`out, this`log, this`task, this`fallbackLevel, this`fallbackRestarts
      ensures Valid() && SameTurns() && (!done ==> unchanged(this))
      ensures done <==> old(run).Some? && old(run).value.step.ConfirmingSlot? && Settles(b, u, old(run).value.step.slot)
      ensures done && Answers(u, old(run).value.step.slot) && u.affirm.value ==>
        && (phase.Active? ==> fallbackLevel == 0)
        && GoesOn(old(PipelineOf()), WithDefaults(old(Sources()), old(PipelineOf()), Confirming(old(run).value, old(run).value.step.slot)), old(Now()))
      ensures done && Answers(u, old(run).value.step.slot) && !u.affirm.value ==>
        var slot := old(run).value.step.slot;
        run == Some(Clear(old(run).value, slot).(step := Collecting(Some(slot)))) && out == old(out) + [Speak(Question(slot))]
      ensures done && !Answers(u, old(run).value.step.slot) && phase.Active? ==>
        OneRungDown(old(fallbackLevel), old(fallbackRestarts))
    {
      if run.None? || !run.value.step.ConfirmingSlot? {
        return false;
      }
      var slot := run.value.step.slot;
      if Answers(u, slot) {
        if u.affirm.value {
          ConfirmAndGoOn(slot);
        } else {
          AskAgain(slot);
          SayUnderstood(Question(slot));
        }
        return true;
      }
      if DoubtfulAgain(b, u.slots, slot) {
        AskAgain(slot);
        Fallback();
        return true;
      }
      return false;
    }

    /** A yes to one value: it is agreed to, and nothing else is. */
    method ConfirmSlot(slot: Name)
      requires Valid() && Unbound() && run.Some?
      modifies this`run, this`log, this`fallbackLevel
      ensures Valid() && Unbound() && SameTurns() && run == Some(Confirming(old(run).value, slot)) && fallbackLevel == 0
    {
      AgreedValues(run.value, None, slot);
      run := Some(Confirming(run.value, slot));
      ResetFallbacks();
    }

    method AskAgain(slot: Name)
      requires Valid() && Unbound() && run.Some?
      modifies this`run, this`log
      ensures Valid() && Unbound() && run == Some(Clear(old(run).value, slot).(step := Collecting(Some(slot))))
      ensures OnlyEdits()
    {
      ClearSlot(slot);
      SetStep(Collecting(Some(slot)));
    }

    /** The answer to the read-back of the task: a yes agrees and goes on, a no declines. */
    method AnswerToReadBack(u: Understanding) returns (done: bool)
      requires Valid() && Unbound() && phase.Active? && (u.affirm == Some(true) ==> YesNow(Tally(log)))
      modifies this`run, this`suspended, this`completed, this`nextActionRun, this`phase, this`offeredMore,
        this`out, this`log, this`task, this`fallbackLevel, this`fallbackRestarts
      ensures Valid() && SameTurns() && (!done ==> unchanged(this))
      ensures done <==> old(run).Some? && old(run).value.step.AwaitingConfirmation? && Judges(u, old(PipelineOf()))
      ensures done ==> Judged(b, failedActions, old(Sources()), u, old(PipelineOf()), old(run).value, old(Now()), run, Now())
      ensures done && !u.affirm.value && old(PipelineOf()).slots == [] ==>
        old(completed) + [Record(old(run).value, Declined)] <= completed
    {
      if run.None? || !run.value.step.AwaitingConfirmation? || !Judges(u, PipelineOf()) {
        return false;
      }
      if u.affirm.value {
        AgreeAndGoOn(None);
      } else {
        Decline();
      }
      return true;
    }

    /** A yes to the read-back, and what the task does on it. */
    method AgreeAndGoOn(provenance: Option<Provenance>)
      requires Valid() && phase.Active? && run.Some? && run.value.step.AwaitingConfirmation? && YesNow(Tally(log))
      modifies this`run, this`suspended, this`completed, this`nextActionRun, this`phase, this`offeredMore,
        this`out, this`log, this`task, this`fallbackLevel
      ensures Valid() && SameTurns() && suspended <= old(suspended)
      ensures GoesOn(old(PipelineOf()), WithDefaults(old(Sources()), old(PipelineOf()), AgreedTo(old(run).value, provenance)), old(Now()))
    {
      Agree(provenance);
      ResetFallbacks();
      assert PipelineOf() == old(PipelineOf());
      assert Filled(true) == WithDefaults(old(Sources()), PipelineOf(), AgreedTo(old(run).value, provenance));
      Advance();
    }

    /** A no to the read-back: what should change, or, with nothing to change, the end of the task. */
    method Decline()
      requires Valid() && Unbound() && phase.Active? && run.Some?
      modifies this`run, this`suspended, this`completed, this`nextActionRun, this`phase, this`offeredMore,
        this`out, this`log, this`task, this`fallbackLevel, this`fallbackRestarts
      ensures Valid() && SameTurns() && suspended <= old(suspended)
      ensures old(PipelineOf()).slots != [] ==>
        run == Some(old(run).value.(step := Collecting(None))) && Now() == Saying(old(Now()), AskChange(old(PipelineOf())))
      ensures old(PipelineOf()).slots == [] ==> old(completed) + [Record(old(run).value, Declined)] <= completed
    {
      var p := PipelineOf();
      ResetFallbacks();
      SayIfAny(if p.confirm.Some? then Some(p.confirm.value.askChange) else None);
      if p.slots == [] {
        FinishRun(Declined);
      } else {
        SetStep(Collecting(None));
      }
    }

    method PutAside(keep: bool)
      requires Valid() && Unbound()
      modifies this`run, this`suspended, this`log
      ensures Valid() && SameTurns() && run.None?
      ensures suspended == if old(run).Some? && keep then old(suspended) + [old(run).value] else old(suspended)
    {
      if run.Some? && keep {
        Suspend();
      } else {
        run := None;
      }
    }

    /** Another task begins; the current one is put aside if it has values, else forgotten. */
    method SwitchTo(pipeline: Name, intent: Name, keep: bool)
      requires Valid() && Unbound() && pipeline in b.pipelines
      modifies this`run, this`suspended, this`log, this`task
      ensures Valid() && Unbound() && SameTurns() && run == Some(NewTask(b, completed, pipeline, intent))
      ensures suspended == if old(run).Some? && keep then old(suspended) + [old(run).value] else old(suspended)
    {
      PutAside(keep);
      Begin(NewTask(b, completed, pipeline, intent));
    }

    /** The caller's intent: a person, an answer, or another task. */
    method TakeIntent(guess: Guess) returns (done: bool, progressed: bool)
      requires Valid() && Unbound() && phase.Active?
      modifies this`run, this`suspended, this`completed, this`nextActionRun, this`phase, this`offeredMore,
        this`out, this`log, this`task, this`fallbackLevel, this`fallbackRestarts
      ensures Valid() && SameTurns() && (!done ==> phase == Active && Unbound())
      ensures var found := FindIntent(b.intents, guess.id);
        && (found.None? ==> done && !progressed && (phase.Active? ==> OneRungDown(old(fallbackLevel), old(fallbackRestarts))))
        && (found.Some? && !Switches(old(run), found.value, guess) ==> !done && !progressed)
        && (found.Some? && Switches(old(run), found.value, guess) ==>
              && (done <==> found.value.handoff || found.value.respond.Some?)
              && (progressed <==> !done && found.value.pipeline.Some?)
              && (found.value.handoff && desk ==> phase == HandingOff)
              && (!found.value.handoff && found.value.respond.Some? && old(run).Some? ==>
                    GoesOn(old(PipelineOf()), old(Filled(true)), Saying(old(Now()), [Speak(Response(found.value.respond.value))]))))
      ensures progressed ==>
        var i := FindIntent(b.intents, guess.id).value;
        && run == Some(NewTask(b, completed, i.pipeline.value, i.id))
        && out == old(out) && completed == old(completed) && nextActionRun == old(nextActionRun)
        && suspended == if old(run).Some? && old(run).value.pipeline != i.pipeline.value && |old(run).value.slots| > 0
             then old(suspended) + [old(run).value] else old(suspended)
      ensures !done && !progressed ==> unchanged(this)
    {
      var found := FindIntent(b.intents, guess.id);
      if found.None? {
        Fallback();
        return true, false;
      }
      var intent := found.value;
      if !Switches(run, intent, guess) {
        return false, false;
      }
      if intent.handoff {
        HandOver(Other(intent.id));
        return true, false;
      }
      if intent.respond.Some? {
        Answer(intent.respond.value);
        return true, false;
      }
      if intent.pipeline.Some? {
        var p := intent.pipeline.value;
        SwitchTo(p, intent.id, run.Some? && run.value.pipeline != p && |run.value.slots| > 0);
        return false, true;
      }
      return false, false;
    }

    /** A question answered, and the task picked up where it was. */
    method Answer(response: Name)
      requires Valid() && Unbound() && phase.Active?
      modifies this`run, this`suspended, this`completed, this`nextActionRun, this`phase, this`offeredMore,
        this`out, this`log, this`task, this`fallbackLevel, this`fallbackRestarts
      ensures Valid() && SameTurns() && suspended <= old(suspended)
      ensures old(run).Some? ==>
        GoesOn(old(PipelineOf()), old(Filled(true)), Saying(old(Now()), [Speak(Response(response))]))
      ensures old(run).None? ==> out == old(out) + [Speak(Response(response)), Speak(Response(b.anythingElse))]
    {
      SayUnderstood(Response(response));
      assert Now() == Saying(old(Now()), [Speak(Response(response))]);
      GoOnOrOffer();
    }

    method GoOnOrOffer()
      requires Valid() && Unbound()
      modifies this`run, this`suspended, this`completed, this`nextActionRun, this`phase, this`offeredMore,
        this`out, this`log, this`task
      ensures Valid() && SameTurns() && suspended <= old(suspended)
      ensures old(run).Some? ==> GoesOn(old(PipelineOf()), old(Filled(true)), old(Now()))
      ensures old(run).None? ==> out == old(out) + [Speak(Response(b.anythingElse))]
    {
      if run.Some? {
        Advance();
      } else {
        OfferMore();
      }
    }

    /** A place given in part is noted, and a value of another town goes. */
    method NotePlace(p: Pipeline, f: SlotFill)
      requires Valid() && run.Some?
      modifies this`run, this`cities, this`log
      ensures Valid() && OnlyValues() && run.Some?
      ensures run.value == if InPart(b, p, f) && f.place.stale then old(run).value.(slots := old(run).value.slots - {f.slot}) else old(run).value
      ensures cities == if InPart(b, p, f) && f.place.city.Some? then old(cities)[f.slot := f.place.city.value] else old(cities)
    {
      if InPart(b, p, f) {
        if f.place.stale {
          DropStale(f.slot);
        }
        if f.place.city.Some? {
          cities := cities[f.slot := f.place.city.value];
        }
      }
    }

    method NotePlaces(p: Pipeline, fs: seq<SlotFill>)
      requires Valid() && run.Some?
      modifies this`run, this`cities, this`log
      ensures Valid() && OnlyValues() && run == Some(Noted(b, p, old(run).value, fs)) && cities == NotedCities(b, p, old(cities), fs)
    {
      var i := 0;
      while i < |fs|
        invariant i <= |fs| && Valid() && OnlyValues()
        invariant run == Some(Noted(b, p, old(run).value, fs[..i])) && cities == NotedCities(b, p, old(cities), fs[..i])
      {
        assert fs[..i + 1][..i] == fs[..i];
        NotePlace(p, fs[i]);
        i := i + 1;
      }
      assert fs[..i] == fs;
    }

    /** Places looked up: one given in part is noted and not taken yet. */
    method CheckPlaces(fs: seq<SlotFill>) returns (checked: seq<SlotFill>, noted: bool)
      requires Valid() && run.Some?
      modifies this`run, this`cities, this`log
      ensures Valid() && OnlyValues()
      ensures run == Some(Noted(b, old(PipelineOf()), old(run).value, fs))
      ensures cities == NotedCities(b, old(PipelineOf()), old(cities), fs)
      ensures noted <==> AnyInPart(b, old(PipelineOf()), fs)
      ensures checked == Checked(b, old(PipelineOf()), fs)
    {
      var p := PipelineOf();
      checked, noted := Checked(b, p, fs), AnyInPart(b, p, fs);
      NotePlaces(p, fs);
    }

    /** The values of the turn, looked up and taken. */
    method Collect(fs: seq<SlotFill>) returns (applied: nat, noted: bool)
      requires Valid() && run.Some?
      modifies this`run, this`log, this`cities
      ensures Valid() && OnlyEdits()
      ensures var p := old(PipelineOf());
        && run == Some(WithFills(b, p, Noted(b, p, old(run).value, fs), Checked(b, p, fs)))
        && cities == NotedCities(b, p, old(cities), fs)
        && applied == Accepted(b, p, Checked(b, p, fs)) && (noted <==> AnyInPart(b, p, fs))
    {
      NotedKeeps(b, PipelineOf(), run.value, fs);
      var fills;
      fills, noted := CheckPlaces(fs);
      applied := ApplyFills(fills);
    }

    /** Something was understood: the rules, and the next step of the task. */
    method Proceed()
      requires Valid() && Unbound() && phase.Active? && run.Some?
      modifies this`run, this`suspended, this`completed, this`nextActionRun, this`phase, this`offeredMore,
        this`out, this`log, this`task, this`fallbackLevel, this`fallbackRestarts
      ensures Valid() && SameTurns()
      ensures NoneHits(b, old(run).value) ==>
        GoesOn(old(PipelineOf()), old(Filled(true)), old(Now()))
    {
      ResetFallbacks();
      var taken := ApplyRules();
      if !taken {
        Advance();
      }
    }

    method TakeValues(u: Understanding, progressed: bool)
      requires Valid() && Unbound() && phase.Active? && run.Some?
      modifies this`run, this`suspended, this`completed, this`nextActionRun, this`phase, this`offeredMore,
        this`out, this`log, this`task, this`fallbackLevel, this`fallbackRestarts, this`cities
      ensures Valid() && SameTurns()
      ensures !progressed && !TakesAny(b, old(PipelineOf()), u.slots) && phase.Active? ==>
        OneRungDown(old(fallbackLevel), old(fallbackRestarts))
      ensures progressed || TakesAny(b, old(PipelineOf()), u.slots) ==>
        TookValues(b, failedActions, old(Sources()), old(PipelineOf()), old(run).value, u.slots, old(Now()), run, Now())
    {
      ghost var p, src := PipelineOf(), Sources();
      TakenKeeps(b, p, run.value, u.slots);
      var applied, noted := Collect(u.slots);
      assert PipelineOf() == p && Sources() == src.(cities := cities);
      assert Filled(true) == WithDefaults(Sources(), p, run.value);
      if applied == 0 && !progressed && !noted {
        Fallback();
      } else {
        Proceed();
      }
    }

    /** The fallbacks are one rung further down, or back at the top for the second time. */
    ghost predicate OneRungDown(level: nat, restarts: nat)
      reads this
    {
      || (fallbackLevel == level + 1 && fallbackRestarts == restarts)
      || (fallbackLevel == 0 && level == |b.ladder| && restarts == 0 && fallbackRestarts == 1)
    }

    /** The turn is judged in this order: one value read back, the task read back, the intent, the values. */
    method Understand(u: Understanding)
      requires Valid() && Unbound() && phase.Active? && (u.affirm == Some(true) ==> YesNow(Tally(log)))
      modifies this`run, this`suspended, this`completed, this`nextActionRun, this`phase, this`offeredMore,
        this`out, this`log, this`task, this`fallbackLevel, this`fallbackRestarts, this`cities
      ensures Valid() && SameTurns()
      ensures Empty(u) && phase.Active? ==> OneRungDown(old(fallbackLevel), old(fallbackRestarts))
      ensures UnderstoodAs(b, failedActions, old(Sources()), u, old(run), old(Now()), run, Now())
    {
      var offered := offeredMore;
      offeredMore := false;
      var done := AnswerToEither(u);
      if !done {
        assert Now() == old(Now()) && Sources() == old(Sources());
        TakeTheRest(u, offered);
      }
    }

    /** The answer to what was read back, a value or the task. */
    method AnswerToEither(u: Understanding) returns (done: bool)
      requires Valid() && Unbound() && phase.Active? && (u.affirm == Some(true) ==> YesNow(Tally(log)))
      modifies this`run, this`suspended, this`completed, this`nextActionRun, this`phase, this`offeredMore,
        this`out, this`log, this`task, this`fallbackLevel, this`fallbackRestarts
      ensures Valid() && SameTurns() && (!done ==> unchanged(this)) && (done <==> !Unsettled(b, u, old(run)))
      ensures Empty(u) ==> !done
      ensures done ==> UnderstoodAs(b, failedActions, old(Sources()), u, old(run), old(Now()), run, Now())
    {
      done := AnswerToValue(u);
      if !done {
        done := AnswerToReadBack(u);
      }
    }

    method TakeTheRest(u: Understanding, offered: bool)
      requires Valid() && Unbound() && phase.Active?
      modifies this`run, this`suspended, this`completed, this`nextActionRun, this`phase, this`offeredMore,
        this`out, this`log, this`task, this`fallbackLevel, this`fallbackRestarts, this`cities
      ensures Valid() && SameTurns()
      ensures Empty(u) && phase.Active? ==> OneRungDown(old(fallbackLevel), old(fallbackRestarts))
      ensures Rested(b, failedActions, old(Sources()), u, old(run), old(Now()), run, Now())
    {
      var done, progressed := false, false;
      if u.intent.Some? {
        done, progressed := TakeIntent(u.intent.value);
        if done {
          return;
        }
      }
      TakeOrBegin(u, offered, progressed);
    }

    /** The values of the turn, for the current task or the one they begin. */
    method TakeOrBegin(u: Understanding, offered: bool, named: bool)
      requires Valid() && Unbound() && phase.Active? && (named ==> run.Some?)
      modifies this`run, this`suspended, this`completed, this`nextActionRun, this`phase, this`offeredMore,
        this`out, this`log, this`task, this`fallbackLevel, this`fallbackRestarts, this`cities
      ensures Valid() && SameTurns()
      ensures u.slots == [] && u.affirm.None? && !named && phase.Active? ==> OneRungDown(old(fallbackLevel), old(fallbackRestarts))
      ensures old(run).Some? && (named || TakesAny(b, old(PipelineOf()), u.slots)) ==>
        TookValues(b, failedActions, old(Sources()), old(PipelineOf()), old(run).value, u.slots, old(Now()), run, Now())
    {
      var progressed := named;
      if run.None? && u.slots != [] {
        progressed := Infer(u.slots);
      }
      if run.None? {
        NoTask(u, offered);
      } else {
        TakeValues(u, progressed);
      }
    }

    /** Values with no task yet begin the one task they can belong to. */
    method Infer(fs: seq<SlotFill>) returns (begun: bool)
      requires Valid() && run.None?
      modifies this`run, this`log, this`task
      ensures Valid() && Unbound() && SameTurns() && Tally(log).mood == old(Tally(log).mood)
      ensures begun <==> run.Some?
      ensures begun <==> exists i :: OnlyIntent(b, fs, i)
      ensures forall i :: begun && OnlyIntent(b, fs, i) ==>
        run == Some(NewTask(b, completed, b.intents[i].pipeline.value, b.intents[i].id))
    {
      var found := InferPipeline(b, fs);
      begun := found.Some?;
      if begun {
        var p := found.value.pipeline.value;
        Begin(NewTask(b, completed, p, found.value.id));
      }
    }

    method NoTask(u: Understanding, offered: bool)
      requires Valid() && Unbound() && phase.Active? && run.None?
      modifies this`run, this`suspended, this`completed, this`nextActionRun, this`phase, this`offeredMore,
        this`out, this`log, this`task, this`fallbackLevel, this`fallbackRestarts
      ensures Valid() && SameTurns()
      ensures offered && u.affirm == Some(false) ==> phase == Ending
      ensures offered && u.affirm == Some(true) ==> out == old(out) + [Speak(Response(b.greeting))] && phase == old(phase)
      ensures (!offered || u.affirm.None?) && phase.Active? ==> OneRungDown(old(fallbackLevel), old(fallbackRestarts))
    {
      if offered && u.affirm == Some(false) {
        SayGoodbye();
      } else if offered && u.affirm == Some(true) {
        Say(Response(b.greeting));
      } else {
        Fallback();
      }
    }

    /** "Cancel": the task and all put aside are dropped. */
    method CancelFlow()
      requires Valid()
      modifies this`run, this`suspended, this`completed, this`offeredMore, this`log
      ensures Valid() && SameTurns() && run.None? && suspended == [] && offeredMore
      ensures completed == old(completed) + if old(run).Some? then [Record(old(run).value, Cancelled)] else []
    {
      CloseRun(Cancelled);
      DropSuspended();
      offeredMore := true;
    }

    method DropSuspended()
      requires Valid() && run.None?
      modifies this`suspended, this`log
      ensures Valid() && SameTurns() && suspended == []
    {
      suspended := [];
      log := Then(log, Abandoned);
    }

    /** "Go back": the last change undone, and its question again. */
    method GoBackOne()
      requires Valid() && Unbound()
      modifies this`run, this`out, this`log
      ensures Valid() && SameTurns() && (run.Some? <==> old(run).Some?)
      ensures run.Some? && old(run).value.journal != [] ==>
        var last := old(run).value.journal[|old(run).value.journal| - 1].slot;
        run.value == Undo(old(run).value).(step := Collecting(Some(last))) && out == old(out) + [Speak(Question(last))]
      ensures run.Some? && old(run).value.journal == [] ==> run == old(run)
    {
      if run.None? || run.value.journal == [] {
        Say(Repeat);
        return;
      }
      var last := run.value.journal[|run.value.journal| - 1].slot;
      UndoLast();
      SetStep(Collecting(Some(last)));
      Say(Question(last));
    }

    method Meta(m: MetaIntent)
      requires Valid() && Unbound() && phase.Active?
      modifies this`run, this`suspended, this`completed, this`nextActionRun, this`phase, this`offeredMore,
        this`out, this`log, this`task, this`fallbackLevel, this`fallbackRestarts
      ensures Valid() && SameTurns()
      ensures (m.Goodbye? ==> phase == Ending) && (m.TransferHuman? && desk ==> phase == HandingOff)
      ensures m.CancelCurrentFlow? ==> run.None? && suspended == []
      ensures m.RepeatLast? || m.Wait? ==> run == old(run) && phase == old(phase)
    {
      match m
      case CancelCurrentFlow => CancelFlow();
      case GoBack => GoBackOne();
      case TransferHuman => HandOver(Other(REQUESTED));
      case Goodbye => SayGoodbye();
      case RepeatLast => Say(Repeat);
      case Wait => Say(Free);
    }

    /** A curse: a warning the first time, the end the second. */
    method OnAbuse()
      requires Valid()
      modifies this`abuseStrikes, this`phase, this`out, this`log
      ensures Valid() && SameTurns() && (phase.Active? ==> old(phase).Active?) && abuseStrikes == old(abuseStrikes) + 1
      ensures old(abuseStrikes) >= 1 && b.abuseGoodbye.Some? ==> phase == Ending
    {
      abuseStrikes := abuseStrikes + 1;
      if abuseStrikes >= 2 && b.abuseGoodbye.Some? {
        Say(Response(b.abuseGoodbye.value));
        Leave(Hangup);
      } else {
        SayIfAny(b.abuseWarning);
        Say(Repeat);
      }
    }

    /** The caller's words, understood without the agent. */
    method OnUtterance(u: Understanding)
      requires Valid()
      modifies this`run, this`suspended, this`completed, this`nextActionRun, this`phase, this`offeredMore,
        this`out, this`log, this`task, this`fallbackLevel, this`fallbackRestarts, this`cities,
        this`silenceReprompts, this`abuseStrikes
      ensures Valid() && (phase.Active? ==> old(phase).Active?)
      ensures old(phase) != Active || u.noise ==> unchanged(this)
      ensures old(phase).Active? && !u.noise ==>
        silenceReprompts == 0 && Tally(log).turns == old(Tally(log)).turns + [u.affirm == Some(true)]
      ensures old(phase).Active? && Empty(u) && phase.Active? ==> OneRungDown(old(fallbackLevel), old(fallbackRestarts))
      ensures old(phase).Active? && Plain(u) ==>
        UnderstoodAs(b, failedActions, old(Sources()), u, old(run), old(Now()), run, Now())
    {
      if phase != Active || u.noise {
        return;
      }
      HearTurn(u.affirm == Some(true));
      assert Now() == old(Now()) && Sources() == old(Sources());
      Respond(u);
    }

    /** What is said about the call itself, or the words. */
    method Respond(u: Understanding)
      requires Valid() && Unbound() && phase.Active? && !u.noise && (u.affirm == Some(true) ==> YesNow(Tally(log)))
      modifies this`run, this`suspended, this`completed, this`nextActionRun, this`phase, this`offeredMore,
        this`out, this`log, this`task, this`fallbackLevel, this`fallbackRestarts, this`cities, this`abuseStrikes
      ensures Valid() && SameTurns()
      ensures Empty(u) && phase.Active? ==> OneRungDown(old(fallbackLevel), old(fallbackRestarts))
      ensures Plain(u) ==> UnderstoodAs(b, failedActions, old(Sources()), u, old(run), old(Now()), run, Now())
    {
      if u.abusive {
        OnAbuse();
        return;
      }
      var content := u.slots != [] || u.affirm.Some? || u.intent.Some?;
      if u.meta.Some? && !(u.meta.value.Wait? && content) {
        Meta(u.meta.value);
      } else {
        Understand(u);
      }
    }

    // -------------------------------------------------------------------------------------
    // The agent's turn
    // -------------------------------------------------------------------------------------

    /** The task the agent chose; whether the turn ends there. */
    method TakeTask(id: Option<Name>) returns (done: bool)
      requires Valid() && Unbound() && phase.Active?
      modifies this`run, this`suspended, this`completed, this`nextActionRun, this`phase, this`offeredMore,
        this`out, this`log, this`task, this`fallbackLevel, this`fallbackRestarts
      ensures Valid() && SameTurns() && (!done ==> phase.Active? && Unbound())
      ensures !done ==> run == old(run) || (run.Some? && !run.value.confirmed && run.value.step == Collecting(None))
      ensures id.None? ==> !done && unchanged(this)
    {
      if id.None? || FindIntent(b.intents, id.value).None? {
        return false;
      }
      var intent := FindIntent(b.intents, id.value).value;
      if intent.handoff {
        Say(Free);
        HandOver(Other(intent.id));
        return true;
      }
      if intent.pipeline.Some? && (run.None? || run.value.pipeline != intent.pipeline.value) {
        SwitchTo(intent.pipeline.value, intent.id, run.Some? && |run.value.slots| > 0 && !run.value.step.Executing?);
        FillDefaults(false);
      }
      return false;
    }

    /** The agent's values taken; true when the slots came out different. */
    method TakeFields(fs: seq<SlotFill>) returns (changed: bool)
      requires Valid() && Unbound()
      modifies this`run, this`log, this`task
      ensures Valid() && Unbound() && SameTurns() && Tally(log).mood == old(Tally(log).mood)
      ensures changed ==> run.Some? && !run.value.step.AwaitingConfirmation?
      ensures old(run).Some? ==> run == Some(WithFills(b, old(PipelineOf()), old(run).value, fs))
      ensures old(run).Some? ==> (changed <==> run.value.slots != old(run).value.slots)
      ensures old(run).None? ==> (run.Some? <==> fs != [] && exists i :: OnlyIntent(b, fs, i))
      ensures forall i :: old(run).None? && fs != [] && OnlyIntent(b, fs, i) ==>
        var r := NewTask(b, completed, b.intents[i].pipeline.value, b.intents[i].id);
        run == Some(WithFills(b, b.pipelines[r.pipeline], r, fs))
    {
      if fs == [] {
        return false;
      }
      if run.None? {
        var begun := Infer(fs);
        if !begun {
          return false;
        }
      }
      var before := run.value;
      NoneAcceptedNoneTaken(b, PipelineOf(), before, fs);
      var n := ApplyFills(fs);
      // A value that was taken has ended the wait for a yes already.
      changed := run.value.slots != before.slots;
    }

    method TakeDetails(t: AgentTurn) returns (changed: bool)
      requires Valid() && Unbound()
      modifies this`run, this`cities, this`log, this`task
      ensures Valid() && Unbound() && SameTurns() && Tally(log).mood == old(Tally(log).mood)
      ensures changed ==> run.Some? && !run.value.step.AwaitingConfirmation?
      ensures cities == t.cities
      ensures old(run).Some? && t.misplaced.None? && t.stale == [] ==>
        && run == Some(WithFills(b, old(PipelineOf()), old(run).value, t.fills))
        && (changed <==> run.value.slots != old(run).value.slots)
    {
      cities := t.cities;
      DropFields(t.misplaced, t.stale);
      changed := TakeFields(t.fills);
    }

    /** What the words and the look-up of the places took away. */
    method DropFields(misplaced: Option<Name>, stale: seq<Name>)
      requires Valid() && Unbound()
      modifies this`run, this`log
      ensures Valid() && Unbound() && SameTurns() && Tally(log).mood == old(Tally(log).mood)
      ensures run.Some? <==> old(run).Some?
      ensures misplaced.None? && stale == [] ==> run == old(run)
      ensures run.Some? ==> run.value == old(run).value.(slots := run.value.slots, journal := run.value.journal, confirmed := run.value.confirmed)
    {
      if misplaced.Some? && run.Some? && run.value.step.Collecting? {
        ClearSlot(misplaced.value);
      }
      DropAll(stale);
    }

    method DropAll(slots: seq<Name>)
      requires Valid() && Unbound()
      modifies this`run, this`log
      ensures Valid() && Unbound() && (run.Some? <==> old(run).Some?) && (slots == [] ==> run == old(run))
      ensures OnlyValues()
      ensures run.Some? ==> Fewer(run.value, old(run).value)
    {
      var i := 0;
      while i < |slots|
        invariant i <= |slots| && Valid() && Unbound() && (run.Some? <==> old(run).Some?) && (i == 0 ==> run == old(run))
        invariant OnlyValues()
        invariant run.Some? ==> Fewer(run.value, old(run).value)
      {
        DropStale(slots[i]);
        i := i + 1;
      }
    }

    /** A submit: it goes out on a yes to the read-back, and else it is the read-back. */
    method OnSubmit(yes: bool, asked: bool)
      requires Valid() && Unbound() && phase.Active? && (yes ==> YesNow(Tally(log)))
      modifies this`run, this`suspended, this`completed, this`nextActionRun, this`phase, this`offeredMore,
        this`out, this`log, this`task, this`fallbackLevel, this`fallbackRestarts
      ensures Valid() && SameTurns() && suspended <= old(suspended)
      ensures old(run).Some? && yes && old(run).value.step.AwaitingConfirmation? ==>
        GoesOn(old(PipelineOf()), WithDefaults(old(Sources()), old(PipelineOf()), AgreedTo(old(run).value, Some(Confirmed))), old(Now()))
      ensures old(run).Some? && !(yes && old(run).value.step.AwaitingConfirmation?) ==>
        ReadsOrAsks(old(PipelineOf()), old(Filled(true)), !asked, old(Now()))
    {
      if yes && run.Some? && run.value.step.AwaitingConfirmation? {
        AgreeAndGoOn(Some(Confirmed));
      } else if run.Some? {
        ReadTask(!asked);
      }
    }

    method Follow(course: Course, asked: bool, changed: bool)
      requires Valid() && Unbound() && phase.Active? && (course == Submit(true) ==> YesNow(Tally(log)))
      modifies this`run, this`suspended, this`completed, this`nextActionRun, this`phase, this`offeredMore,
        this`out, this`log, this`task, this`fallbackLevel, this`fallbackRestarts
      ensures Valid() && SameTurns() && (course.GiveUp? || course.EndCall? ==> !phase.Active?)
      ensures old(run).Some? ==>
        Followed(b, failedActions, desk, old(Sources()), old(PipelineOf()), old(run).value, course, asked, changed, old(Now()), run, Now())
    {
      match course
      case SayOnly => Say(Free);
      case GoOn =>
        if run.Some? {
          Advance();
        }
      case AskNext(question) => AskNextOne(question);
      case GiveUp(why) => ForceHandoff(why);
      case Transfer => HandOver(Other(REQUESTED));
      case EndCall => SayGoodbye();
      case ReadTaskBack => OnSubmit(false, asked);
      case Submit(saidYes) => OnSubmit(saidYes && !changed, asked);
    }

    method AskNextOne(question: Option<Name>)
      requires Valid() && Unbound() && phase.Active?
      modifies this`run, this`suspended, this`completed, this`nextActionRun, this`phase, this`offeredMore,
        this`out, this`log, this`task
      ensures Valid() && SameTurns()
      ensures old(run).Some? && question.Some? ==>
        run == Some(old(Filled(true))) && Now() == Saying(old(Now()), [Speak(Question(question.value))])
      ensures old(run).Some? && question.None? ==>
        ReadsOrAsks(old(PipelineOf()), old(Filled(true)), true, old(Now()))
    {
      if run.None? {
        return;
      }
      if question.Some? {
        FillDefaults(true);
        Say(Question(question.value));
      } else {
        ReadTask(true);
      }
    }

    /** The agent's decision for the caller's words. */
    method OnAgentTurn(t: AgentTurn)
      requires Valid()
      modifies this`run, this`suspended, this`completed, this`nextActionRun, this`phase, this`offeredMore,
        this`out, this`log, this`task, this`fallbackLevel, this`fallbackRestarts, this`cities,
        this`silenceReprompts, this`abuseStrikes
      ensures Valid() && (phase.Active? ==> old(phase).Active?)
      ensures old(phase) != Active ==> unchanged(this)
      ensures old(phase).Active? ==>
        silenceReprompts == 0 && Tally(log).turns == old(Tally(log)).turns + [t.course == Submit(true)]
      ensures old(phase).Active? && (t.insists || (!t.abusive && t.stuck)) ==> !phase.Active?
      ensures old(phase).Active? && Simple(t) && old(run).Some? ==>
        Obeyed(b, failedActions, desk, old(Sources()).(cities := t.cities), t, old(run).value, old(Now()), run, Now())
    {
      if phase != Active {
        return;
      }
      StartTurn(t.course == Submit(true));
      assert Now() == old(Now()) && Sources() == old(Sources());
      TakeDecision(t);
    }

    method TakeDecision(t: AgentTurn)
      requires Valid() && Unbound() && phase.Active? && (t.course == Submit(true) ==> YesNow(Tally(log)))
      modifies this`run, this`suspended, this`completed, this`nextActionRun, this`phase, this`offeredMore,
        this`out, this`log, this`task, this`fallbackLevel, this`fallbackRestarts, this`cities, this`abuseStrikes
      ensures Valid() && SameTurns() && (t.insists || (!t.abusive && t.stuck) ==> !phase.Active?)
      ensures Simple(t) && old(run).Some? ==>
        Obeyed(b, failedActions, desk, old(Sources()).(cities := t.cities), t, old(run).value, old(Now()), run, Now())
    {
      offeredMore := false;
      if t.insists {
        SayGoodbye();
      } else if t.abusive {
        OnAbuse();
      } else if t.stuck {
        ForceHandoff("stuck_on_a_question");
      } else {
        TakeTurn(t);
      }
    }

    method StartTurn(yes: bool)
      requires Valid() && phase.Active?
      modifies this`silenceReprompts, this`fallbackLevel, this`log
      ensures Valid() && Unbound() && silenceReprompts == 0 && fallbackLevel == 0
      ensures Tally(log).turns == old(Tally(log)).turns + [yes]
    {
      HearTurn(yes);
      ResetFallbacks();
    }

    method TakeTurn(t: AgentTurn)
      requires Valid() && Unbound() && phase.Active? && (t.course == Submit(true) ==> YesNow(Tally(log)))
      modifies this`run, this`suspended, this`completed, this`nextActionRun, this`phase, this`offeredMore,
        this`out, this`log, this`task, this`fallbackLevel, this`fallbackRestarts, this`cities
      ensures Valid() && SameTurns()
      ensures Simple(t) && old(run).Some? ==>
        Obeyed(b, failedActions, desk, old(Sources()).(cities := t.cities), t, old(run).value, old(Now()), run, Now())
    {
      var done := TakeTask(t.intent);
      if done {
        return;
      }
      if t.held {
        Say(Free);
        return;
      }
      GoItsCourse(t);
    }

    /** The values, the rules and the course of a turn. */
    method GoItsCourse(t: AgentTurn)
      requires Valid() && Unbound() && phase.Active? && (t.course == Submit(true) ==> YesNow(Tally(log)))
      modifies this`run, this`suspended, this`completed, this`nextActionRun, this`phase, this`offeredMore,
        this`out, this`log, this`task, this`fallbackLevel, this`fallbackRestarts, this`cities
      ensures Valid() && SameTurns()
      ensures t.misplaced.None? && t.stale == [] && old(run).Some? ==>
        Obeyed(b, failedActions, desk, old(Sources()).(cities := t.cities), t, old(run).value, old(Now()), run, Now())
    {
      ghost var p := if run.Some? then PipelineOf() else Pipeline([], None, None, None, None, None, None, Continue, None);
      if run.Some? {
        TakingKeepsTheRest(b, p, run.value, t.fills);
      }
      var confirming := run.Some? && run.value.step.AwaitingConfirmation?;
      var changed := TakeDetails(t);
      assert t.misplaced.None? && t.stale == [] && old(run).Some? ==>
        PipelineOf() == p && Sources() == old(Sources()).(cities := t.cities);
      FollowRules(CourseOf(t.course, changed && confirming), t.asked, changed);
    }

    /** The course, unless a rule takes the turn over. */
    method FollowRules(course: Course, asked: bool, changed: bool)
      requires Valid() && Unbound() && phase.Active? && (course == Submit(true) ==> YesNow(Tally(log)))
      modifies this`run, this`suspended, this`completed, this`nextActionRun, this`phase, this`offeredMore,
        this`out, this`log, this`task, this`fallbackLevel, this`fallbackRestarts
      ensures Valid() && SameTurns()
      ensures old(run).Some? && NoneHits(b, old(run).value) ==>
        Followed(b, failedActions, desk, old(Sources()), old(PipelineOf()), old(run).value, course, asked, changed, old(Now()), run, Now())
    {
      var taken := ApplyRules();
      if !taken {
        Follow(course, asked, changed);
      }
    }

    /** "No" to the last optional question: the task is read back. */
    method OnNoToOptional()
      requires Valid()
      modifies this
      ensures Valid() && (phase.Active? ==> old(phase).Active?)
      ensures old(phase).Active? && old(run).Some? && old(run).value.step.Collecting? ==>
        && Tally(log).turns == old(Tally(log)).turns + [false]
        && ReadsOrAsks(old(PipelineOf()), old(Filled(true)), true, old(Now()))
      ensures !(old(phase).Active? && old(run).Some? && old(run).value.step.Collecting?) ==> unchanged(this)
    {
      if phase == Active && run.Some? && run.value.step.Collecting? {
        HearTurn(false);
        ReadTask(true);
      }
    }

    /** "Thanks" to "anything else?": the end. */
    method OnClosing()
      requires Valid()
      modifies this
      ensures Valid() && SameTurns()
      ensures if old(phase).Active? && old(offeredMore) then phase == Ending else unchanged(this)
    {
      if phase == Active && offeredMore {
        offeredMore := false;
        SayGoodbye();
      }
    }

    // -------------------------------------------------------------------------------------
    // Whole calls
    // -------------------------------------------------------------------------------------

    /** What happens to a call: a turn of the caller's is on record as the yes it was, or not at all. */
    method Handle(e: Event)
      requires Valid()
      modifies this
      ensures Valid() && (phase.Active? ==> old(phase).Active?)
      ensures Tally(log).turns == old(Tally(log)).turns
        || (IsTurn(e) && Tally(log).turns == old(Tally(log)).turns + [SaysYes(e)])
    {
      match e
      case Utterance(u) => OnUtterance(u);
      case Decision(t) => OnAgentTurn(t);
      case Result(id, result) => OnActionResult(id, result);
      case Silence => OnSilence();
      case Fault(why) => OnFault(why);
      case NoToOptional => OnNoToOptional();
      case Closing => OnClosing();
      case Desk(available) => desk := available;
    }

    /** Twice the ladder and one more turns in which nothing is understood end the call. */
    method HearNothing(us: seq<Understanding>)
      requires Valid() && forall i :: 0 <= i < |us| ==> Empty(us[i])
      requires |us| >= 2 * (|b.ladder| + 1)
      modifies this
      ensures Valid() && !phase.Active?
    {
      var i := 0;
      while i < |us|
        invariant i <= |us| && Valid()
        invariant phase.Active? ==>
          i <= (if fallbackRestarts == 0 then 0 else |b.ladder| + 1) + fallbackLevel
      {
        OnUtterance(us[i]);
        i := i + 1;
      }
    }

    /** One silence more than there is patience for ends the call. */
    method StaySilent(n: nat)
      requires Valid() && !(run.Some? && run.value.step.Executing?) && n >= b.maxReprompts + b.patientReprompts + 1
      modifies this
      ensures Valid() && !phase.Active?
    {
      var i := 0;
      while i < n
        invariant i <= n && Valid() && run == old(run) && (phase.Active? ==> silenceReprompts >= i)
      {
        OnSilence();
        i := i + 1;
      }
    }

    /** A question asked while an action runs sends that action again, under another id. */
    method AskWhileBusy(u: Understanding)
      requires Valid() && phase.Active? && run.Some? && run.value.step.Executing? && Plain(u) && AsksOnly(b, u, run)
      requires Suits(b, PipelineOf(), Filled(true), failedActions, Act)
      modifies this
      ensures Valid() && run == Some(old(Filled(true)).(step := Executing(old(nextActionRun)), attempts := 1))
      ensures Tally(log).turns == old(Tally(log)).turns + [false]
      ensures out == old(out) + [
        Speak(Response(FindIntent(b.intents, u.intent.value.id).value.respond.value)),
        RunAction(old(nextActionRun), old(PipelineOf()).action.value, InputOf(old(Filled(true))))]
    {
      ghost var p, r, failed := PipelineOf(), Filled(true), failedActions;
      ghost var said := Now().(out := out + [Speak(Response(FindIntent(b.intents, u.intent.value.id).value.respond.value))]);
      OnUtterance(u);
      assert WentOn(b, failed, p, r, said, run, Now());
      ghost var m :| Went(b, failed, p, r, said, m, run, Now());
      OneMoveSuits(b, p, r, failed, m, Act);
    }

    /** Values given while an action runs go out with its retry. */
    method ChangeWhileBusy(t: AgentTurn, id: nat, unknown: bool)
      requires Valid() && phase.Active? && Awaits(id) && Simple(t) && t.course.SayOnly?
      requires run.value.attempts < b.MaxAttempts(PipelineOf().action.value)
      requires NoneHits(b, WithFills(b, PipelineOf(), run.value, t.fills))
      modifies this
      ensures Valid()
      ensures out == old(out) + [
        Speak(Free),
        RunAction(id, old(PipelineOf()).action.value, InputOf(WithFills(b, old(PipelineOf()), old(run).value, t.fills)))]
    {
      TakingKeepsTheRest(b, PipelineOf(), run.value, t.fills);
      OnAgentTurn(t);
      OnActionResult(id, Err(unknown));
    }
  }

  /** A whole call. */
  method Call(b: Settings, desk: bool, customer: Option<Customer>, events: seq<Event>) returns (e: Engine)
    requires b.Valid()
    ensures e.Valid() && e.b == b && fresh(e) && TurnsAmong(Tally(e.log).turns, events)
  {
    e := new Engine(b, desk, customer);
    var i := 0;
    while i < |events|
      invariant i <= |events| && e.Valid() && e.b == b && fresh(e) && TurnsAmong(Tally(e.log).turns, events[..i])
    {
      ghost var before := Tally(e.log).turns;
      e.Handle(events[i]);
      OneEventMore(before, Tally(e.log).turns, events, i);
      i := i + 1;
    }
    assert events[..i] == events;
  }

  lemma {:induction false} OneEventMore(before: seq<bool>, turns: seq<bool>, events: seq<Event>, i: nat)
    requires i < |events| && TurnsAmong(before, events[..i])
    requires turns == before || (IsTurn(events[i]) && turns == before + [SaysYes(events[i])])
    ensures TurnsAmong(turns, events[..i + 1])
  {
    assert events[..i + 1][..i] == events[..i];
    if turns != before {
      assert turns[..|before|] == before;
    }
  }

  /**
    Whatever happened in a call, an action that needs a yes went out on one: said in a turn that
    was a yes, to the read-back of the very task the action was sent for, no value of it edited since.
  */
  lemma CallsAreSafe(e: Engine, k: nat)
    requires e.Valid() && k < |e.out| && e.out[k].RunAction? && NeedsYes(e.b, e.out[k].action, e.out[k].input)
    ensures Sends(e.out[..k + 1], e.out[k].id) <= e.b.MaxAttempts(e.out[k].action)
    ensures Sends(e.out[..k], e.out[k].id) == 0 ==>
      exists yes, at, task ::
        && OnRecord(at, task, e.out[k], e.log) && Outbox(at) == e.out[..k]
        && Part(yes, at) && SaidYes(yes, task) && Untouched(yes, at, task)
  {
    AttemptsSent(e.b, e.log, k);
    if Sends(e.out[..k], e.out[k].id) == 0 {
      var yes, at, task := SentOnlyOnAYes(e.b, e.log, k);
    }
  }

  /** A business with a task that has nothing to collect, and a question it answers. */
  ghost predicate Shop(b: Settings, order: Name, question: Name) {
    && Orders(b, order) && order != question
    && var q := FindIntent(b.intents, question);
      q.Some? && q.value.respond.Some? && !q.value.handoff && q.value.switchConfidence <= 1.0
  }

  ghost predicate Orders(b: Settings, order: Name) {
    && b.Valid() && b.rules == []
    && var i := FindIntent(b.intents, order);
      && i.Some? && i.value.pipeline.Some? && i.value.respond.None? && !i.value.handoff
      && var p := b.pipelines[i.value.pipeline.value];
        p.slots == [] && p.confirm.Some? && p.action.Some? && b.Changes(p.action.value)
  }

  /** There is such a business. */
  lemma ThereIsAShop() returns (b: Settings)
    ensures Shop(b, "order", "hours")
  {
    var order := Pipeline([], Some(Confirm("confirm", "change")), Some("send"), None, None, None, None, Continue, None);
    var i, q := Intent("order", Some("order"), None, false, 0.5), Intent("hours", None, Some("open"), false, 0.5);
    b := Settings(
      map["order" := order], [i, q], map[], map["send" := Action(true, 1, 0.0)], [], ["sorry"], None, 1, 0, None, None, 1,
      "handoff", "unavailable", "hello", "bye", "more", None, None);
    assert b.intents[1..][0] == q;
    assert FindIntent(b.intents[1..], "hours") == Some(q);
  }

  /** A task with nothing to collect takes nothing. */
  lemma NothingTaken(b: Settings, p: Pipeline, r: PipelineRun, src: Sources)
    requires p.slots == []
    ensures WithFills(b, p, Noted(b, p, r, []), Checked(b, p, [])) == r && NotedCities(b, p, src.cities, []) == src.cities
    ensures WithDefaults(src, p, r) == r
  {
  }

  /** The moves of a task with nothing to collect. */
  lemma MovesWithoutSlots(
    b: Settings, failed: seq<Attempt>, p: Pipeline, r: PipelineRun, before: Seen, run: Option<PipelineRun>, after: Seen)
    requires p.slots == [] && p.confirm.Some? && p.action.Some? && b.Changes(p.action.value) && r.slots == map[]
    ensures r.confirmed ==> Suits(b, p, r, failed, Act)
    ensures WentOn(b, failed, p, r, before, run, after) && r.confirmed ==>
      && run == Some(r.(step := Executing(before.next), attempts := 1))
      && after == before.(next := before.next + 1, out := before.out + [RunAction(before.next, p.action.value, InputOf(r))])
    ensures WentOn(b, failed, p, r, before, run, after) && !r.confirmed ==>
      && run == Some(r.(step := AwaitingConfirmation))
      && after == before.(out := before.out + [Speak(Response(p.confirm.value.response))])
  {
    var m := if r.confirmed then Act else ReadItBack;
    assert Suits(b, p, r, failed, m);
    if WentOn(b, failed, p, r, before, run, after) {
      var n :| Went(b, failed, p, r, before, n, run, after);
      OneMoveSuits(b, p, r, failed, m, n);
    }
  }

  function Says(order: Name): Understanding {
    Understanding([], None, Some(Guess(order, 1.0)), None, false, false)
  }

  function Yes(): Understanding {
    Understanding([], Some(true), None, None, false, false)
  }

  /** Its name begins the task, which is read back. */
  lemma OrderIsReadBack(b: Settings, src: Sources, order: Name, before: Seen, run: Option<PipelineRun>, after: Seen)
    requires Orders(b, order) && before.completed == []
    requires UnderstoodAs(b, [], src, Says(order), None, before, run, after)
    ensures var i := FindIntent(b.intents, order).value;
      var p, r := b.pipelines[i.pipeline.value], NewRun(i.pipeline.value, order);
      run == Some(r.(step := AwaitingConfirmation)) && after == Saying(before, [Speak(Response(p.confirm.value.response))])
  {
    var i := FindIntent(b.intents, order).value;
    var p, r := b.pipelines[i.pipeline.value], NewRun(i.pipeline.value, order);
    assert NewTask(b, [], i.pipeline.value, i.id) == r;
    NothingTaken(b, p, r, src);
    MovesWithoutSlots(b, [], p, r, before, run, after);
  }

  /** A yes to that sends its action. */
  lemma YesIsSent(b: Settings, src: Sources, p: Pipeline, r: PipelineRun, before: Seen, run: Option<PipelineRun>, after: Seen)
    requires r.pipeline in b.pipelines && p == b.pipelines[r.pipeline] && r.step.AwaitingConfirmation? && r.slots == map[]
    requires p.slots == [] && p.confirm.Some? && p.action.Some? && b.Changes(p.action.value)
    requires UnderstoodAs(b, [], src, Yes(), Some(r), before, run, after)
    ensures run == Some(r.(step := Executing(before.next), attempts := 1, confirmed := true))
    ensures after == before.(next := before.next + 1, out := before.out + [RunAction(before.next, p.action.value, InputOf(r))])
  {
    var agreed := AgreedTo(r, None);
    assert agreed == r.(confirmed := true);
    NothingTaken(b, p, agreed, src);
    assert Judges(Yes(), p) && Judged(b, [], src, Yes(), p, r, before, run, after);
    MovesWithoutSlots(b, [], p, agreed, before, run, after);
  }

  /** The start of a call: the task asked for, and read back. */
  method OrderAsked(b: Settings, order: Name) returns (e: Engine)
    requires Orders(b, order)
    ensures e.Valid() && fresh(e) && e.b == b && Tally(e.log).turns == [false]
    ensures var i := FindIntent(b.intents, order).value;
      var p, r := b.pipelines[i.pipeline.value], NewRun(i.pipeline.value, order);
      && e.run == Some(r.(step := AwaitingConfirmation)) && e.failedActions == []
      && e.Now() == Seen(Active, [], [], 1, [Speak(Response(p.confirm.value.response))])
  {
    e := new Engine(b, false, None);
    ghost var src, start := e.Sources(), e.Now();
    e.OnUtterance(Says(order));
    OrderIsReadBack(b, src, order, start, e.run, e.Now());
  }

  /** The one action of the order has been sent. */
  ghost predicate OrderSent(b: Settings, order: Name, run: Option<PipelineRun>, now: Seen)
    requires Orders(b, order)
  {
    var i := FindIntent(b.intents, order).value;
    var p, r := b.pipelines[i.pipeline.value], NewRun(i.pipeline.value, order);
    && run == Some(r.(step := Executing(1), attempts := 1, confirmed := true))
    && now == Seen(Active, [], [], 2, [Speak(Response(p.confirm.value.response)), RunAction(1, p.action.value, InputOf(r))])
  }

  /** And agreed to, its action running. */
  method OneOrder(b: Settings, order: Name) returns (e: Engine)
    requires Orders(b, order)
    ensures e.Valid() && fresh(e) && e.b == b && Tally(e.log).turns == [false, true] && e.failedActions == []
    ensures OrderSent(b, order, e.run, e.Now())
  {
    e := OrderAsked(b, order);
    ghost var p, src, asked, r := e.PipelineOf(), e.Sources(), e.Now(), e.run.value;
    e.OnUtterance(Yes());
    YesIsSent(b, src, p, r, asked, e.run, e.Now());
  }

  /** One yes, two orders, in every such business: a question asked while the order is being sent sends it again. */
  method TwoOrders(b: Settings, order: Name, question: Name) returns (e: Engine)
    requires Shop(b, order, question)
    ensures e.Valid() && Tally(e.log).turns == [false, true, false]
    ensures var i, q := FindIntent(b.intents, order).value, FindIntent(b.intents, question).value;
      var p, input := b.pipelines[i.pipeline.value], InputOf(NewRun(i.pipeline.value, order));
      e.out == [
        Speak(Response(p.confirm.value.response)), RunAction(1, p.action.value, input),
        Speak(Response(q.respond.value)), RunAction(2, p.action.value, input)]
  {
    e := OneOrder(b, order);
    MovesWithoutSlots(b, e.failedActions, e.PipelineOf(), e.Filled(true), e.Now(), e.run, e.Now());
    e.AskWhileBusy(Understanding([], None, Some(Guess(question, 1.0)), None, false, false));
  }
}
