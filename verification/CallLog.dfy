/**
  The history of a call, and what a call may do next after what it did.

  A `History` holds, oldest first, what the call sent (words, actions, the end) and what
  happened to its tasks. Every task has a number, given in the order they began. `Tally` sums a
  history up, `Allowed` says what may come next, and the theorems are about every history made
  of allowed entries only.
*/
module CallLog {
  import opened Options
  import opened CallState
  import opened Business

  datatype Speech =
    | Response(id: Name)
    | Question(slot: Name)
    /** One doubtful value read back. */
    | Check(doubted: Name, value: Value)
    | Repeat
    | Free

  datatype Reason = NotUnderstood | ActionFailed | OutcomeUnknown | Other(why: string)

  datatype Input = Input(pipeline: Name, intent: Name, slots: Values)

  datatype Directive =
    | Speak(speech: Speech)
    | RunAction(id: nat, action: Name, input: Input)
    | Handoff(reason: Reason)
    | Hangup

  datatype Entry =
    /** Anything sent but an action and a read-back. */
    | Sent(directive: Directive)
    /** The task read back, with the values shown. */
    | ReadBack(asked: nat, response: Name, shown: Values)
    | Yes(agreed: nat, step: Step)
    /** A `set`, `clear` or `undo`. */
    | Edited(edited: nat, before: Values, after: Values)
    /** Values that came or went outside the journal. */
    | Slipped(slipped: nat, was: Values, now: Values)
    | Ran(task: nat, id: nat, action: Name, input: Input)
    | Began(begun: nat, given: Values)
    | Suspended(paused: nat)
    | Resumed(resumed: nat)
    | Abandoned
    /** The caller took a turn: whether it was a yes, and the task whose action was running. */
    | Turn(yes: bool, busy: Option<nat>)
    /** A fault of the system was handled; `busy` as above. */
    | Trouble(busy: Option<nat>)
    /** The caller was understood: the fallbacks start over. */
    | Understood
    | Fell
    | Restarted
    /** A silence that counts. */
    | Quiet

  datatype History = Start | Then(before: History, entry: Entry)

  /** What was sent, oldest first. */
  function Outbox(h: History): seq<Directive> {
    match h
    case Start => []
    case Then(b, Sent(d)) => Outbox(b) + [d]
    case Then(b, ReadBack(_, r, _)) => Outbox(b) + [Speak(Response(r))]
    case Then(b, Ran(_, id, a, i)) => Outbox(b) + [RunAction(id, a, i)]
    case Then(b, _) => Outbox(b)
  }

  /** The action ids: the next one, how often each was sent, and for which task. */
  datatype Ids = Ids(next: nat, sent: map<nat, nat>, owner: map<nat, nat>)

  /** The tasks of the call. */
  datatype Book = Book(
    /** Tasks read back, and tasks agreed to with no value changed since. */
    asked: set<nat>,
    agreed: set<nat>,
    /** Tasks whose action was sent, with no yes, turn or trouble while it ran since. */
    spent: set<nat>,
    values: map<nat, Values>,
    next: nat,
    /** Tasks put aside, the last one last. */
    stack: seq<nat>)

  /** How far the call's patience has gone, and whether it is still open. */
  datatype Mood = Mood(level: nat, restarts: nat, silences: nat, active: bool)

  /** A history summed up; of the caller's turns, which were a yes. */
  datatype Sum = Sum(ids: Ids, book: Book, mood: Mood, turns: seq<bool>)

  function Tally(h: History): Sum {
    match h
    case Start => Sum(Ids(1, map[], map[]), Book({}, {}, {}, map[], 0, []), Mood(0, 0, 0, true), [])
    case Then(b, e) => Next(Tally(b), e)
  }

  function Times(t: Sum, id: nat): nat {
    if id in t.ids.sent then t.ids.sent[id] else 0
  }

  function Next(t: Sum, e: Entry): Sum {
    Sum(
      NextIds(t.ids, e),
      NextBook(t.book, e.Ran? && e.id !in t.ids.sent, e),
      NextMood(t.mood, e),
      if e.Turn? then t.turns + [e.yes] else t.turns)
  }

  function NextIds(i: Ids, e: Entry): Ids {
    match e
    case Ran(n, id, _, _) =>
      if id in i.sent then i.(sent := i.sent[id := i.sent[id] + 1])
      else Ids(id + 1, i.sent[id := 1], i.owner[id := n])
    case _ => i
  }

  function Freed(spent: set<nat>, busy: Option<nat>): set<nat> {
    if busy.Some? then spent - {busy.value} else spent
  }

  /** `isNew`: the action of the entry is a new one. */
  function NextBook(k: Book, isNew: bool, e: Entry): Book {
    match e
    case ReadBack(n, _, _) => k.(asked := k.asked + {n})
    case Yes(n, _) => k.(agreed := k.agreed + {n}, spent := k.spent - {n})
    case Edited(n, before, after) =>
      k.(agreed := if before == after then k.agreed else k.agreed - {n}, values := k.values[n := after])
    case Slipped(n, _, now) => k.(values := k.values[n := now])
    case Ran(n, _, _, _) => if isNew then k.(spent := k.spent + {n}) else k
    case Began(n, given) => k.(next := n + 1, values := k.values[n := given])
    case Suspended(n) => k.(stack := k.stack + [n])
    case Resumed(_) => k.(stack := if k.stack == [] then [] else k.stack[..|k.stack| - 1])
    case Abandoned => k.(stack := [])
    case Turn(_, busy) => k.(spent := Freed(k.spent, busy))
    case Trouble(busy) => k.(spent := Freed(k.spent, busy))
    case _ => k
  }

  function NextMood(m: Mood, e: Entry): Mood {
    match e
    case Sent(Hangup) => m.(active := false)
    case Sent(Handoff(_)) => m.(active := false)
    case Turn(_, _) => m.(silences := 0)
    case Understood => m.(level := 0)
    case Fell => m.(level := m.level + 1)
    case Restarted => m.(level := 0, restarts := m.restarts + 1)
    case Quiet => m.(silences := m.silences + 1)
    case _ => m
  }

  // ---------------------------------------------------------------------------------------
  // What may come next
  // ---------------------------------------------------------------------------------------

  /** Every value the pipeline needs is there. */
  ghost predicate Complete(p: Pipeline, slots: Values) {
    forall i :: 0 <= i < |p.slots| && p.slots[i].required ==> p.slots[i].slot in slots
  }

  /** The turn being taken is a yes. */
  ghost predicate YesNow(t: Sum) {
    t.turns != [] && t.turns[|t.turns| - 1]
  }

  /** A new action of a task that is complete, where it is read back agreed to, and not sent already. */
  ghost predicate MayStart(b: Settings, t: Sum, task: nat, id: nat, action: Name, input: Input) {
    && id >= t.ids.next && b.MaxAttempts(action) >= 1 && task !in t.book.spent
    && input.pipeline in b.pipelines
    && var p := b.pipelines[input.pipeline];
      p.action == Some(action) && Complete(p, input.slots) && (p.confirm.Some? ==> task in t.book.agreed)
  }

  /** The same action again, for the same task. */
  ghost predicate MayRetry(b: Settings, t: Sum, task: nat, id: nat, action: Name) {
    id in t.ids.sent && t.ids.sent[id] < b.MaxAttempts(action) && id in t.ids.owner && t.ids.owner[id] == task
  }

  /** The values are those of the task. */
  ghost predicate Has(t: Sum, task: nat, values: Values) {
    task in t.book.values && t.book.values[task] == values
  }

  ghost predicate Allowed(b: Settings, t: Sum, e: Entry) {
    match e
    case Sent(d) => !d.RunAction?
    case ReadBack(n, _, shown) => Has(t, n, shown)
    case Yes(n, step) => step == AwaitingConfirmation && n in t.book.asked && YesNow(t)
    case Edited(n, before, _) => Has(t, n, before)
    case Slipped(n, was, _) => Has(t, n, was)
    case Ran(task, id, action, input) =>
      && Has(t, task, input.slots)
      && if id in t.ids.sent then MayRetry(b, t, task, id, action) else MayStart(b, t, task, id, action, input)
    case Began(n, _) => n >= t.book.next
    case Suspended(n) => n < t.book.next && (t.book.stack == [] || t.book.stack[|t.book.stack| - 1] < n)
    case Resumed(n) => t.book.stack != [] && t.book.stack[|t.book.stack| - 1] == n
    case Fell => t.mood.active && t.mood.level <= |b.ladder|
    case Restarted => t.mood.restarts == 0 && t.mood.level > |b.ladder|
    case Quiet => t.mood.active && t.mood.silences <= b.Patience()
    case _ => true
  }

  ghost predicate Good(b: Settings, h: History) {
    h.Then? ==> Good(b, h.before) && Allowed(b, Tally(h.before), h.entry)
  }

  /** Between two things that happen, an open call has patience left. */
  ghost predicate Settled(b: Settings, t: Sum) {
    t.mood.active ==> t.mood.level <= |b.ladder| && t.mood.silences <= b.Patience()
  }

  /** `early` is `h` or a part of it from the start. */
  ghost predicate Part(early: History, h: History) {
    early == h || (h.Then? && Part(early, h.before))
  }

  lemma {:induction false} PartIsGood(b: Settings, early: History, h: History)
    requires Part(early, h) && Good(b, h)
    ensures Good(b, early)
  {
    if early != h {
      PartIsGood(b, early, h.before);
    }
  }

  // ---------------------------------------------------------------------------------------
  // Nothing is done without a yes
  // ---------------------------------------------------------------------------------------

  /** No edit between `from` and `h` changed a value of the task. */
  ghost predicate Untouched(from: History, h: History, task: nat)
    requires Part(from, h)
  {
    from == h || (Untouched(from, h.before, task) && (h.entry.Edited? && h.entry.edited == task ==> h.entry.before == h.entry.after))
  }

  /** Whether the last turn of the caller was a yes. */
  ghost predicate LastTurnYes(h: History) {
    h.Then? && (if h.entry.Turn? then h.entry.yes else LastTurnYes(h.before))
  }

  lemma {:induction false} TurnsKeepTheYes(h: History)
    ensures YesNow(Tally(h)) <==> LastTurnYes(h)
  {
    if h.Then? {
      TurnsKeepTheYes(h.before);
      TurnsGrow(Tally(h.before), h.entry);
    }
  }

  lemma TurnsGrow(t: Sum, e: Entry)
    ensures Next(t, e).turns == if e.Turn? then t.turns + [e.yes] else t.turns
  {
  }

  /** `h` has a read-back of the task in it. */
  ghost predicate WasReadBack(h: History, task: nat) {
    h.Then? && ((h.entry.ReadBack? && h.entry.asked == task) || WasReadBack(h.before, task))
  }

  /** `yes` is where the caller, in a turn that was a yes, agreed to the task as it had been read back. */
  ghost predicate SaidYes(yes: History, task: nat) {
    && yes.Then? && yes.entry == Yes(task, AwaitingConfirmation)
    && LastTurnYes(yes.before) && WasReadBack(yes.before, task)
  }

  lemma {:induction false} AskedWasReadBack(h: History, task: nat)
    ensures task in Tally(h).book.asked <==> WasReadBack(h, task)
  {
    if h.Then? {
      AskedWasReadBack(h.before, task);
      AskedGrows(Tally(h.before), h.entry, task);
    }
  }

  lemma AskedGrows(t: Sum, e: Entry, task: nat)
    ensures task in Next(t, e).book.asked <==> task in t.book.asked || (e.ReadBack? && e.asked == task)
  {
  }

  lemma AgreedBefore(t: Sum, e: Entry, task: nat)
    requires task in Next(t, e).book.agreed && !(e.Yes? && e.agreed == task)
    ensures task in t.book.agreed && (e.Edited? && e.edited == task ==> e.before == e.after)
  {
  }

  lemma {:induction false} AgreedSaidYes(b: Settings, h: History, task: nat)
    requires Good(b, h) && task in Tally(h).book.agreed
    ensures exists yes :: Part(yes, h) && SaidYes(yes, task) && Untouched(yes, h, task)
  {
    if h.entry.Yes? && h.entry.agreed == task {
      AskedWasReadBack(h.before, task);
      TurnsKeepTheYes(h.before);
      assert Part(h, h) && SaidYes(h, task) && Untouched(h, h, task);
    } else {
      AgreedBefore(Tally(h.before), h.entry, task);
      AgreedSaidYes(b, h.before, task);
      var yes :| Part(yes, h.before) && SaidYes(yes, task) && Untouched(yes, h.before, task);
      assert Part(yes, h) && Untouched(yes, h, task);
    }
  }

  /**
    Confirmation safety: an action of a task that is read back is new only after a yes to that
    read-back, with no value of the task changed since; and every value it needs is in it.
  */
  lemma NothingRunsWithoutAYes(b: Settings, h: History, task: nat, id: nat, action: Name, input: Input)
    requires b.Valid() && Good(b, Then(h, Ran(task, id, action, input))) && Emissions(h, id) == 0
    ensures input.pipeline in b.pipelines && b.pipelines[input.pipeline].action == Some(action)
    ensures Complete(b.pipelines[input.pipeline], input.slots)
    ensures b.pipelines[input.pipeline].confirm.Some? || b.Changes(action) ==>
      exists yes :: Part(yes, h) && SaidYes(yes, task) && Untouched(yes, h, task)
  {
    SentIsEmissions(h, id);
    if b.pipelines[input.pipeline].confirm.Some? || b.Changes(action) {
      AgreedSaidYes(b, h, task);
    }
  }

  // ---------------------------------------------------------------------------------------
  // Action ids
  // ---------------------------------------------------------------------------------------

  /** How often an id was sent. */
  function Emissions(h: History, id: nat): nat {
    match h
    case Start => 0
    case Then(b, e) => Emissions(b, id) + if e.Ran? && e.id == id then 1 else 0
  }

  lemma {:induction false} SentIsEmissions(h: History, id: nat)
    ensures Emissions(h, id) == Times(Tally(h), id)
    ensures id in Tally(h).ids.sent <==> Emissions(h, id) > 0
  {
    if h.Then? {
      SentIsEmissions(h.before, id);
    }
  }

  lemma NextIdGrows(b: Settings, t: Sum, e: Entry)
    requires Allowed(b, t, e)
    ensures t.ids.next <= Next(t, e).ids.next
    ensures forall id :: id in Next(t, e).ids.sent && id !in t.ids.sent ==> id < Next(t, e).ids.next
  {
  }

  lemma {:induction false} IdsAreBelowNext(b: Settings, h: History, id: nat)
    requires Good(b, h) && id in Tally(h).ids.sent
    ensures id < Tally(h).ids.next
  {
    if id in Tally(h.before).ids.sent {
      IdsAreBelowNext(b, h.before, id);
    }
    NextIdGrows(b, Tally(h.before), h.entry);
  }

  lemma {:induction false} NextIsNotSent(b: Settings, h: History, id: nat)
    requires Good(b, h) && id >= Tally(h).ids.next
    ensures id !in Tally(h).ids.sent
  {
    if id in Tally(h).ids.sent {
      IdsAreBelowNext(b, h, id);
    }
  }

  /** A new id is above every id before it. */
  lemma NewIdsIncrease(b: Settings, h: History, task: nat, id: nat, action: Name, input: Input, other: nat)
    requires Good(b, Then(h, Ran(task, id, action, input))) && Emissions(h, id) == 0 && Emissions(h, other) > 0
    ensures other < id
  {
    SentIsEmissions(h, id);
    SentIsEmissions(h, other);
    IdsAreBelowNext(b, h, other);
  }

  /** An id is never sent more often than its action may be tried. */
  lemma AttemptsAreBounded(b: Settings, h: History, task: nat, id: nat, action: Name, input: Input)
    requires Good(b, Then(h, Ran(task, id, action, input)))
    ensures Emissions(Then(h, Ran(task, id, action, input)), id) <= b.MaxAttempts(action)
  {
    SentIsEmissions(h, id);
  }

  // ---------------------------------------------------------------------------------------
  // The same of what was sent
  // ---------------------------------------------------------------------------------------

  /** How often the directives run the action with this id. */
  function Sends(out: seq<Directive>, id: nat): nat {
    if out == [] then 0
    else
      var last := out[|out| - 1];
      Sends(out[..|out| - 1], id) + if last.RunAction? && last.id == id then 1 else 0
  }

  lemma {:induction false} SendsOneMore(out: seq<Directive>, d: Directive, id: nat)
    ensures Sends(out + [d], id) == Sends(out, id) + if d.RunAction? && d.id == id then 1 else 0
  {
    assert (out + [d])[..|out|] == out;
  }

  /** What an entry sends. */
  function Posted(e: Entry): seq<Directive> {
    match e
    case Sent(d) => [d]
    case ReadBack(_, r, _) => [Speak(Response(r))]
    case Ran(_, id, a, i) => [RunAction(id, a, i)]
    case _ => []
  }

  lemma {:induction false} OutboxGrows(h: History, e: Entry)
    ensures Outbox(Then(h, e)) == Outbox(h) + Posted(e)
  {
    assert Outbox(h) + [] == Outbox(h);
  }

  /** One entry more sends one action more, or none. */
  lemma {:induction false} PostedIsCounted(out: seq<Directive>, e: Entry, id: nat)
    requires e.Sent? ==> !e.directive.RunAction?
    ensures Sends(out + Posted(e), id) == Sends(out, id) + if e.Ran? && e.id == id then 1 else 0
  {
    if Posted(e) == [] {
      assert out + [] == out;
    } else {
      SendsOneMore(out, Posted(e)[0], id);
    }
  }

  /** What the history counts is what was sent. */
  lemma {:induction false} EmissionsAreSends(b: Settings, h: History, id: nat)
    requires Good(b, h)
    ensures Emissions(h, id) == Sends(Outbox(h), id)
  {
    if h.Then? {
      EmissionsAreSends(b, h.before, id);
      OutboxGrows(h.before, h.entry);
      PostedIsCounted(Outbox(h.before), h.entry, id);
    }
  }

  /** The history has the directive there, as an action of this task. */
  ghost predicate OnRecord(at: History, task: nat, d: Directive, h: History) {
    d.RunAction? && Part(Then(at, Ran(task, d.id, d.action, d.input)), h)
  }

  /** An action sent is the one the history has there. */
  lemma {:induction false} SentActionIsOnRecord(b: Settings, h: History, k: nat) returns (at: History, task: nat)
    requires Good(b, h) && k < |Outbox(h)| && Outbox(h)[k].RunAction?
    ensures OnRecord(at, task, Outbox(h)[k], h) && Outbox(at) == Outbox(h)[..k] && Good(b, at)
  {
    if k < |Outbox(h.before)| {
      at, task := SentActionIsOnRecord(b, h.before, k);
      assert Outbox(h)[..k] == Outbox(h.before)[..k];
    } else {
      at, task := h.before, h.entry.task;
    }
  }

  /** The action changes something, or its task has a read-back. */
  predicate NeedsYes(b: Settings, action: Name, input: Input) {
    b.Changes(action) || (input.pipeline in b.pipelines && b.pipelines[input.pipeline].confirm.Some?)
  }

  /** Such an action goes out first only on a yes to its read-back, its values untouched since. */
  lemma {:induction false} SentOnlyOnAYes(b: Settings, h: History, k: nat) returns (yes: History, at: History, task: nat)
    requires b.Valid() && Good(b, h) && k < |Outbox(h)| && Outbox(h)[k].RunAction?
    requires Sends(Outbox(h)[..k], Outbox(h)[k].id) == 0 && NeedsYes(b, Outbox(h)[k].action, Outbox(h)[k].input)
    ensures OnRecord(at, task, Outbox(h)[k], h) && Outbox(at) == Outbox(h)[..k]
    ensures Part(yes, at) && SaidYes(yes, task) && Untouched(yes, at, task)
  {
    at, task := SentActionIsOnRecord(b, h, k);
    var d := Outbox(h)[k];
    var now := Then(at, Ran(task, d.id, d.action, d.input));
    PartIsGood(b, now, h);
    EmissionsAreSends(b, at, d.id);
    NothingRunsWithoutAYes(b, at, task, d.id, d.action, d.input);
    yes :| Part(yes, at) && SaidYes(yes, task) && Untouched(yes, at, task);
  }

  /** No id is sent more often than its action allows. */
  lemma {:induction false} AttemptsSent(b: Settings, h: History, k: nat)
    requires Good(b, h) && k < |Outbox(h)| && Outbox(h)[k].RunAction?
    ensures Sends(Outbox(h)[..k + 1], Outbox(h)[k].id) <= b.MaxAttempts(Outbox(h)[k].action)
  {
    var at, task := SentActionIsOnRecord(b, h, k);
    var d := Outbox(h)[k];
    PartIsGood(b, Then(at, Ran(task, d.id, d.action, d.input)), h);
    EmissionsAreSends(b, at, d.id);
    AttemptsAreBounded(b, at, task, d.id, d.action, d.input);
    SendsOneMore(Outbox(h)[..k], d, d.id);
    assert Outbox(h)[..k + 1] == Outbox(h)[..k] + [d];
  }

  /** Ids sent for the first time strictly increase. */
  lemma {:induction false} SentIdsIncrease(b: Settings, h: History, j: nat, k: nat)
    requires Good(b, h) && j < k < |Outbox(h)| && Outbox(h)[j].RunAction? && Outbox(h)[k].RunAction?
    ensures Sends(Outbox(h)[..k], Outbox(h)[k].id) == 0 ==> Outbox(h)[j].id < Outbox(h)[k].id
  {
    var at, task := SentActionIsOnRecord(b, h, k);
    var d, other := Outbox(h)[k], Outbox(h)[j].id;
    PartIsGood(b, Then(at, Ran(task, d.id, d.action, d.input)), h);
    EmissionsAreSends(b, at, d.id);
    EmissionsAreSends(b, at, other);
    SentIsCounted(Outbox(at), j, other);
    if Emissions(at, d.id) == 0 {
      NewIdsIncrease(b, at, task, d.id, d.action, d.input, other);
    }
  }

  lemma {:induction false} SentIsCounted(out: seq<Directive>, j: nat, id: nat)
    requires j < |out| && out[j].RunAction? && out[j].id == id
    ensures Sends(out, id) > 0
  {
    if j < |out| - 1 {
      SentIsCounted(out[..|out| - 1], j, id);
    }
  }

  // ---------------------------------------------------------------------------------------
  // One action for a yes
  // ---------------------------------------------------------------------------------------

  /** After `from` the task was agreed to again, or a turn or trouble came while its action ran. */
  ghost predicate Disturbed(from: History, h: History, task: nat)
    requires Part(from, h)
  {
    from != h && (Disturbs(h.entry, task) || Disturbed(from, h.before, task))
  }

  ghost predicate Disturbs(e: Entry, task: nat) {
    || (e.Yes? && e.agreed == task)
    || (e.Turn? && e.busy == Some(task))
    || (e.Trouble? && e.busy == Some(task))
  }

  lemma SpentUntilDisturbed(t: Sum, e: Entry, task: nat)
    requires task in t.book.spent && !Disturbs(e, task)
    ensures task in Next(t, e).book.spent
  {
  }

  lemma {:induction false} StaysSpent(from: History, h: History, task: nat)
    requires Part(from, h) && task in Tally(from).book.spent && !Disturbed(from, h, task)
    ensures task in Tally(h).book.spent
  {
    if from != h {
      StaysSpent(from, h.before, task);
      SpentUntilDisturbed(Tally(h.before), h.entry, task);
    }
  }

  /**
    One action for a yes: two new ids of one task have another yes of it between them, or a turn
    or trouble that was handled while the first of them was running.
  */
  lemma {:induction false} OneActionForAYes(b: Settings, first: History, h: History, task: nat, ran: Entry, again: Entry)
    requires ran.Ran? && again.Ran? && ran.task == again.task == task
    requires Part(Then(first, ran), h) && Good(b, Then(h, again))
    requires Emissions(first, ran.id) == 0 && Emissions(h, again.id) == 0
    ensures Disturbed(Then(first, ran), h, task)
  {
    SentIsEmissions(first, ran.id);
    SentIsEmissions(h, again.id);
    if !Disturbed(Then(first, ran), h, task) {
      StaysSpent(Then(first, ran), h, task);
    }
  }

  /** The same of two actions among the directives, each the first with its id. */
  lemma {:induction false} TwoIdsAreDisturbed(b: Settings, h: History, j: nat, k: nat)
    returns (first: History, x: nat, second: History, y: nat)
    requires Good(b, h) && j < k < |Outbox(h)| && Outbox(h)[j].RunAction? && Outbox(h)[k].RunAction?
    requires Sends(Outbox(h)[..j], Outbox(h)[j].id) == 0 && Sends(Outbox(h)[..k], Outbox(h)[k].id) == 0
    ensures OnRecord(first, x, Outbox(h)[j], second) && OnRecord(second, y, Outbox(h)[k], h)
    ensures x == y ==>
      Disturbed(Then(first, Ran(x, Outbox(h)[j].id, Outbox(h)[j].action, Outbox(h)[j].input)), second, x)
  {
    var c, d := Outbox(h)[j], Outbox(h)[k];
    second, y := SentActionIsOnRecord(b, h, k);
    assert Outbox(second)[j] == c && Outbox(second)[..j] == Outbox(h)[..j];
    first, x := SentActionIsOnRecord(b, second, j);
    EmissionsAreSends(b, second, d.id);
    EmissionsAreSends(b, first, c.id);
    PartIsGood(b, Then(second, Ran(y, d.id, d.action, d.input)), h);
    if x == y {
      OneActionForAYes(b, first, second, x, Ran(x, c.id, c.action, c.input), Ran(y, d.id, d.action, d.input));
    }
  }

  // ---------------------------------------------------------------------------------------
  // The values sent
  // ---------------------------------------------------------------------------------------

  /** The entry changes a value of the task, in the journal or outside it. */
  ghost predicate Alters(e: Entry, task: nat) {
    || (e.Edited? && e.edited == task && e.before != e.after)
    || (e.Slipped? && e.slipped == task && e.was != e.now)
    || (e.Began? && e.begun == task)
  }

  /** How often a value of the task changed between `from` and `h`. */
  ghost function Alterations(from: History, h: History, task: nat): nat
    requires Part(from, h)
  {
    if from == h then 0 else Alterations(from, h.before, task) + if Alters(h.entry, task) then 1 else 0
  }

  lemma SameUnlessAltered(b: Settings, t: Sum, e: Entry, task: nat)
    requires Allowed(b, t, e) && task in t.book.values
    ensures task in Next(t, e).book.values
    ensures !Alters(e, task) ==> Next(t, e).book.values[task] == t.book.values[task]
    ensures Alters(e, task) && !e.Began? ==> Next(t, e).book.values[task] != t.book.values[task]
  {
  }

  lemma {:induction false} ValuesStay(b: Settings, from: History, h: History, task: nat)
    requires Part(from, h) && Good(b, h) && task in Tally(from).book.values
    ensures task in Tally(h).book.values
    ensures Alterations(from, h, task) == 0 ==> Tally(h).book.values[task] == Tally(from).book.values[task]
  {
    if from != h {
      ValuesStay(b, from, h.before, task);
      SameUnlessAltered(b, Tally(h.before), h.entry, task);
    }
  }

  /** Tasks are numbered once: a task that has values is not begun again. */
  lemma {:induction false} ValuesAreBelowNext(b: Settings, h: History, task: nat)
    requires Good(b, h) && task in Tally(h).book.values
    ensures task < Tally(h).book.next
  {
    if task in Tally(h.before).book.values {
      ValuesAreBelowNext(b, h.before, task);
    }
    NextTaskGrows(b, Tally(h.before), h.entry, task);
  }

  lemma NextTaskGrows(b: Settings, t: Sum, e: Entry, task: nat)
    requires Allowed(b, t, e)
    ensures t.book.next <= Next(t, e).book.next
    ensures task in Next(t, e).book.values && task !in t.book.values ==> task < Next(t, e).book.next
  {
  }

  /** Only a task that has values has an action sent. */
  lemma {:induction false} SpentHasValues(b: Settings, h: History, task: nat)
    requires Good(b, h) && task in Tally(h).book.spent
    ensures task in Tally(h).book.values
  {
    if task in Tally(h.before).book.spent {
      SpentHasValues(b, h.before, task);
    }
    SpentKeepsValues(b, Tally(h.before), h.entry, task);
  }

  lemma SpentKeepsValues(b: Settings, t: Sum, e: Entry, task: nat)
    requires Allowed(b, t, e) && (task in t.book.spent ==> task in t.book.values)
    ensures task in Next(t, e).book.spent ==> task in Next(t, e).book.values
  {
  }

  lemma {:induction false} NextIsNotSpent(b: Settings, h: History)
    requires Good(b, h)
    ensures Tally(h).book.next !in Tally(h).book.spent
  {
    var next := Tally(h).book.next;
    if next in Tally(h).book.spent {
      SpentHasValues(b, h, next);
      ValuesAreBelowNext(b, h, next);
    }
  }

  lemma {:induction false} OneAlterationShows(b: Settings, from: History, h: History, task: nat)
    requires Part(from, h) && Good(b, h) && task in Tally(from).book.values && Alterations(from, h, task) == 1
    ensures task in Tally(h).book.values && Tally(h).book.values[task] != Tally(from).book.values[task]
  {
    ValuesStay(b, from, h.before, task);
    SameUnlessAltered(b, Tally(h.before), h.entry, task);
    if Alters(h.entry, task) {
      ValuesAreBelowNext(b, h.before, task);
    } else {
      OneAlterationShows(b, from, h.before, task);
    }
  }

  /**
    What a task shows or sends, at two moments of a call: with no alteration between them it is the
    same, with exactly one it is not; with more it is the same only if they cancel out.
  */
  lemma {:induction false} ShownAgain(b: Settings, first: History, e: Entry, h: History, f: Entry, task: nat)
    requires Part(Then(first, e), h) && Good(b, Then(h, f))
    requires Shows(e, task) && Shows(f, task)
    ensures var n := Alterations(Then(first, e), h, task);
      (n == 0 ==> Shown(e) == Shown(f)) && (n == 1 ==> Shown(e) != Shown(f))
    ensures task in Tally(first).book.values && task in Tally(h).book.values
    ensures Shown(e) == Shown(f) <==> Tally(first).book.values[task] == Tally(h).book.values[task]
  {
    PartIsGood(b, Then(first, e), h);
    ValuesStay(b, Then(first, e), h, task);
    if Alterations(Then(first, e), h, task) == 1 {
      OneAlterationShows(b, Then(first, e), h, task);
    }
  }

  /** A read-back or a send of the task. */
  ghost predicate Shows(e: Entry, task: nat) {
    (e.ReadBack? && e.asked == task) || (e.Ran? && e.task == task)
  }

  ghost function Shown(e: Entry): Values
    requires e.ReadBack? || e.Ran?
  {
    if e.ReadBack? then e.shown else e.input.slots
  }

  /** An id belongs to the task it was first sent for. */
  lemma {:induction false} RetriesAreOfTheTask(b: Settings, first: History, h: History, ran: Entry, again: Entry)
    requires ran.Ran? && again.Ran? && ran.id == again.id
    requires Part(Then(first, ran), h) && Good(b, Then(h, again))
    ensures again.task == ran.task
  {
    OwnerStays(b, first, h, ran);
    SentIsEmissions(h, ran.id);
  }

  lemma {:induction false} OwnerStays(b: Settings, first: History, h: History, ran: Entry)
    requires ran.Ran? && Part(Then(first, ran), h) && Good(b, h)
    ensures var t := Tally(h); ran.id in t.ids.sent && ran.id in t.ids.owner && t.ids.owner[ran.id] == ran.task
  {
    if h == Then(first, ran) {
      OwnerOfTheFirst(b, Tally(first), ran);
    } else {
      OwnerStays(b, first, h.before, ran);
      OwnerKept(Tally(h.before), h.entry, ran.id);
    }
  }

  lemma OwnerOfTheFirst(b: Settings, t: Sum, ran: Entry)
    requires ran.Ran? && Allowed(b, t, ran)
    ensures var n := Next(t, ran); ran.id in n.ids.sent && ran.id in n.ids.owner && n.ids.owner[ran.id] == ran.task
  {
  }

  lemma OwnerKept(t: Sum, e: Entry, id: nat)
    requires id in t.ids.sent && id in t.ids.owner
    ensures var n := Next(t, e); id in n.ids.sent && id in n.ids.owner && n.ids.owner[id] == t.ids.owner[id]
  {
  }

  /** A retry carries the values of the first send if no value changed in between, and others if one did. */
  lemma {:induction false} RetryValues(b: Settings, first: History, h: History, ran: Entry, again: Entry)
    requires ran.Ran? && again.Ran? && ran.id == again.id
    requires Part(Then(first, ran), h) && Good(b, Then(h, again))
    ensures var n := Alterations(Then(first, ran), h, ran.task);
      (n == 0 ==> again.input.slots == ran.input.slots) && (n == 1 ==> again.input.slots != ran.input.slots)
  {
    RetriesAreOfTheTask(b, first, h, ran, again);
    ShownAgain(b, first, ran, h, again, ran.task);
  }

  // ---------------------------------------------------------------------------------------
  // Tasks put aside come back last in, first out
  // ---------------------------------------------------------------------------------------

  ghost predicate Increasing(s: seq<nat>) {
    forall i, j :: 0 <= i < j < |s| ==> s[i] < s[j]
  }

  lemma StackStaysIncreasing(b: Settings, t: Sum, e: Entry)
    requires Allowed(b, t, e) && Increasing(t.book.stack)
    ensures Increasing(Next(t, e).book.stack)
  {
    if e.Suspended? && t.book.stack != [] {
      assert forall i :: 0 <= i < |t.book.stack| ==> t.book.stack[i] <= t.book.stack[|t.book.stack| - 1];
    }
  }

  lemma {:induction false} StackIncreases(b: Settings, h: History)
    requires Good(b, h)
    ensures Increasing(Tally(h).book.stack)
  {
    if h.Then? {
      StackIncreases(b, h.before);
      StackStaysIncreasing(b, Tally(h.before), h.entry);
    }
  }

  /** What happened after `from`: `task` was resumed, or everything was abandoned. */
  ghost predicate CameBack(from: History, h: History, task: nat)
    requires Part(from, h)
  {
    from != h && (h.entry == Resumed(task) || h.entry.Abandoned? || CameBack(from, h.before, task))
  }

  /** Whatever lies under the top of the stack, and the top too until it is resumed, stays there. */
  lemma StackKeeps(b: Settings, t: Sum, e: Entry, under: seq<nat>, task: nat)
    requires Allowed(b, t, e) && Increasing(t.book.stack) && under + [task] <= t.book.stack
    requires e != Resumed(task) && !e.Abandoned?
    ensures under + [task] <= Next(t, e).book.stack
  {
    var s := t.book.stack;
    if e.Resumed? {
      assert s[|under|] == task;
      assert |s| > |under| + 1;
    }
  }

  /** A task put aside lies on the stack, over what lay there, until it comes back. */
  lemma {:induction false} StaysOnTheStack(b: Settings, from: History, h: History, task: nat)
    requires Good(b, h) && Part(from, h) && from.Then? && from.entry == Suspended(task) && !CameBack(from, h, task)
    ensures var under, s := Tally(from.before).book.stack, Tally(h).book.stack; under + [task] <= s
  {
    if from != h {
      StaysOnTheStack(b, from, h.before, task);
      StackIncreases(b, h.before);
      StackKeeps(b, Tally(h.before), h.entry, Tally(from.before).book.stack, task);
    }
  }

  /**
    Last in, first out: a task put aside before another is resumed only after that other one
    came back, unless everything was abandoned.
  */
  lemma {:induction false} LastInFirstOut(b: Settings, first: History, second: History, h: History, x: nat, y: nat)
    requires Good(b, Then(h, Resumed(x))) && Part(second, h) && second.Then? && Part(first, second.before)
    requires first.Then? && first.entry == Suspended(x) && second.entry == Suspended(y)
    requires !CameBack(first, second.before, x)
    ensures CameBack(second, h, y)
  {
    if !CameBack(second, h, y) {
      PartIsGood(b, second, h);
      StaysOnTheStack(b, first, second.before, x);
      StaysOnTheStack(b, second, h, y);
      StackIncreases(b, h);
      NotTheTop(Tally(first.before).book.stack, x, Tally(second.before).book.stack, y, Tally(h).book.stack);
    }
  }

  /** What lies under another task is not the top. */
  lemma NotTheTop(low: seq<nat>, x: nat, under: seq<nat>, y: nat, s: seq<nat>)
    requires Increasing(s) && under + [y] <= s && low + [x] <= under
    ensures s[|s| - 1] != x
  {
    assert under[|low|] == x && s[|low|] == x && s[|under|] == y;
  }

  // ---------------------------------------------------------------------------------------
  // Patience ends
  // ---------------------------------------------------------------------------------------

  ghost function Falls(from: History, h: History): nat
    requires Part(from, h)
  {
    if from == h then 0 else Falls(from, h.before) + if h.entry.Fell? then 1 else 0
  }

  /** The caller was never understood between `from` and `h`. */
  ghost predicate NeverUnderstood(from: History, h: History)
    requires Part(from, h)
  {
    from == h || (!h.entry.Understood? && NeverUnderstood(from, h.before))
  }

  /** What is left of the two ways down the ladder. */
  ghost function Rungs(b: Settings, t: Sum): int {
    (if t.mood.restarts == 0 then |b.ladder| + 1 else 0) + |b.ladder| + 1 - t.mood.level
  }

  lemma LevelStaysLow(b: Settings, t: Sum, e: Entry)
    requires Allowed(b, t, e) && t.mood.level <= |b.ladder| + 1
    ensures Next(t, e).mood.level <= |b.ladder| + 1
  {
  }

  lemma {:induction false} RungsAreNotNegative(b: Settings, h: History)
    requires Good(b, h)
    ensures Tally(h).mood.level <= |b.ladder| + 1
  {
    if h.Then? {
      RungsAreNotNegative(b, h.before);
      LevelStaysLow(b, Tally(h.before), h.entry);
    }
  }

  lemma OneRung(b: Settings, t: Sum, e: Entry)
    requires Allowed(b, t, e) && !e.Understood? && t.mood.level <= |b.ladder| + 1
    ensures Rungs(b, Next(t, e)) <= Rungs(b, t) - if e.Fell? then 1 else 0
  {
  }

  lemma {:induction false} EveryFallIsARung(b: Settings, from: History, h: History)
    requires Good(b, h) && Part(from, h) && NeverUnderstood(from, h)
    ensures Falls(from, h) <= Rungs(b, Tally(from)) - Rungs(b, Tally(h))
  {
    if from != h {
      EveryFallIsARung(b, from, h.before);
      RungsAreNotNegative(b, h.before);
      OneRung(b, Tally(h.before), h.entry);
    }
  }

  /** Twice the ladder and one more, with nothing understood in between, ends the call. */
  lemma FallbacksEndTheCall(b: Settings, from: History, h: History)
    requires Good(b, h) && Part(from, h) && NeverUnderstood(from, h) && Settled(b, Tally(h))
    requires Falls(from, h) >= 2 * (|b.ladder| + 1)
    ensures !Tally(h).mood.active
  {
    EveryFallIsARung(b, from, h);
  }

  ghost function Silences(from: History, h: History): nat
    requires Part(from, h)
  {
    if from == h then 0 else Silences(from, h.before) + if h.entry.Quiet? then 1 else 0
  }

  /** The caller said nothing between `from` and `h`. */
  ghost predicate NoTurn(from: History, h: History)
    requires Part(from, h)
  {
    from == h || (!h.entry.Turn? && NoTurn(from, h.before))
  }

  lemma {:induction false} SilencesAddUp(from: History, h: History)
    requires Part(from, h) && NoTurn(from, h)
    ensures Tally(h).mood.silences == Tally(from).mood.silences + Silences(from, h)
  {
    if from != h {
      SilencesAddUp(from, h.before);
    }
  }

  /** One silence more than the business has patience for, with no turn in between, ends the call. */
  lemma SilenceEndsTheCall(b: Settings, from: History, h: History)
    requires Part(from, h) && NoTurn(from, h) && Settled(b, Tally(h))
    requires Silences(from, h) >= b.maxReprompts + b.patientReprompts + 1
    ensures !Tally(h).mood.active
  {
    SilencesAddUp(from, h);
  }

  /** A call that has ended stays so. */
  lemma {:induction false} NeverReopens(from: History, h: History)
    requires Part(from, h) && !Tally(from).mood.active
    ensures !Tally(h).mood.active
  {
    if from != h {
      NeverReopens(from, h.before);
    }
  }
}
