/**
  The decisions of the dialogue engine that only look: which values a task can take from
  elsewhere, which of the caller's values it takes, and what it does next.
*/
module Tasks {
  import opened Options
  import opened CallState
  import opened Business
  import opened CallLog

  datatype Outcome = Success | Failed | Unknown | Declined | Completed | Cancelled

  datatype CompletedRun = CompletedRun(pipeline: Name, outcome: Outcome, slots: Values)

  function Record(r: PipelineRun, outcome: Outcome): CompletedRun {
    CompletedRun(r.pipeline, outcome, ValuesOf(r.slots))
  }

  datatype Customer = Customer(name: Option<Value>, places: Values)

  /** Where missing values come from: other tasks, towns given so far, the customer's record. */
  datatype Sources = Sources(
    suspended: seq<PipelineRun>, completed: seq<CompletedRun>, cities: Values, customer: Option<Customer>)

  const NAME: Name := "name"

  // ---------------------------------------------------------------------------------------
  // Values nobody has to ask for
  // ---------------------------------------------------------------------------------------

  /** The value of the last task put aside that has one. */
  function FromSuspended(rs: seq<PipelineRun>, slot: Name): Option<Value> {
    if rs == [] then None
    else
      var last := rs[|rs| - 1];
      if slot in last.slots then Some(last.slots[slot].value) else FromSuspended(rs[..|rs| - 1], slot)
  }

  function FromCompleted(cs: seq<CompletedRun>, slot: Name): Option<Value> {
    if cs == [] then None
    else
      var last := cs[|cs| - 1];
      if slot in last.slots then Some(last.slots[slot]) else FromCompleted(cs[..|cs| - 1], slot)
  }

  function Elsewhere(src: Sources, slot: Name): Option<Value> {
    var put := FromSuspended(src.suspended, slot);
    var done := FromCompleted(src.completed, slot);
    if put.Some? then put else if done.Some? then done
    else if slot in src.cities then Some(src.cities[slot]) else None
  }

  /** The value of a linked slot: what the task `fromSlot` names it in held last, taken as certain. */
  function FromOthers(src: Sources, ps: PipelineSlot): Option<SlotState> {
    if ps.fromSlot.Some? && Elsewhere(src, ps.fromSlot.value).Some? then
      Some(SlotState(Elsewhere(src, ps.fromSlot.value).value, 0.9, Confirmed, false))
    else None
  }

  /** What a missing detail is filled with, if anything. Never something the caller agreed to. */
  function Supply(src: Sources, all: bool, ps: PipelineSlot): Option<SlotState> {
    if FromOthers(src, ps).Some? || !all then FromOthers(src, ps)
    else if ps.fromCustomer == Some(NAME) && src.customer.Some? && src.customer.value.name.Some? then
      Some(SlotState(src.customer.value.name.value, 0.9, FromCustomer, false))
    else if ps.fromCustomer.Some? && src.customer.Some? && ps.fromCustomer.value in src.customer.value.places then
      Some(SlotState(src.customer.value.places[ps.fromCustomer.value], 0.8, FromCustomer, false))
    else if ps.default.Some? then Some(SlotState(ps.default.value, 1.0, Default, false))
    else None
  }

  function FillSlot(src: Sources, all: bool, ps: PipelineSlot, slots: map<Name, SlotState>): map<Name, SlotState> {
    if ps.slot !in slots && Supply(src, all, ps).Some? then slots[ps.slot := Supply(src, all, ps).value] else slots
  }

  function FillSlots(src: Sources, all: bool, ps: seq<PipelineSlot>, slots: map<Name, SlotState>): map<Name, SlotState> {
    if ps == [] then slots else FillSlot(src, all, ps[|ps| - 1], FillSlots(src, all, ps[..|ps| - 1], slots))
  }

  /** Filling replaces nothing, adds only details of the task, and agrees to none of them. */
  lemma {:induction false} FillingOnlyAdds(
    src: Sources, all: bool, ps: seq<PipelineSlot>, slots: map<Name, SlotState>, k: Name)
    ensures k in slots ==> k in FillSlots(src, all, ps, slots) && FillSlots(src, all, ps, slots)[k] == slots[k]
    ensures k in FillSlots(src, all, ps, slots) && k !in slots ==>
      && !FillSlots(src, all, ps, slots)[k].confirmed
      && exists i :: 0 <= i < |ps| && ps[i].slot == k && Supply(src, all, ps[i]) == Some(FillSlots(src, all, ps, slots)[k])
  {
    if ps != [] {
      var front := ps[..|ps| - 1];
      FillingOnlyAdds(src, all, front, slots, k);
      var before, after := FillSlots(src, all, front, slots), FillSlots(src, all, ps, slots);
      if k in after && k !in slots {
        if k in before {
          var i :| 0 <= i < |front| && front[i].slot == k && Supply(src, all, front[i]) == Some(before[k]);
          assert ps[i] == front[i];
        } else {
          assert ps[|ps| - 1].slot == k;
        }
      }
    }
  }

  /** A detail that filling leaves out has nothing to fill it. */
  lemma {:induction false} FilledOrNothing(src: Sources, ps: seq<PipelineSlot>, slots: map<Name, SlotState>, i: nat)
    requires i < |ps|
    ensures ps[i].slot in FillSlots(src, true, ps, slots) || Supply(src, true, ps[i]).None?
    decreases |ps|
  {
    if i < |ps| - 1 {
      FilledOrNothing(src, ps[..|ps| - 1], slots, i);
    }
  }

  lemma {:induction false} NothingLeftToFill(src: Sources, ps: seq<PipelineSlot>, slots: map<Name, SlotState>)
    requires forall i :: 0 <= i < |ps| ==> ps[i].slot in slots || Supply(src, true, ps[i]).None?
    ensures FillSlots(src, true, ps, slots) == slots
    decreases |ps|
  {
    if ps != [] {
      NothingLeftToFill(src, ps[..|ps| - 1], slots);
    }
  }

  /** Filling again changes nothing. */
  lemma {:induction false} FillingTwice(src: Sources, ps: seq<PipelineSlot>, slots: map<Name, SlotState>)
    ensures var once := FillSlots(src, true, ps, slots); FillSlots(src, true, ps, once) == once
  {
    forall i | 0 <= i < |ps| ensures ps[i].slot in FillSlots(src, true, ps, slots) || Supply(src, true, ps[i]).None? {
      FilledOrNothing(src, ps, slots, i);
    }
    NothingLeftToFill(src, ps, FillSlots(src, true, ps, slots));
  }

  // ---------------------------------------------------------------------------------------
  // Values the caller gave
  // ---------------------------------------------------------------------------------------

  /** What looking a place up made of it. */
  datatype Place = NoPlace | Found(value: Value) | Partial(city: Option<Value>, stale: bool)

  datatype SlotFill = SlotFill(slot: Name, value: Value, confidence: real, provenance: Provenance, place: Place)

  /** A value of the task, and not too uncertain to be used at all. */
  predicate Accepts(b: Settings, p: Pipeline, f: SlotFill) {
    p.Has(f.slot) && f.slot in b.slots && f.confidence >= b.slots[f.slot].rejectBelow
  }

  function Take(b: Settings, p: Pipeline, r: PipelineRun, f: SlotFill): PipelineRun {
    if !Accepts(b, p, f) || (f.slot in r.slots && r.slots[f.slot].value == f.value) then r
    else Set(r, f.slot, SlotState(f.value, f.confidence, f.provenance, false))
  }

  function TakeAll(b: Settings, p: Pipeline, r: PipelineRun, fs: seq<SlotFill>): PipelineRun {
    if fs == [] then r else Take(b, p, TakeAll(b, p, r, fs[..|fs| - 1]), fs[|fs| - 1])
  }

  function Accepted(b: Settings, p: Pipeline, fs: seq<SlotFill>): nat {
    if fs == [] then 0 else Accepted(b, p, fs[..|fs| - 1]) + if Accepts(b, p, fs[|fs| - 1]) then 1 else 0
  }

  /** The last accepted value of each detail is the one it has; the others stay. */
  lemma {:induction false} LastAcceptedWins(b: Settings, p: Pipeline, r: PipelineRun, fs: seq<SlotFill>, i: nat)
    requires i < |fs| && Accepts(b, p, fs[i])
    requires forall j :: i < j < |fs| && fs[j].slot == fs[i].slot ==> !Accepts(b, p, fs[j])
    ensures var s := TakeAll(b, p, r, fs).slots; fs[i].slot in s && s[fs[i].slot].value == fs[i].value
    decreases |fs|
  {
    if i < |fs| - 1 {
      LastAcceptedWins(b, p, r, fs[..|fs| - 1], i);
    }
  }

  lemma {:induction false} NoneAcceptedNoneTaken(b: Settings, p: Pipeline, r: PipelineRun, fs: seq<SlotFill>)
    ensures Accepted(b, p, fs) == 0 ==> TakeAll(b, p, r, fs) == r
    decreases |fs|
  {
    if fs != [] {
      NoneAcceptedNoneTaken(b, p, r, fs[..|fs| - 1]);
    }
  }

  /** Taking values touches neither the step nor the attempts of the task. */
  lemma {:induction false} TakingKeepsTheRest(b: Settings, p: Pipeline, r: PipelineRun, fs: seq<SlotFill>)
    ensures var s := TakeAll(b, p, r, fs);
      s.pipeline == r.pipeline && s.intent == r.intent && s.step == r.step && s.attempts == r.attempts
    decreases |fs|
  {
    if fs != [] {
      TakingKeepsTheRest(b, p, r, fs[..|fs| - 1]);
    }
  }

  lemma {:induction false} UnnamedStay(b: Settings, p: Pipeline, r: PipelineRun, fs: seq<SlotFill>, slot: Name)
    requires forall j :: 0 <= j < |fs| && Accepts(b, p, fs[j]) ==> fs[j].slot != slot
    ensures Previous(TakeAll(b, p, r, fs).slots, slot) == Previous(r.slots, slot)
    decreases |fs|
  {
    if fs != [] {
      UnnamedStay(b, p, r, fs[..|fs| - 1], slot);
    }
  }

  // ---------------------------------------------------------------------------------------
  // A new task
  // ---------------------------------------------------------------------------------------

  /** The last task done that was not cancelled. */
  function LastDone(cs: seq<CompletedRun>): Option<CompletedRun> {
    if cs == [] then None
    else if cs[|cs| - 1].outcome != Cancelled then Some(cs[|cs| - 1])
    else LastDone(cs[..|cs| - 1])
  }

  /** A new task, with the values of the last one done; none of them agreed to. */
  function NewTask(b: Settings, cs: seq<CompletedRun>, pipeline: Name, intent: Name): PipelineRun
    requires pipeline in b.pipelines
  {
    var done := LastDone(cs);
    NewRun(pipeline, intent).(slots :=
      if done.None? then map[]
      else map k | k in done.value.slots && b.pipelines[pipeline].Has(k) :: SlotState(done.value.slots[k], 0.85, Rules, false))
  }

  function FindIntent(intents: seq<Intent>, id: Name): (r: Option<Intent>)
    ensures r.Some? ==> r.value in intents && r.value.id == id
  {
    if intents == [] then None else if intents[0].id == id then Some(intents[0]) else FindIntent(intents[1..], id)
  }

  /** The values are all details of the intent's pipeline. */
  predicate Explains(b: Settings, i: Intent, fs: seq<SlotFill>) {
    && i.pipeline.Some? && i.pipeline.value in b.pipelines
    && forall k :: 0 <= k < |fs| ==> b.pipelines[i.pipeline.value].Has(fs[k].slot)
  }

  /** Intent `i` alone explains the values. */
  ghost predicate OnlyIntent(b: Settings, fs: seq<SlotFill>, i: int) {
    && 0 <= i < |b.intents| && Explains(b, b.intents[i], fs)
    && forall j :: 0 <= j < |b.intents| && Explains(b, b.intents[j], fs) ==> i == j
  }

  /** The one intent whose pipeline has all these details, if there is exactly one. */
  method InferPipeline(b: Settings, fs: seq<SlotFill>) returns (found: Option<Intent>)
    ensures found.Some? <==> exists i :: OnlyIntent(b, fs, i)
    ensures forall i :: found.Some? && OnlyIntent(b, fs, i) ==> found.value == b.intents[i]
    ensures found.Some? ==> found.value in b.intents && Explains(b, found.value, fs)
  {
    found := None;
    var i := 0;
    ghost var at := 0;
    while i < |b.intents|
      invariant i <= |b.intents|
      invariant found.Some? ==> at < i && b.intents[at] == found.value && Explains(b, found.value, fs)
      invariant forall j :: 0 <= j < i && Explains(b, b.intents[j], fs) ==> found.Some? && at == j
    {
      if Explains(b, b.intents[i], fs) {
        if found.Some? {
          return None;
        }
        found, at := Some(b.intents[i]), i;
      }
      i := i + 1;
    }
    assert found.Some? ==> OnlyIntent(b, fs, at);
  }

  // ---------------------------------------------------------------------------------------
  // What comes next
  // ---------------------------------------------------------------------------------------

  /** Neither agreed to nor as sure as its slot demands. */
  predicate Doubtful(b: Settings, r: PipelineRun, slot: Name) {
    && slot in r.slots && slot in b.slots
    && !r.slots[slot].confirmed && r.slots[slot].confidence < b.slots[slot].confirmBelow
  }

  predicate Missing(r: PipelineRun, ps: PipelineSlot) {
    ps.required && ps.slot !in r.slots
  }

  /** Neither agreed to nor as sure as the action demands. */
  predicate Unsure(b: Settings, r: PipelineRun, action: Name, slot: Name) {
    && action in b.actions && slot in r.slots
    && !r.slots[slot].confirmed && r.slots[slot].confidence < b.actions[action].minConfidence
  }

  datatype Move =
    | CheckValue(slot: Name)
    | Ask(slot: Name)
    | ReadItBack
    | FailAgain
    | Act
    | Finish

  /** The key of an action that failed before in the call. */
  type Attempt = (Name, Values)

  ghost predicate NoneDoubtful(b: Settings, p: Pipeline, r: PipelineRun) {
    forall i :: 0 <= i < |p.slots| ==> !Doubtful(b, r, p.slots[i].slot)
  }

  ghost predicate NoneMissing(p: Pipeline, r: PipelineRun) {
    forall i :: 0 <= i < |p.slots| ==> !Missing(r, p.slots[i])
  }

  /** Every value is there and certain enough, and they were agreed to if they are read back. */
  ghost predicate Ready(b: Settings, p: Pipeline, r: PipelineRun) {
    NoneDoubtful(b, p, r) && NoneMissing(p, r) && (p.confirm.Some? ==> r.confirmed)
  }

  ghost predicate Sure(b: Settings, p: Pipeline, r: PipelineRun) {
    p.action.Some? ==> forall slot :: slot in r.slots ==> !Unsure(b, r, p.action.value, slot)
  }

  ghost predicate FailedBefore(b: Settings, p: Pipeline, r: PipelineRun, failed: seq<Attempt>) {
    p.action.Some? && !b.Changes(p.action.value) && (p.action.value, ValuesOf(r.slots)) in failed
  }

  /** The first doubtful value, else the first missing one, else the read-back, else the action. */
  ghost predicate Suits(b: Settings, p: Pipeline, r: PipelineRun, failed: seq<Attempt>, m: Move) {
    match m
    case CheckValue(slot) =>
      || (exists i :: 0 <= i < |p.slots| && p.slots[i].slot == slot && Doubtful(b, r, slot)
            && forall j :: 0 <= j < i ==> !Doubtful(b, r, p.slots[j].slot))
      || (Ready(b, p, r) && p.action.Some? && Unsure(b, r, p.action.value, slot))
    case Ask(slot) =>
      && NoneDoubtful(b, p, r)
      && exists i :: 0 <= i < |p.slots| && p.slots[i].slot == slot && Missing(r, p.slots[i])
            && forall j :: 0 <= j < i ==> !Missing(r, p.slots[j])
    case ReadItBack => NoneDoubtful(b, p, r) && NoneMissing(p, r) && p.confirm.Some? && !r.confirmed
    case FailAgain => Ready(b, p, r) && Sure(b, p, r) && FailedBefore(b, p, r, failed)
    case Act => Ready(b, p, r) && Sure(b, p, r) && p.action.Some? && !FailedBefore(b, p, r, failed)
    case Finish => Ready(b, p, r) && p.action.None?
  }

  /** Nothing but the choice among values too uncertain to act on is left open. */
  lemma OneMoveSuits(b: Settings, p: Pipeline, r: PipelineRun, failed: seq<Attempt>, m: Move, n: Move)
    requires Suits(b, p, r, failed, m) && Suits(b, p, r, failed, n)
    ensures m == n || (m.CheckValue? && n.CheckValue? && Ready(b, p, r))
  {
    if m.CheckValue? && n.CheckValue? && !Ready(b, p, r) {
      var i :| 0 <= i < |p.slots| && p.slots[i].slot == m.slot && Doubtful(b, r, m.slot)
            && forall j :: 0 <= j < i ==> !Doubtful(b, r, p.slots[j].slot);
      var k :| 0 <= k < |p.slots| && p.slots[k].slot == n.slot && Doubtful(b, r, n.slot)
            && forall j :: 0 <= j < k ==> !Doubtful(b, r, p.slots[j].slot);
      assert i == k;
    } else if m.Ask? && n.Ask? {
      var i :| 0 <= i < |p.slots| && p.slots[i].slot == m.slot && Missing(r, p.slots[i])
            && forall j :: 0 <= j < i ==> !Missing(r, p.slots[j]);
      var k :| 0 <= k < |p.slots| && p.slots[k].slot == n.slot && Missing(r, p.slots[k])
            && forall j :: 0 <= j < k ==> !Missing(r, p.slots[j]);
      assert i == k;
    }
  }

  method FirstDoubtful(b: Settings, p: Pipeline, r: PipelineRun) returns (i: nat)
    ensures i <= |p.slots| && forall j :: 0 <= j < i ==> !Doubtful(b, r, p.slots[j].slot)
    ensures i < |p.slots| ==> Doubtful(b, r, p.slots[i].slot)
  {
    i := 0;
    while i < |p.slots| && !Doubtful(b, r, p.slots[i].slot)
      invariant i <= |p.slots| && forall j :: 0 <= j < i ==> !Doubtful(b, r, p.slots[j].slot)
    {
      i := i + 1;
    }
  }

  method FirstMissing(p: Pipeline, r: PipelineRun) returns (i: nat)
    ensures i <= |p.slots| && forall j :: 0 <= j < i ==> !Missing(r, p.slots[j])
    ensures i < |p.slots| ==> Missing(r, p.slots[i])
  {
    i := 0;
    while i < |p.slots| && !Missing(r, p.slots[i])
      invariant i <= |p.slots| && forall j :: 0 <= j < i ==> !Missing(r, p.slots[j])
    {
      i := i + 1;
    }
  }

  /** The next move of a task. */
  method Choose(b: Settings, p: Pipeline, r: PipelineRun, failed: seq<Attempt>) returns (m: Move)
    ensures Suits(b, p, r, failed, m)
  {
    var i := FirstDoubtful(b, p, r);
    if i < |p.slots| {
      return CheckValue(p.slots[i].slot);
    }
    i := FirstMissing(p, r);
    if i < |p.slots| {
      return Ask(p.slots[i].slot);
    }
    if p.confirm.Some? && !r.confirmed {
      return ReadItBack;
    }
    m := ChooseAction(b, p, r, failed);
  }

  method ChooseAction(b: Settings, p: Pipeline, r: PipelineRun, failed: seq<Attempt>) returns (m: Move)
    requires Ready(b, p, r)
    ensures Suits(b, p, r, failed, m)
  {
    if p.action.None? {
      return Finish;
    }
    var action := p.action.value;
    if slot :| slot in r.slots && Unsure(b, r, action, slot) {
      return CheckValue(slot);
    }
    if !b.Changes(action) && (action, ValuesOf(r.slots)) in failed {
      return FailAgain;
    }
    m := Act;
  }
}
