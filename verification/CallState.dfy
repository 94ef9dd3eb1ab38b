/**
  One task of a call: the values collected for it and the journal of their changes.
*/
module CallState {
  import opened Options

  type Name = string
  type Value = string
  type Values = map<Name, Value>

  datatype Provenance = Rules | Llm | Confirmed | FromCustomer | Default | Rule

  datatype SlotState = SlotState(value: Value, confidence: real, provenance: Provenance, confirmed: bool)

  datatype Step =
    | Collecting(awaiting: Option<Name>)
    | ConfirmingSlot(slot: Name)
    | AwaitingConfirmation
    | Executing(actionRun: nat)

  datatype JournalEntry = JournalEntry(slot: Name, previous: Option<SlotState>)

  datatype PipelineRun = PipelineRun(
    pipeline: Name,
    intent: Name,
    slots: map<Name, SlotState>,
    step: Step,
    journal: seq<JournalEntry>,
    confirmed: bool,
    attempts: nat,
    firedRules: seq<Name>)

  function NewRun(pipeline: Name, intent: Name): PipelineRun {
    PipelineRun(pipeline, intent, map[], Collecting(None), [], false, 0, [])
  }

  function ValuesOf(slots: map<Name, SlotState>): Values {
    map k | k in slots :: slots[k].value
  }

  function Previous(slots: map<Name, SlotState>, slot: Name): Option<SlotState> {
    if slot in slots then Some(slots[slot]) else None
  }

  /** A slot set: another value takes an earlier agreement back. */
  function Set(r: PipelineRun, slot: Name, state: SlotState): PipelineRun {
    var previous := Previous(r.slots, slot);
    var changed := previous.None? || previous.value.value != state.value;
    r.(slots := r.slots[slot := state],
       confirmed := r.confirmed && !changed,
       firedRules := if changed then [] else r.firedRules,
       journal := r.journal + [JournalEntry(slot, previous)])
  }

  /** A slot cleared, if it has a value. */
  function Clear(r: PipelineRun, slot: Name): PipelineRun {
    if slot in r.slots then
      r.(slots := r.slots - {slot},
         journal := r.journal + [JournalEntry(slot, Some(r.slots[slot]))],
         confirmed := false)
    else r
  }

  /** The last journaled change taken back, if there is one. */
  function Undo(r: PipelineRun): PipelineRun {
    if r.journal == [] then r
    else
      var last := r.journal[|r.journal| - 1];
      r.(slots := if last.previous.Some? then r.slots[last.slot := last.previous.value] else r.slots - {last.slot},
         journal := r.journal[..|r.journal| - 1],
         confirmed := false)
  }

  /** An agreement outlives only edits that leave every value as it was. */
  lemma AgreementKeepsValues(r: PipelineRun, slot: Name, state: SlotState)
    ensures Set(r, slot, state).confirmed <==> r.confirmed && ValuesOf(Set(r, slot, state).slots) == ValuesOf(r.slots)
    ensures Clear(r, slot).confirmed <==> r.confirmed && ValuesOf(Clear(r, slot).slots) == ValuesOf(r.slots)
    ensures Undo(r).confirmed ==> Undo(r) == r
  {
    var s := Set(r, slot, state);
    if ValuesOf(s.slots) == ValuesOf(r.slots) {
      assert slot in ValuesOf(s.slots);
      assert ValuesOf(r.slots)[slot] == ValuesOf(s.slots)[slot];
    }
    if slot in r.slots {
      assert slot in ValuesOf(r.slots) && slot !in ValuesOf(Clear(r, slot).slots);
    }
  }

  // ---------------------------------------------------------------------------------------
  // Undo replays the journal backwards
  // ---------------------------------------------------------------------------------------

  datatype Edit = Put(slot: Name, state: SlotState) | Remove(slot: Name)

  function Apply(r: PipelineRun, e: Edit): PipelineRun {
    match e case Put(slot, state) => Set(r, slot, state) case Remove(slot) => Clear(r, slot)
  }

  function ApplyAll(r: PipelineRun, edits: seq<Edit>): PipelineRun {
    if edits == [] then r else Apply(ApplyAll(r, edits[..|edits| - 1]), edits[|edits| - 1])
  }

  function UndoTimes(r: PipelineRun, n: nat): PipelineRun
    decreases n
  {
    if n == 0 then r else UndoTimes(Undo(r), n - 1)
  }

  /** The values and the journal that leads back from them. */
  ghost predicate SameRecord(r: PipelineRun, s: PipelineRun) {
    r.slots == s.slots && r.journal == s.journal
  }

  lemma UndoTakesBackOne(r: PipelineRun, e: Edit)
    ensures var s := Apply(r, e);
      (s == r || (|s.journal| == |r.journal| + 1 && SameRecord(Undo(s), r) && !Undo(s).confirmed))
  {
    var s := Apply(r, e);
    if |s.journal| == |r.journal| + 1 {
      assert s.journal[..|r.journal|] == r.journal;
    }
  }

  lemma {:induction false} UndoSeesTheRecordOnly(r: PipelineRun, s: PipelineRun, n: nat)
    requires SameRecord(r, s)
    ensures SameRecord(UndoTimes(r, n), UndoTimes(s, n))
    decreases n
  {
    if n > 0 {
      UndoSeesTheRecordOnly(Undo(r), Undo(s), n - 1);
    }
  }

  /** What can be undone back to `past` can be after one more edit. */
  lemma {:induction false} UndoneFurther(before: PipelineRun, e: Edit, past: PipelineRun)
    requires |past.journal| <= |before.journal|
    requires SameRecord(UndoTimes(before, |before.journal| - |past.journal|), past)
    ensures var now := Apply(before, e);
      |past.journal| <= |now.journal| && SameRecord(UndoTimes(now, |now.journal| - |past.journal|), past)
  {
    UndoTakesBackOne(before, e);
    var now := Apply(before, e);
    if now != before {
      UndoSeesTheRecordOnly(Undo(now), before, |before.journal| - |past.journal|);
    }
  }

  /** Undone as often as it was journaled, a task has the values it had before any edits. */
  lemma {:induction false} EverythingIsUndone(r: PipelineRun, edits: seq<Edit>)
    ensures var now := ApplyAll(r, edits);
      |r.journal| <= |now.journal| && SameRecord(UndoTimes(now, |now.journal| - |r.journal|), r)
    decreases |edits|
  {
    if edits != [] {
      var front := edits[..|edits| - 1];
      EverythingIsUndone(r, front);
      UndoneFurther(ApplyAll(r, front), edits[|edits| - 1], r);
    }
  }

  lemma {:induction false} EditsInTurn(r: PipelineRun, first: seq<Edit>, more: seq<Edit>)
    ensures ApplyAll(r, first + more) == ApplyAll(ApplyAll(r, first), more)
    decreases |more|
  {
    if more == [] {
      assert first + more == first;
    } else {
      var front := more[..|more| - 1];
      assert (first + more)[..|first + more| - 1] == first + front;
      EditsInTurn(r, first, front);
    }
  }

  /**
    After any edits, undoing goes back through every state between them: as many times as were
    journaled since the `first` of them gives the values there were after those.
  */
  lemma {:induction false} UndoReplaysBackwards(r: PipelineRun, first: seq<Edit>, more: seq<Edit>)
    ensures var past, now := ApplyAll(r, first), ApplyAll(r, first + more);
      && |past.journal| <= |now.journal|
      && SameRecord(UndoTimes(now, |now.journal| - |past.journal|), past)
  {
    EditsInTurn(r, first, more);
    EverythingIsUndone(ApplyAll(r, first), more);
  }
}
