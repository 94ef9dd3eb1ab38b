# Callora: verified models of the phone agent's machines

Callora is a phone agent for Hebrew calls. This project models the parts of it that do no input or output
themselves, and proves what each promises over every run, every input and every way its input may arrive. All
proofs are checked by Dafny; `dafny verify dfyconfig.toml` checks the whole project.

| files | what they model |
|---|---|
| `CallState`, `Business`, `CallLog`, `Tasks`, `Engine` | the dialogue engine: tasks with their journal, read-backs, actions and their results, fallbacks, silences, hand-overs |
| `Playout`, `PlayoutItem` | the paced playout of clips and streams, with soft and hard cancels |
| `Tempo` | time-stretching audio as it arrives |
| `SayStream`, `SayReply` | the sentences of a reply that is still arriving as JSON, and which of its strings they come from |
| `EditDistance`, `PlaceTable`, `Gazetteer` | the list of localities, streets and places, and looking a place up in it |
| `Vad` | speech start and end |
| `HebrewNumbers` | numbers in Hebrew words, printed and read |
| `Denoiser` | the buffers around the noise suppression network |
| `AskQueue` | one question at a time in each chat |
| `Templates`, `Refills`, `VoiceLibrary` | response templates, what filling them does to their text, rendering, and the library of recorded sentences |
| `Audio`, `Options`, `Sequences` | shared definitions |

How the larger models are built:

- `Engine.Engine` and `Playout.Player` keep a history of what they sent and of what happened to them beside their
  own fields. `CallLog.Allowed` and `Playout.Allowed` say what may come next after a history; each method keeps its
  history made of allowed entries and its fields in step with it; the theorems are about every such history. What
  was really sent is a projection of the history (`CallLog.Outbox`). `Engine.Call` and `Playout.Run` take a fresh
  object through any sequence of events and end in a state all of this holds of, with each turn on record as the
  yes it was or was not.
- In the engine the caller's words arrive understood: an `Understanding`, or an `AgentTurn` whose decisions that
  depend on words alone are free. Whatever those decisions are, the theorems hold. Responses are named, not worded.
- In `Gazetteer` and `VoiceLibrary` how Hebrew is normalised, heard, counted and split is a parameter, so the
  theorems hold for any such functions. Searching a hash map takes any key that fits.
- In `Tempo` and `Denoiser` samples are reals, and the codec, the window and the network are parameters. In `Vad` a
  frame's level is a real; which levels a frame of mu-law bytes can have is modelled (`Vad.Genuine`).

Where code and documentation differ, the model follows the code, and each difference is proved with its exact
condition where one is known:

- A task agreed to once may send a second action under a new id, because nothing stops a turn while an action runs:
  `Engine.TwoOrders` and `Engine.Engine.AskWhileBusy` show it, and `CallLog.OneActionForAYes` proves that a turn or
  trouble in that time is the only way without another yes.
- A retry, or an action after its read-back, carries the values of the moment: `CallLog.ShownAgain` and
  `CallLog.RetryValues` say when they are still those shown, and `Engine.Engine.ChangeWhileBusy` shows a retry with
  others. Defaults, stale places and rules that set a value change them without asking again.
- The reader of a reply takes the first `"say"` in the raw text, which may be part of an earlier string
  (`SayReply.KeyIsFoundExactly`).
- A steady sound can start speech again and again: `Vad.StartsOnceExactly` says for which configurations no sound
  that mu-law frames can carry does.
- 0, 110, 210 and 1000 to 9999 are printed in words that are not read back (`HebrewNumbers.ReadBackExactly`).
- A template that names something twice can be rendered as recorded beforehand to a text the library lacks
  (`VoiceLibrary.RecordedExactly`), even with values free of braces (`VoiceLibrary.NestedIsNotRecorded`). With such
  values it happens exactly when a name filled in before stands in the text again where it is filled in again
  (`VoiceLibrary.PlainlyRecordedExactly`).
- A trimmed stream loses silence only at its ends if there are first buffers or the pad is less than a frame
  (`Playout.SentSoFar`); with neither, silence is cut out between two frames (`PlayoutItem.CutInside`).

## Model

| member | source | states |
|---|---|---|
| `Engine.CallsAreSafe` | crates/callora-core/src/engine.rs:2837-2929 | in any call, an action that changes something or whose pipeline is read back goes out first only for a task that was read back and then agreed to in a turn of the caller's that was a yes, with no set, clear or undo changing a value of that very task since; and no id goes out more often than its action may be tried |
| `CallLog.NothingRunsWithoutAYes` | crates/callora-core/src/engine.rs:2583-2598 | the same over every history of allowed steps, with every required value in the action's input |
| `CallLog.AgreedSaidYes` | crates/callora-core/src/engine.rs:853-910 | a task on record as agreed to was read back, then agreed to in a turn that was a yes, and not edited to another value since |
| `CallLog.TurnsKeepTheYes` | crates/callora-core/src/engine.rs:2583-2598 | whether the turn being taken is a yes is what the last turn on record says |
| `CallLog.SentOnlyOnAYes` | crates/callora-core/src/engine.rs:2870-2929 | the same read off the directives: the first send of an id stands in the history as an action of the task that has its yes before it |
| `CallLog.OneActionForAYes` | crates/callora-core/src/engine.rs:2837-2929 | two new ids of one task have another yes of that task between them, or a turn or trouble handled while the first was running |
| `CallLog.TwoIdsAreDisturbed` | crates/callora-core/src/engine.rs:2837-2929 | the same read off any two of the directives that are the first with their ids |
| `Engine.TwoOrders` | crates/callora-core/src/engine.rs:2641-2652 | and that does happen: in every business with a task that collects nothing and a question it answers, "order", "yes" and that question send two orders |
| `Engine.OneOrder` | crates/callora-core/src/engine.rs:2583-2598 | "order" reads the task back and a yes to it sends one action, under id 1 |
| `Engine.ThereIsAShop` | crates/callora-core/src/engine.rs:2622-2663 | there is such a business |
| `Engine.Engine.AskWhileBusy` | crates/callora-core/src/engine.rs:2641-2652 | in any call, a question answered while an action runs sends that action again under the next id, whenever acting is what suits the task |
| `CallLog.ShownAgain` | crates/callora-core/src/engine.rs:2837-2929 | what a task has read back and what it sends later are the same values exactly when the task holds the same ones at both moments: always with no alteration by edit, default or stale place in between, never with one |
| `CallLog.RetryValues` | crates/callora-core/src/engine.rs:3012-3018 | the same of an action and its retry |
| `CallLog.RetriesAreOfTheTask` | crates/callora-core/src/engine.rs:3012-3018 | an id is only ever sent for the task it was first sent for |
| `Engine.Engine.ChangeWhileBusy` | crates/callora-core/src/engine.rs:3012-3018 | in any call, values the agent takes while an action runs go out with its retry |
| `CallLog.NewIdsIncrease` | crates/callora-core/src/engine.rs:2900-2928 | the id of a new action is above every id sent before it |
| `CallLog.SentIdsIncrease` | crates/callora-core/src/engine.rs:2900-2928 | among the directives sent, ids sent for the first time strictly increase |
| `CallLog.AttemptsAreBounded` | crates/callora-core/src/engine.rs:3012-3018 | an id is sent at most `max_attempts` times, retries included |
| `CallLog.AttemptsSent` | crates/callora-core/src/engine.rs:3012-3018 | the same counted on the directives sent |
| `CallLog.LastInFirstOut` | crates/callora-core/src/engine.rs:3553-3563 | a task put aside before another is resumed only after that one came back, unless everything was cancelled |
| `CallLog.StaysOnTheStack` | crates/callora-core/src/engine.rs:3561-3563 | a task put aside lies over what lay there before it until it is resumed or all is cancelled |
| `CallLog.FallbacksEndTheCall` | crates/callora-core/src/engine.rs:3473-3521 | 2·(ladder + 1) fallbacks with nothing understood in between take the call out of `Active` |
| `CallLog.EveryFallIsARung` | crates/callora-core/src/engine.rs:3473-3508 | every fallback uses up one of the two ways down the ladder |
| `CallLog.SilenceEndsTheCall` | crates/callora-core/src/engine.rs:3347-3355 | max + patient + 1 counted silences with no turn of the caller take the call out of `Active` |
| `CallLog.NeverReopens` | crates/callora-core/src/engine.rs:3494-3533 | a call that left `Active` never returns there |
| `CallState.UndoReplaysBackwards` | crates/callora-core/src/state.rs:81-111 | undoing after any sets and clears goes back through the values after each of them, exactly |
| `CallState.EverythingIsUndone` | crates/callora-core/src/state.rs:98-111 | undone as often as it was journaled, a task has the values it started from |
| `CallState.AgreementKeepsValues` | crates/callora-core/src/state.rs:81-96 | set and clear keep the agreement exactly when they leave every value as it was; undo never keeps it |
| `Tasks.FillingOnlyAdds` | crates/callora-core/src/engine.rs:1768-1872 | defaults replace nothing, add only details of the task from their own source, and agree to none of them |
| `Tasks.LastAcceptedWins` | crates/callora-core/src/engine.rs:2728-2757 | of several values for a detail the last accepted one is kept |
| `Tasks.UnnamedStay` | crates/callora-core/src/engine.rs:2728-2757 | a detail no accepted value names keeps its state |
| `Tasks.InferPipeline` | crates/callora-core/src/engine.rs:3684-3692 | the intent found is the only one whose pipeline has every detail given; none is found otherwise |
| `Tasks.Choose` | crates/callora-core/src/engine.rs:2837-2937 | the move is the first doubtful value, else the first missing one, else the read-back, else the action or its earlier failure, else the end |
| `Tasks.OneMoveSuits` | crates/callora-core/src/engine.rs:2837-2937 | those cases exclude each other: only the choice among values too uncertain to act on is left open |
| `Engine.Engine.Advance` | crates/callora-core/src/engine.rs:2837-2937 | the task is filled, the one suitable move is made and said, and the recursion through resumed tasks ends; no suspended task is lost but by resuming it from the top |
| `Engine.Engine.FinishRun` | crates/callora-core/src/engine.rs:3553-3579 | the task is recorded with its values; of those put aside the last goes on, or by going on ends too and gives way to the next; with none more is offered, or a success that ends the call ends it |
| `Engine.Engine.MakeMove` | crates/callora-core/src/engine.rs:2846-2929 | each move's new step and the directive that goes with it |
| `Engine.Engine.StartAction` | crates/callora-core/src/engine.rs:2900-2928 | an action gets the next id, one attempt, and the task's values as input |
| `Engine.Engine.RetryAction` | crates/callora-core/src/engine.rs:3012-3018 | a retry goes out under the same id with the current values and counts one attempt more |
| `Engine.Engine.OnActionResult` | crates/callora-core/src/engine.rs:2977-3061 | a result for any other id than the one awaited changes nothing and sends nothing; a failure is retried while attempts are left; a success records the task |
| `Engine.Engine.OnFailure` | crates/callora-core/src/engine.rs:3037-3058 | only a failure of what changes something counts towards handing over; another is remembered with its values; enough of them end the call's active phase |
| `Engine.Engine.OnUnknown` | crates/callora-core/src/engine.rs:3020-3036 | an unknown outcome goes to a person with the task closed, or closes it where there is nobody |
| `Engine.Engine.CloseRun` | crates/callora-core/src/engine.rs:3543-3551 | the task is recorded and gone, with nothing said |
| `Engine.Engine.ReadTask` | crates/callora-core/src/engine.rs:2356-2395 | with everything there the read-back is said and an earlier agreement is gone; with something missing the question for the first such detail is asked if asking is wanted, and else nothing is; with no read-back the task goes on |
| `Engine.Engine.FillDefaults` | crates/callora-core/src/engine.rs:1768-1872 | the loop gives the task exactly the values its sources have for what it lacks, outside the journal |
| `Engine.Engine.ApplyFills` | crates/callora-core/src/engine.rs:2728-2765 | the values taken and how many; an accepted one ends the wait for a yes |
| `Engine.Engine.DropStale` | crates/callora-core/src/engine.rs:1042-1046 | a stale place goes without a journal entry and without touching the agreement |
| `Engine.Engine.CheckPlaces` | crates/callora-core/src/engine.rs:2690-2714 | places found replace what was said, places given in part are noted and left out, and without any nothing of the task changes |
| `Engine.Engine.Collect` | crates/callora-core/src/engine.rs:2690-2765 | the task has the values that were accepted once places are looked up, places given in part are noted, and how many were accepted is counted |
| `Engine.Engine.Fire` | crates/callora-core/src/engine.rs:2800-2830 | a rejecting rule clears its value and says its response and the question for that value; a setting rule sets its value; only the latter leaves the turn going |
| `Engine.Engine.ApplyRules` | crates/callora-core/src/engine.rs:2788-2833 | rules that take nothing over leave the phase and the step of the task alone |
| `Engine.Engine.Agree` | crates/callora-core/src/engine.rs:2589-2594 | a yes confirms every value and changes none |
| `Engine.Engine.AnswerToReadBack` | crates/callora-core/src/engine.rs:2583-2619 | the read-back takes the turn exactly when it was awaited, answered yes or no, and nothing of the task was corrected; a yes agrees and the task goes on as agreed to; a no says the words that ask what to change and collects again, or declines a task with nothing to change |
| `Engine.Engine.AgreeAndGoOn` | crates/callora-core/src/engine.rs:2589-2598 | only in a turn that is a yes: every value confirmed, and the task moved on from there |
| `Engine.Engine.Decline` | crates/callora-core/src/engine.rs:2602-2616 | a no says the words that ask what to change, if there are any, and the task collects again; a task with nothing to change is recorded as declined |
| `Engine.Engine.AnswerToValue` | crates/callora-core/src/engine.rs:2543-2580 | a yes confirms the value asked about and goes on, a no clears it and asks for it again, a value that is doubtful again falls back; anything else changes nothing |
| `Engine.Engine.ConfirmSlot` | crates/callora-core/src/engine.rs:2548-2557 | a yes to one value confirms that value only |
| `Engine.Engine.SwitchTo` | crates/callora-core/src/engine.rs:2653-2661 | the old task lies on top of those put aside, or is forgotten, and the new one starts unconfirmed with the last task's values |
| `Engine.Engine.TakeIntent` | crates/callora-core/src/engine.rs:2622-2663 | an unknown intent is one rung down; a weak guess changes nothing; a question is answered and the task goes on; only a new task, begun over the old one, lets the turn go on |
| `Engine.Engine.Infer` | crates/callora-core/src/engine.rs:2665-2671 | values with no task begin a task if and only if one intent alone fits them, and it is that intent's |
| `Engine.Engine.NoTask` | crates/callora-core/src/engine.rs:2673-2684 | a no to "anything else?" ends the call, a yes is asked what, and everything else is one rung down |
| `Engine.Engine.Understand` | crates/callora-core/src/engine.rs:2539-2725 | a yes or no to the read-back agrees or declines; a turn nothing of which is settled before its values takes them, as places were found, and the task goes on with them by the rules; a question, a new task from nothing and a turn with nothing understood each have the outcome of their own branch, in the order of the branches |
| `Engine.Engine.HandOver` | crates/callora-core/src/engine.rs:3494-3521 | with a desk the call is handed over; without one the ladder starts over once, then the call ends |
| `Engine.Engine.Fallback` | crates/callora-core/src/engine.rs:3473-3492 | one rung further, and past the last rung the call is active only by starting over |
| `Engine.Engine.ForceHandoff` | crates/callora-core/src/engine.rs:3072-3083 | the call is out of `Active` afterwards, and one that was out is not touched |
| `Engine.Engine.OnSilence` | crates/callora-core/src/engine.rs:3330-3383 | silences count unless an action runs or the call is over; past the limit the call ends |
| `Engine.Engine.HearNothing` | crates/callora-core/src/engine.rs:3473-3492 | 2·(ladder + 1) turns with nothing understood end any call |
| `Engine.Engine.StaySilent` | crates/callora-core/src/engine.rs:3330-3361 | max + patient + 1 silences end any call that waits for no action |
| `Engine.Engine.CancelFlow` | crates/callora-core/src/engine.rs:3424-3439 | the task is recorded as cancelled and every task put aside is dropped |
| `Engine.Engine.GoBackOne` | crates/callora-core/src/engine.rs:3440-3459 | the last journaled change is undone and its detail asked for again |
| `Engine.Engine.OnAbuse` | crates/callora-core/src/engine.rs:3139-3158 | the second curse ends the call |
| `Engine.Engine.OnUtterance` | crates/callora-core/src/engine.rs:2510-2537 | after the end, or on noise, nothing changes; otherwise the silences start over, the turn is on record as a yes exactly when it was one, and a turn with no word of its own, such as a curse or goodbye, is understood as `Understand` says, its values taken |
| `Engine.Engine.OnSubmit` | crates/callora-core/src/engine.rs:853-910 | on a yes to the awaited read-back the task goes on as agreed to; without one the submit becomes the read-back, or the question for what is missing unless the agent asked already |
| `Engine.Engine.TakeFields` | crates/callora-core/src/engine.rs:1737-1763 | the task has the last accepted values and reports exactly whether that changed it; a changed task no longer awaits its yes |
| `Engine.Engine.OnAgentTurn` | crates/callora-core/src/engine.rs:523-915 | nothing after the end; the turn is on record as a yes exactly when the agent submits on one; a stuck or insisting caller is handed over; a turn with no special case, over a task, takes its values, and, no rule hitting the task then, follows the agent's course, whichever it is: words alone, the next step, a question, a person, the end, the read-back, or the submit, which on a yes with no value changed goes on as agreed to |
| `Engine.Engine.OnNoToOptional` | crates/callora-core/src/engine.rs:3223-3252 | while something is collected the task is read back, or what is missing is asked; elsewhere nothing changes |
| `Engine.Engine.OnClosing` | crates/callora-core/src/engine.rs:3255-3271 | thanks to "anything else?" ends the call, and anywhere else changes nothing |
| `Tempo.StretchStream` | crates/callora-audio/src/tempo.rs:51-140 | for every way of cutting a clip into chunks the stream's output is the whole clip's |
| `Tempo.Stretch` | crates/callora-audio/src/tempo.rs:135-140 | the whole clip in one push and a finish is the stretched clip |
| `Tempo.Stretched` | crates/callora-audio/src/tempo.rs:62-75 | exactly round(len / tempo) samples at any tempo but 1, and the clip itself at 1 |
| `Tempo.Stretcher.Push` | crates/callora-audio/src/tempo.rs:51-60 | what is sent goes on from what was sent, and never passes the wanted length of what was heard |
| `Tempo.Stretcher.Finish` | crates/callora-audio/src/tempo.rs:63-75 | all that was sent and the rest together are the stretched clip |
| `Tempo.Stretcher.Advance` | crates/callora-audio/src/tempo.rs:51-60 | new input emits exactly the samples its frames made final |
| `Tempo.Stretcher.AddFrame` | crates/callora-audio/src/tempo.rs:87-118 | a ready frame is overlaid at its hop and the buffer stays the layered frames |
| `Tempo.Stretcher.AddFramesTo` | crates/callora-audio/src/tempo.rs:66-73 | after the zero padding every frame the end needs is ready |
| `Tempo.Stretcher.FindMatch` | crates/callora-audio/src/tempo.rs:92-106 | the search returns the best match, and the window it names is inside the input |
| `Tempo.Stretcher.Overlay` | crates/callora-audio/src/tempo.rs:107-117 | the window is added at its place and nowhere else |
| `Tempo.Stretcher.Emit` | crates/callora-audio/src/tempo.rs:120-131 | the samples from the last emitted one up to the limit, each once |
| `Tempo.Stretcher.Feed` | crates/callora-audio/src/tempo.rs:51-56 | more input changes no sample already emitted |
| `Tempo.BestBelowIsFirstMaximum` | crates/callora-audio/src/tempo.rs:95-105 | the search result is the first candidate with the highest score, within the search range |
| `Tempo.StartAgrees` | crates/callora-audio/src/tempo.rs:77-100 | where a frame starts depends only on input already there when it was ready |
| `Tempo.SampleAgrees` | crates/callora-audio/src/tempo.rs:107-118 | a sample below frame·HS depends only on that input too |
| `Tempo.OverlaidIsLayered` | crates/callora-audio/src/tempo.rs:107-118 | overlaying frame after frame gives the sum of all frames at their places |
| `Tempo.RenderedFrom` | crates/callora-audio/src/tempo.rs:120-131 | bytes emitted piece by piece are the rendering of the whole |
| `Tempo.ReadyFramesAreWanted` | crates/callora-audio/src/tempo.rs:77-86 | a frame that was ready completes no sample past the wanted length |
| `Tempo.CompletedIsWanted` | crates/callora-audio/src/tempo.rs:51-61 | so no push emits past it, for every input length and tempo |
| `Tempo.PaddingSuffices` | crates/callora-audio/src/tempo.rs:63-75 | the padding of `finish` makes every needed frame ready, for every input length and tempo |
| `EditDistance.Distance` | crates/callora-core/src/gazetteer.rs:159-171 | the two-row loop computes the edit distance |
| `EditDistance.NextRow` | crates/callora-core/src/gazetteer.rs:162-168 | one round of the loop turns a row of distances into the next |
| `EditDistance.NoScriptIsCheaper` | crates/callora-core/src/gazetteer.rs:159-171 | no list of insertions, deletions and substitutions from one string to the other costs less |
| `EditDistance.Cheapest` | crates/callora-core/src/gazetteer.rs:159-171 | and some list costs exactly that |
| `EditDistance.DistIsLeastCost` | crates/callora-core/src/gazetteer.rs:159-171 | a number is the distance if and only if it is that least cost |
| `EditDistance.DistBounds` | crates/callora-core/src/gazetteer.rs:159-171 | between the length difference and the longer length |
| `EditDistance.DistIdentity` | crates/callora-core/src/gazetteer.rs:159-171 | zero exactly on equal strings |
| `EditDistance.DistSymmetric` | crates/callora-core/src/gazetteer.rs:159-171 | symmetric |
| `EditDistance.DistTriangle` | crates/callora-core/src/gazetteer.rs:159-171 | the triangle inequality |
| `EditDistance.CloseNamesAreClose` | crates/callora-core/src/gazetteer.rs:334-339 | two names both taken for what was heard are at most four letters apart, short ones two |
| `Gazetteer.Gazetteer.Resolve` | crates/callora-core/src/gazetteer.rs:764-777 | a found address names a locality of the table, and a street row of that same locality or a place row of it with that row's own details, whatever the order of the maps; words that name a locality never come back as no city |
| `Gazetteer.Gazetteer.ResolveWithin` | crates/callora-core/src/gazetteer.rs:800-819 | the same for a street in a named locality; an answer exactly when the locality is known and words were given; and words that are a key of one of its streets are answered with a street |
| `Gazetteer.ListedIsInRows` | crates/callora-core/src/gazetteer.rs:593-673 | an address in the list is in the rows the list was read from |
| `Gazetteer.ResolveIn` | crates/callora-core/src/gazetteer.rs:831-942 | every index in bounds; the city alone for its own name, and an exact street name gives that street with its number |
| `Gazetteer.ResolveWritten` | crates/callora-core/src/gazetteer.rs:779-795 | each locality that `FindCities` finds is read as `ResolveIn` reads it, and the answer is the first of these readings with the best score, none exactly when no locality is found |
| `Gazetteer.LookInCity` | crates/callora-core/src/gazetteer.rs:863-930 | an exact name first; nothing found only if no candidate is a street, or a place where no number was given |
| `Gazetteer.ExactlyInCity` | crates/callora-core/src/gazetteer.rs:863-893 | the first candidate that is a street gives that street, whatever places come before it; else, without a house number, the first that is a place |
| `Gazetteer.NearlyInCity` | crates/callora-core/src/gazetteer.rs:894-905 | a street whose key is close to a candidate; a place only when no street key is, and without a number; nothing only when no key is close |
| `Gazetteer.BySoundInCity` | crates/callora-core/src/gazetteer.rs:906-928 | a street exactly when it is the only one spelled alike, or the only one that sounds alike, with letters enough to tell |
| `Gazetteer.OnlyStreet` | crates/callora-core/src/gazetteer.rs:909-916 | the street whose keys fit, if and only if they all lead to one street |
| `Gazetteer.SoundAlike` | crates/callora-core/src/gazetteer.rs:1032-1059 | another locality one consonant more or less from what was said that has one of the streets, exactly when it is closer than all others |
| `Gazetteer.ClosestAlike` | crates/callora-core/src/gazetteer.rs:1053-1058 | the one hit closer than all others, if and only if there is one |
| `Gazetteer.FindCities` | crates/callora-core/src/gazetteer.rs:985-1028 | every run of up to four words that names a locality is found, longest first and latest first, and nothing else whenever there is one; else at most one misspelling |
| `Gazetteer.ExactCities` | crates/callora-core/src/gazetteer.rs:986-1006 | every such run, and nothing else, in that order; empty exactly when no run of up to four words names a locality |
| `Gazetteer.HitsAreInBounds` | crates/callora-core/src/gazetteer.rs:985-1028 | a hit lies inside the words and leads to a listed city under one of its names |
| `Gazetteer.Gazetteer.FromTable` | crates/callora-core/src/gazetteer.rs:593-673 | every street, key and locality of the list comes from a row of its own locality, every row's locality is listed with every street name of its rows as a key, and every name of a city is a key |
| `Gazetteer.Gazetteer.RowsAreKeys` | crates/callora-core/src/gazetteer.rs:593-645 | every street name in the rows is a key of its locality that leads to a street with a row of that name, unless the row of the locality's own name, which a larger one leaves out, has it too |
| `Gazetteer.Gazetteer.ListedIsNamed` | crates/callora-core/src/gazetteer.rs:800-819 | so words that are such a name, other than the locality's own, are a key of one of its streets, and `ResolveWithin` answers them with a street |
| `PlaceTable.ReadStreets` | crates/callora-core/src/gazetteer.rs:593-645 | one city for each code, every street and street key from a row with that code and that street's number, and every row's street name a key of its city, the row of its own name apart |
| `PlaceTable.AddStreet` | crates/callora-core/src/gazetteer.rs:600-634 | an official name becomes the street's name, the first street with a key keeps it |
| `PlaceTable.ReadNames` | crates/callora-core/src/gazetteer.rs:646-671 | every key leads to a listed city under one of its names, and every name of two letters is a key |
| `PlaceTable.AddNames` | crates/callora-core/src/gazetteer.rs:652-657 | the first city with a name keeps it |
| `Gazetteer.Gazetteer.AddPlace` | crates/callora-core/src/gazetteer.rs:345-376 | the place goes to its locality and no other city changes; a row of an unknown locality changes nothing |
| `Gazetteer.Gazetteer.AddPlaces` | crates/callora-core/src/gazetteer.rs:345-376 | for any text, the place rows grow by exactly those its lines spell, and the count is of those whose locality is known |
| `PlaceTable.AddPlaceKeys` | crates/callora-core/src/gazetteer.rs:360-373 | a name becomes a key, and leads to this place, exactly when it is free: no street of the city, no locality and no earlier place has it |
| `SayStream.SpeakStream` | crates/callora-core/src/agent.rs:654-680 | for every split of a reply into deltas, the sentences of `push` and then `rest` are those of the whole reply |
| `SayStream.Stream.Push` | crates/callora-core/src/agent.rs:654-680 | the sentences given so far are those of what arrived so far, each once |
| `SayStream.Stream.Rest` | crates/callora-core/src/agent.rs:737-743 | what `rest` adds completes the sentences of the whole text |
| `SayStream.ReadBody` | crates/callora-core/src/agent.rs:753-778 | the loop reads the escaped string as the recursive reading does |
| `SayStream.DecodeExtends` | crates/callora-core/src/agent.rs:746-778 | more of the reply only makes the decoded text longer |
| `SayStream.BodyExtends` | crates/callora-core/src/agent.rs:753-778 | and the string read so far stays as it was |
| `SayStream.CutExtends` | crates/callora-core/src/agent.rs:661-680 | cutting a longer text gives the earlier sentences first and goes on where they stopped |
| `SayStream.PiecesRebuild` | crates/callora-core/src/agent.rs:661-680 | the sentences put together are the text, no character lost or repeated |
| `SayStream.CutClosed` | crates/callora-core/src/agent.rs:654-680 | whether the string was closed makes no difference to what is said in the end |
| `SayStream.RestCompletes` | crates/callora-core/src/agent.rs:737-743 | the sentences cut and the rest are all that is said of the text |
| `SayStream.TrimmedAway` | crates/callora-core/src/agent.rs:737-743 | only white space is trimmed to nothing |
| `SayReply.ReplyIsRead` | crates/callora-core/src/agent.rs:746-778 | of a reply whose key `say` stands after any text and any JSON strings (section 7 of RFC 8259), none of which looks like the key, the string under the key is what is said |
| `SayReply.KeyIsFoundExactly` | crates/callora-core/src/agent.rs:747-748 | the reader finds that key if and only if no string before it is `say`, or is spelled with an escaped quote and `say` at its end, and no text between two strings is `say` |
| `SayReply.DecoyIsTaken` | crates/callora-core/src/agent.rs:747-748 | with any of these the reader takes something before the key |
| `SayReply.ValueIsFound` | crates/callora-core/src/agent.rs:747-754 | after the key the reader opens the string that was written under it |
| `SayStream.ValueIsRead` | crates/callora-core/src/agent.rs:753-778 | from where its body starts, that string is heard whole |
| `SayStream.HeardIsMeantExactly` | crates/callora-core/src/agent.rs:753-778 | what is heard of an escaped text is the text exactly when it has no control characters or surrogates |
| `SayStream.StringIsRead` | crates/callora-core/src/agent.rs:753-778 | wherever it stands in the reply |
| `Playout.Run` | crates/callora-audio/src/playout.rs:371-513 | under every order of commands, data and ticks the playout's history is one of allowed steps |
| `Playout.Player.Handle` | crates/callora-audio/src/playout.rs:446-511 | one wake-up and what the loop does after it keep all of that |
| `Playout.SentSoFar` | crates/callora-audio/src/playout.rs:288-336 | at any moment what was sent of an item is the start of its bytes in order, untrimmed of its clip or of all its channel delivers; trimmed, with first buffers or a pad of less than a frame, it is one piece of that with nothing left out inside; filled up with silence only at the end |
| `Playout.ItemsDoNotInterleave` | crates/callora-audio/src/playout.rs:391-437 | between an item's first frame and its end only its own frames are sent, each going on where the last stopped |
| `Playout.Player.FinishCurrent` | crates/callora-audio/src/playout.rs:391-445 | an item reported finished was sent whole: untrimmed, its whole clip or all its channel delivered before it closed; trimmed, one piece of that, with first buffers or a pad of less than a frame |
| `Playout.Pacing` | crates/callora-audio/src/playout.rs:392-432 | a stretch with k ticks and no hard cancel sends at most lead + k frames |
| `Playout.AheadWithinLead` | crates/callora-audio/src/playout.rs:392-432 | frames ahead never exceed the lead |
| `Playout.FramesAgainstTicks` | crates/callora-audio/src/playout.rs:392-511 | frames sent are paid for by ticks and the lead |
| `Playout.SilenceLedger` | crates/callora-audio/src/playout.rs:411-428 | the end moves by 20 ms a frame and the silence; the gaps reported fall short of the silence by at most 1 ms a frame |
| `Playout.SilenceLedgerFromFirst` | crates/callora-audio/src/playout.rs:411-428 | from the first frame on: end = first send + 20·frames + silence, and silence less the gaps is between 0 and frames − 1 ms |
| `Playout.EndCoversEveryFrame` | crates/callora-audio/src/playout.rs:411-428 | the end is never before any frame could have played with all after it |
| `Playout.EndIsAttained` | crates/callora-audio/src/playout.rs:411-428 | and some frame attains it |
| `Playout.IdlesAreSeparated` | crates/callora-audio/src/playout.rs:441-444 | an audio frame lies between any two `Idle`s |
| `Playout.Player.ReportIdle` | crates/callora-audio/src/playout.rs:441-444 | `Idle` is sent only with nothing current, queued or ahead, and once |
| `Playout.AccountedEnqueue` | crates/callora-audio/src/playout.rs:462-462 | enqueued ids stay equal to finished, cancelled, current and queued ones, each as often |
| `Playout.AccountedFinish` | crates/callora-audio/src/playout.rs:391-445 | so they do when an item finishes |
| `Playout.AccountedCancel` | crates/callora-audio/src/playout.rs:463-508 | and when items are cancelled, softly or not |
| `Playout.LetFinish` | crates/callora-audio/src/playout.rs:463-488 | an item let finish by a soft cancel is not cut by later ones that allow as much, and is finished after ticks enough for its frames |
| `Playout.Player.OnCancel` | crates/callora-audio/src/playout.rs:463-508 | the current item is kept if the cancel is soft, all of it is known and little is left, with exactly the queue cancelled; otherwise everything is dropped, with exactly the reports of that |
| `Playout.Player.KeepCurrent` | crates/callora-audio/src/playout.rs:471-488 | only what is queued is cancelled, and the item is reported protected once |
| `Playout.Player.DropAll` | crates/callora-audio/src/playout.rs:489-507 | everything is cancelled, the lead and the end start over, `Clear` is sent if anything was in flight |
| `Playout.Player.SendFrame` | crates/callora-audio/src/playout.rs:405-432 | one frame more ahead, or nothing changes |
| `Playout.Player.OnTick` | crates/callora-audio/src/playout.rs:510-510 | a tick pays for one frame |
| `PlayoutItem.NextFrame` | crates/callora-audio/src/playout.rs:288-330 | the frame is the item's next bytes; none from a known item only when it is done |
| `PlayoutItem.NextOfStream` | crates/callora-audio/src/playout.rs:300-329 | once what has come in is taken and trimmed, a frame is given exactly when the buffer wanted is full and trimmed at the front, or the stream is over, and a whole frame waits or the last part of one; the frame is the stream's next bytes |
| `PlayoutItem.NextOfClip` | crates/callora-audio/src/playout.rs:290-299 | a clip gives its next 160 bytes until it is done |
| `PlayoutItem.Drain` | crates/callora-audio/src/playout.rs:225-239 | what is waiting grows by exactly the next messages of the channel, in order; one that came in is left only after the close or with enough waiting |
| `PlayoutItem.DoneIsWhole` | crates/callora-audio/src/playout.rs:288-336 | an untrimmed item that is done was sent as all its source had, clip or channel |
| `PlayoutItem.SentIsAStart` | crates/callora-audio/src/playout.rs:288-336 | and before that as the start of it |
| `PlayoutItem.SentIsASlice` | crates/callora-audio/src/playout.rs:242-330 | what was sent of a trimmed item is one piece of what its source delivers, where no frame goes out before its front is trimmed |
| `PlayoutItem.CutInside` | crates/callora-audio/src/playout.rs:242-330 | without a first buffer and with a pad of a frame or more it need not be: every such configuration, deaf to two codes, sends two frames of a stream with the silence between them left out |
| `PlayoutItem.TrimHead` | crates/callora-audio/src/playout.rs:242-260 | only silent windows at the start are dropped |
| `PlayoutItem.TrimTail` | crates/callora-audio/src/playout.rs:263-273 | only silent windows at the end are dropped |
| `PlayoutItem.Remaining` | crates/callora-audio/src/playout.rs:276-286 | what is left, and whether that is all of it |
| `PlayoutItem.Activate` | crates/callora-audio/src/playout.rs:195-222 | a trimmed clip is a slice of the clip |
| `PlayoutItem.PaddedIs` | crates/callora-audio/src/playout.rs:288-330 | filling up adds less than a frame of silence, at the end only |
| `PlayoutItem.TrimDropsSilence` | crates/callora-audio/src/mulaw.rs:138-146 | the bounds cut off only 10 ms windows below the threshold |
| `PlayoutItem.SpeechBounds` | crates/callora-audio/src/mulaw.rs:138-146 | bounds in order and inside the buffer |
| `Vad.StartsExactly` | crates/callora-audio/src/vad.rs:162-210 | speech starts at a frame if and only if some window ending there has loud ms − 2·quiet ms of at least the trigger |
| `Vad.EndsExactly` | crates/callora-audio/src/vad.rs:162-210 | it ends if and only if the quiet reached the endpoint or the utterance its maximum |
| `Vad.NoEarlyEnd` | crates/callora-audio/src/vad.rs:115-117 | so with an endpoint, which once set is at least 60 ms, an utterance short of its maximum ends only after all of that quiet, never at a loud frame |
| `Vad.EventsTakeTurns` | crates/callora-audio/src/vad.rs:162-210 | starts and ends alternate, and the last one tells whether there is speech |
| `Vad.SteadySoundStartsOnce` | crates/callora-audio/src/vad.rs:143-210 | on the energy test alone a sound of constant level starts speech at most once, from any state: with a trigger and an endpoint, with a maximum or no empty frames, at any level that is positive or below the threshold |
| `Vad.LevelIsBounded` | crates/callora-audio/src/mulaw.rs:67-73 | the level of a frame of mu-law bytes is at most 32124, and 0 for a frame without bytes |
| `Vad.StartsOnceExactly` | crates/callora-audio/src/vad.rs:143-210 | every sound of constant level that mu-law frames can carry does so from the beginning if and only if the configuration has a trigger, and: a threshold above full scale, or a multiple of the background above which no level stays loud (about 52 at full scale), or an endpoint and a maximum and, besides, a threshold or a multiple of the background |
| `Vad.StartsAgainAndAgain` | crates/callora-audio/src/vad.rs:162-210 | with no trigger, or with no endpoint, maximum or level and no multiple of the background, frames of bytes at a level that is over the threshold start speech n times, for every n |
| `Vad.StartsTwice` | crates/callora-audio/src/vad.rs:143-210 | with a smaller multiple, a threshold within full scale, and no endpoint or no maximum, the loudest sound starts twice |
| `Vad.CounterIsBest` | crates/callora-audio/src/vad.rs:176-190 | the speech counter is the best score of any window ending now |
| `Vad.BestBoundsWindows` | crates/callora-audio/src/vad.rs:176-190 | no window scores more than that |
| `Vad.BestIsAWindow` | crates/callora-audio/src/vad.rs:176-190 | and one scores as much |
| `Vad.UtteranceCounters` | crates/callora-audio/src/vad.rs:176-208 | while speech goes on the counters are its length and its trailing quiet |
| `Vad.Detector.Push` | crates/callora-audio/src/vad.rs:162-210 | one frame is one step of the detector |
| `Vad.ResetForgets` | crates/callora-audio/src/vad.rs:212-216 | after a reset the events depend on nothing of the past but the threshold, the endpoint and the background level |
| `HebrewNumbers.PrintedNumbersAreFound` | crates/callora-core/src/hebrew.rs:198-245 | 64-bit numbers other than 0, 110, 210 and 1000 to 9999, printed in either gender among other words, are found with their values, order and spans |
| `HebrewNumbers.ReadBackExactly` | crates/callora-core/src/hebrew.rs:48-84 | a 64-bit number printed alone is read back if and only if it is not 0, 110, 210 or from 1000 to 9999 |
| `HebrewNumbers.HundredAndTen` | crates/callora-core/src/hebrew.rs:219-240 | of 110 and 210 only the hundreds are read |
| `HebrewNumbers.OnlyUnit` | crates/callora-core/src/hebrew.rs:219-240 | of 3000 to 9999 only the number of thousands is read, as a unit |
| `HebrewNumbers.NumeralIsRead` | crates/callora-core/src/hebrew.rs:143-146 | any 64-bit number in digits is read as itself |
| `HebrewNumbers.SentenceIsReadBack` | crates/callora-core/src/hebrew.rs:198-245 | any number in digits or legible words before a word that is no number word is found whole |
| `HebrewNumbers.LegibleIsFound` | crates/callora-core/src/hebrew.rs:203-243 | one such number gives its value and its span |
| `HebrewNumbers.PiecesAddUp` | crates/callora-core/src/hebrew.rs:219-240 | the pieces of a number go together if and only if it is not 110 or 210, and then add up to it |
| `HebrewNumbers.WordsRead` | crates/callora-core/src/hebrew.rs:48-84 | every printed word is read as its piece, with or without the vav |
| `HebrewNumbers.LexiconIsHebrew` | crates/callora-core/src/hebrew.rs:114-162 | the reading tables know every word of the printing tables, and no word that begins with vav |
| `HebrewNumbers.FindNumbers` | crates/callora-core/src/hebrew.rs:198-245 | the scanning loop finds what the recursive scan finds |
| `HebrewNumbers.ReadNumber` | crates/callora-core/src/hebrew.rs:217-240 | the inner loop goes as far as the pieces fit |
| `Denoiser.Buffers.Push` | crates/callora-audio/src/denoise.rs:58-90 | as long as its frame; the real samples are the processed stream in order, then silence; fewer than 80 samples of silence are inserted in the whole call |
| `Denoiser.Buffers.Process` | crates/callora-audio/src/denoise.rs:67-77 | one network frame moves 480 samples on |
| `Denoiser.Buffers.TakeReady` | crates/callora-audio/src/denoise.rs:78-85 | what is given is the next of the processed stream |
| `Denoiser.CleanedExtends` | crates/callora-audio/src/denoise.rs:67-77 | what was processed does not depend on what comes later |
| `Denoiser.DownsampledSplit` | crates/callora-audio/src/denoise.rs:78-85 | samples taken in parts are those taken at once |
| `Denoiser.InsertedStaysSmall` | crates/callora-audio/src/denoise.rs:78-90 | the silence inserted stays below 80 samples |
| `AskQueue.OneAtATime` | whatsapp/src/sessions.ts:322-332 | at most one question runs in a chat |
| `AskQueue.StartsInOrder` | whatsapp/src/sessions.ts:322-332 | questions run in the order they were asked |
| `AskQueue.NeverBlocked` | whatsapp/src/sessions.ts:325-327 | a waiting question has one before it to wait for that can still run, however others failed |
| `AskQueue.MissingMeansIdle` | whatsapp/src/sessions.ts:328-330 | a chat missing from the map has nothing pending |
| `AskQueue.EarlierAreOver` | whatsapp/src/sessions.ts:322-332 | once a question has been sent every earlier one of its chat is over |
| `AskQueue.Sessions.Ask` | whatsapp/src/sessions.ts:322-332 | a question waits for the one the map has, and takes its place there |
| `AskQueue.Sessions.Run` | whatsapp/src/sessions.ts:322-332 | all of this after any interleaving of asking, starting, finishing, failing and cleaning up |
| `VoiceLibrary.SegmentIsEntry` | crates/callora-core/src/render.rs:318-365 | with no delivery asked for, every segment rendered as fixed or as a template is a library entry, if in its variant no name filled in before is found again |
| `VoiceLibrary.RecordedExactly` | crates/callora-core/src/render.rs:204-222 | whatever the values, all renderings of a template are recorded if and only if it names nothing twice |
| `VoiceLibrary.PlainlyRecordedExactly` | crates/callora-core/src/render.rs:204-222 | with values free of braces, all renderings of a template are recorded if and only if no such values make a name filled in before stand in the text where it is filled in again |
| `VoiceLibrary.OneWayExactly` | crates/callora-core/src/render.rs:204-222 | with one value for each name, free of braces, the rendering is recorded if and only if these values do not |
| `VoiceLibrary.Library.NormalIsFound` | crates/callora-audio/src/library.rs:115-120 | of responses with normal delivery, a complete library has the clip under every delivery asked for, under the same condition |
| `VoiceLibrary.RenderedIsEntry` | crates/callora-core/src/render.rs:204-222 | the text rendered is one of the texts the library expands, if no name filled in before is found again |
| `VoiceLibrary.SaidIsInDomain` | crates/callora-core/src/render.rs:135-190 | a value said as recorded beforehand is in its parameter's domain |
| `VoiceLibrary.LibraryEntries` | crates/callora-core/src/render.rs:318-365 | the loops collect exactly the entries of all variants, in any order of the responses |
| `VoiceLibrary.VariantEntries` | crates/callora-core/src/render.rs:323-361 | a fixed sentence in every delivery recorded beforehand, a template in its own with every value |
| `VoiceLibrary.RenderVariant` | crates/callora-core/src/render.rs:204-222 | the loop fills every placeholder, or gives up at the first with no value |
| `VoiceLibrary.Renderer.RenderResponse` | crates/callora-core/src/render.rs:262-297 | every segment is a variant of its response, and there is a plan exactly when some variant has all its values |
| `VoiceLibrary.Choose` | crates/callora-core/src/render.rs:234-248 | an index in range, and never the last one where there is a choice |
| `VoiceLibrary.Library.Get` | crates/callora-audio/src/library.rs:115-120 | the clip of that text in that delivery or the normal one, and none only if both are missing |
| `VoiceLibrary.Library.Build` | crates/callora-audio/src/library.rs:131-135 | recording every entry makes the library complete |
| `Templates.OnceIsEnough` | crates/callora-core/src/render.rs:204-222 | filling every placeholder in turn is filling each name once, whenever no name filled in before is found again |
| `Refills.OnceIsEnoughExactly` | crates/callora-core/src/render.rs:204-222 | and with values free of braces only then |
| `Refills.FlatFindsNone` | crates/callora-core/src/render.rs:204-222 | none is found again in a template whose only braces are those of its placeholders |
| `Templates.ReplaceFills` | crates/callora-core/src/render.rs:219-219 | replacing a placeholder in the text fills that placeholder and nothing else |
| `VoiceLibrary.NestedIsNotRecorded` | crates/callora-core/src/render.rs:204-222 | nor is it enough that values have no braces: `{{name}}{name}` with the name for its value renders as a template, and its text is in no entry of that variant |
| `Templates.TwiceIsMore` | crates/callora-core/src/render.rs:204-222 | a name given twice, whose value holds its placeholder and more, is filled in to another text than by filling it once |

## Left out

- Engine.Engine.OnAgentTurn: which special case the agent's words lead to is free, because those rules are wording heuristics; what each of them does to the call is modelled.
- Engine.Engine.ReadTask: the variant of the read-back that says the caller's name is the plain one, because only the wording differs.
- Engine.Engine.Advance: the filler said while an action runs and the joining of consecutive words into one speech plan are not modelled, because they change no state; where several values are too uncertain to act on, any may be asked about first.
- Engine.Engine.CancelFlow: the words said in answer to "cancel", "go back" or "wait" are not modelled, because they change no state.
- Vad.StartsOnceExactly: is about the energy test alone; with a voice probability for each frame a sound may start speech as often as that probability comes and goes.
- Tempo.BestBelowIsFirstMaximum: the lowest score a search starts from is a fixed floor, as in the source.
- A task (`PipelineRun`) and a playing item (`Active`) are values, because their owner holds them by value and moves them; update in place inside them is not captured.
- PlayoutItem.SentIsASlice: how much silence trimming takes from either end of a stream over a whole run is not said, because it depends on when the chunks arrive; `TrimHead` and `TrimTail` say it of one look.
- Gain and the limiter: playout is modelled with zero gain, where both change nothing.
- Rounding of floating-point numbers in the stretcher, the detector and the noise suppression.
- The closest names offered when a place is not found, and the hints for speech recognition.
- Loose matching of free text against the library, and loading and saving clips.
- The rules that split, correct and reassign the agent's values before they are taken, and the probes that try a turn on a copy of the call.
- Speech recognition, speech synthesis, telephony, storage, the web pages and the login of messaging accounts.
- JSON parsing beyond the streamed `say` string, regular expressions, hashing and the noise network itself.
- Deadlines and reply collection inside one question to a chat.
