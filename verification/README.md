# The decision core of the keyboard engine, verified

A Dafny model of the engine that decides, for each keyboard event, whether
Windows sees it, which actions run and which timers start, together with the
world it runs in: the fingers, the key state of Windows, the main thread and
its timers. The theorems are about every run, every binding list and every
condition.

## How it is built

Each part of the source that works in place is a class whose methods update its
fields; each method is proved equal to a function on values (the engine's are in
`EngineState.dfy`), and the theorems are proved of these functions. So a method
that skipped a step or swapped two values would no longer match its function,
and a function changed with it would break the theorems about runs.

| files | what they model |
|---|---|
| `Modifiers`, `KeySpecs`, `Bindings`, `Options`, `Seqs` | codes, trigger keys, bindings, conditions as data |
| `KeyTable`, `Matching`, `Winner` | the two 256-entry tables, matching, the election and the gesture group |
| `MatchingRules`, `ElectionRules`, `ConditionRules` | what matching, the election and conditions mean, in held codes and the bindings' fields |
| `Gestures`, `Chords`, `Sequences` | the pending presses, chords and sequences |
| `Resync`, `Schedule`, `PrunedQueue` | the planner of modifier reads, tokens and the timer queue, pruned and drained |
| `EngineState`, `Engine` | the engine as steps on a value, and in place |
| `GestureFacts`, `EngineFacts`, `Tokens` | invariants, liveness of tokens, the queue |
| `KeyRules`, `EnginePlanner`, `RefusedTimers` | the keys held, the codes a drain reads and the Holds lost, step by step |
| `RipeGestures`, `LateTimers` | a normal form without what is due; late timers change no outcome |
| `GestureTimeline`, `GestureEndings`, `GestureFates`, `PlainGestures`, `GestureMarks` | which gesture a press becomes, what another key ends; conservation of presses |
| `ChordRuns`, `SequenceRuns`, `ChordMachine`, `SequenceMachine`, `ChordCompletes`, `SequenceCompletes` | what a completion says of the past; the shared tables as independent machines; exactly when a key-down completes |
| `KeyDowns`, `EngineMachines` | what a key-down comes to, read off the bindings and the machines |
| `World`, `WorldSafety`, `PressSymmetry`, `WorldTimers`, `MaskRule`, `MaskExactly`, `MaskScripts`, `OwedMask`, `Repair`, `RepairRuns` | the world's steps and the theorems over its runs |
| `Scenario` | the world in place, with its checks |
| `Combo`, `AutoBlockers`, `AutoBlockerRules` | a combo cut short; the loader's auto-blockers |

`EveryPressEndsOnce` follows presses by marking each arming's actions with its
number; `GestureMarks` rubs the marks out again and carries the law over to runs
of the engine.

## Where the code and its promises differ

- The order-insensitive equality of combinations counts lengths and looks one
  way. From a combination it is symmetric exactly when that lists no key twice,
  or every key there is (`SameAsNeedsNoDuplicates`); the builders and the loader
  keep duplicates out, and the theorems that need it say so.
- A cut-short combo is released cleanly exactly when no key is listed twice
  (`NestedExactlyWithoutDuplicates`).
- A pending gesture as evidence of a swallowed press decides nothing for codes
  of the key table, and does decide for codes of 256 and more, which no keyboard
  sends (`EvidenceNeverDecidesExactlyInTheTable`).
- The menu mask goes by the engine's records, so it can miss an Alt or Win key
  that Windows has down, after a hidden or an injected key-down of a swallowed
  key and after a lock while the key is held, and it can be asked for with none
  down, after a hidden press (the four scripts of `MaskScripts`). The exact
  condition, for every event of every run, is that of
  `MaskRuleHoldsExactlyWhenCounted`; `ExactMenuMask` gives a class of scripts
  that always meets it.

## Model

| member | source | states |
|---|---|---|
| `WorldSafety.NoLoneKeyUpNothingStuck` | src/engine/testing.rs:904-925 | For every file of bindings, foreground and script (seen, hidden, unnoticed and injected events, focus changes, reloads, signals, hook reinstalls, remapping off and on, lost timers): no key-up that passes while remapping is on is alone in Windows, and no key is down in Windows that the fingers have up |
| `WorldSafety.StepKeepsSafe` | src/engine/mod.rs:920-1009 | The inductive core, one step of any kind: a held key whose record is Passed or missing is down in Windows, and nothing is down there that is not held |
| `PressSymmetry.WholePressSymmetry` | src/engine/testing.rs:978-1001 | In every run without hidden, lost or injected events: each auto-repeat and the key-up of a press are swallowed exactly when its key-down was, across focus changes, drains, lost timers, completed chords and sequences, and reloads to any bindings; at the end engine, fingers and Windows agree on every key |
| `MaskExactly.MaskRuleHoldsExactlyWhenCounted` | src/engine/mod.rs:920-1019 | At every key event of every run whose files have no MaskOnly blocker, for every key and whatever is hidden, locked, switched or injected: the mask is asked for as the rule says iff the event passes, or the records before it count an Alt or Win key when Windows has one down and not the event's own key when it has none |
| `MaskExactly.MaskIsWhatCounts` | src/engine/mod.rs:1015-1019 | A key event asks for the mask iff it is swallowed while the state before it counts a key: another Alt or Win code held, read down in Windows and neither recorded as swallowed nor marked by what the event completes, or its own in a repeat with no settled record |
| `MaskExactly.DecidedRecordsCount` | src/engine/testing.rs:942-955 | For an event of another key with settled records the condition reads: if Windows has an Alt or Win key down, one of those down is held and on record as passed |
| `MaskRule.ExactMenuMask` | src/engine/testing.rs:942-955 | A class of scripts that always meets the rule: no MaskOnly blocker, no hidden key-down, no lock or switch away, no injected event; lost key-ups, reloads, resets from Windows and lost timers are allowed. At the end the engine holds every Alt and Win key Windows has down |
| `MaskScripts.MaskMissesAnUnseenAlt` | src/engine/testing.rs:438-459 | From a daemon's start, for every Alt or Win key and ordinary key: a script with a hidden key-down whose last event is swallowed under an Alt or Win key and asks for no mask |
| `MaskScripts.MaskMissesAnInjectedAlt` | src/engine/testing.rs:848-861 | The same with the daemon's own injected key-down |
| `MaskScripts.MaskMissesAHeldAltAfterALock` | src/engine/testing.rs:541-559 | The same with every key-down seen and a lock while the key is held |
| `MaskScripts.MaskCountsAnUnseenRelease` | src/engine/mod.rs:925-946 | The other failure: after a noticed hidden key-down and an unnoticed key-up the key's next press asks for the mask with no Alt or Win key down |
| `OwedMask.EveryMask` | src/engine/mod.rs:544-572 | At every key event of every run, with MaskOnly blockers: it asks for the mask iff such a blocker acted on the last key event before it with no reset since, one acts on it now, or it is swallowed while an Alt or Win code counts |
| `OwedMask.MaskOnBothEvents` | src/engine/mod.rs:549-570 | After a MaskOnly blocker acted on a key-down, that event and the next one ask for the mask, whichever key the next is of, whether it passes, and whatever happens in between but a reset |
| `OwedMask.EventMask` | src/engine/mod.rs:544-572 | One event of the engine, for any bindings: the mask asked for, and the mask owed afterwards iff a MaskOnly blocker whose hotkey is pressed alone acted on this first key-down |
| `OwedMask.EngineOwes` | src/engine/mod.rs:549-570 | At every point of a run the engine owes a mask iff a MaskOnly blocker acted on the last key event and no reset came since |
| `LateTimers.LateTimersChangeNoOutcome` | src/engine/mod.rs:96-102 | Two runs on the same inputs that hand each timer back at or after its due time, in any order, have fired the same multiset of actions once all timers ran |
| `LateTimers.TimersNeverChangeAVerdict` | src/engine/mod.rs:96-102 | Two such runs, at any point, have swallowed and masked the same events and have the same key table |
| `LateTimers.DeliveryIsInvisible` | src/engine/gestures.rs:355-404 | Handing a due timer back changes no state but the one a normal form leaves out, and fires exactly what that form counts as due |
| `LateTimers.KeySameOutcome` | src/engine/mod.rs:544-572 | A key event on two engines that differ only in what is due: the same verdict, the same change of the count fired or due of every action, and engines that again differ only in what is due |
| `LateTimers.ChordExpiryIsInvisible` | src/engine/chords.rs:129-131 | An expiry timer at or after its deadline removes only entries the next key-down would drop |
| `LateTimers.SequenceExpiryIsInvisible` | src/engine/sequences.rs:140-142 | The same for sequences |
| `LateTimers.ChordOutcomeIgnoresExpired` | src/engine/chords.rs:72-126 | Tables that differ in expired entries give every key-down the same outcome and differ only in expired entries afterwards |
| `LateTimers.SequenceOutcomeIgnoresExpired` | src/engine/sequences.rs:71-136 | The same for sequences |
| `LateTimers.GestureEvidenceIsOnRecord` | src/engine/mod.rs:981-999 | In a well-formed engine a press pending at its key-up has its key on record as Passed or Suppressed, for every code of the key table |
| `LateTimers.EvidenceNeverDecidesExactlyInTheTable` | src/engine/mod.rs:981-999 | `gesture_bound` decides no key-up of a code iff the code is below 256; above it a pending Hold does decide |
| `GestureFates.EveryPressEndsOnce` | src/engine/gestures.rs:171-439 | In every run of presses, key-ups, other keys, timers, refusals and resets: each arming is exactly one of fired once, dropped once and still pending, and no key has two pending presses |
| `GestureMarks.EngineArmingsEndOnce` | src/engine/mod.rs:544-763 | In every run of the engine the gestures are those of the marked books and fire what these say, so each arming of the engine is exactly one of fired once, dropped once and still pending |
| `GestureMarks.StepIsGestureOps` | src/engine/mod.rs:765-1009 | Each engine step changes the gestures by its list of gesture operations, and fires what these fire first; key-ups and timers fire nothing else |
| `PlainGestures.PlainApply` | src/engine/gestures.rs:171-447 | Every operation on marked presses is the operation on plain ones: the machine never looks at an action |
| `GestureFates.OpBalance` | src/engine/gestures.rs:171-439 | One operation conserves armings: pending + fired + dropped afterwards is pending + armed before |
| `GestureFates.CompletingPressArmsNothing` | src/engine/gestures.rs:171-235 | A press that completes a DoubleTap fires it alone and leaves no press of its key |
| `GestureTimeline.PressTimeline` | src/engine/gestures.rs:171-289 | From a press of a gesture group to its key-up and after: by how long it lasted it is a Hold (fired by its timer), a Tap (fired at the key-up), a press that may double (DoubleTap on a second press of its group in time, else the Tap that waited, which its timer fires), or spent |
| `GestureTimeline.KeyUpDecides` | src/engine/gestures.rs:240-289 | That decision for a press still pending in any reachable table, with what is left pending and whether the key-up is gesture-bound |
| `GestureTimeline.SecondPressDecides` | src/engine/gestures.rs:171-235 | A second press of the same group inside the window fires only the DoubleTap and arms nothing; any other press of the key fires the waiting Tap and starts anew |
| `GestureTimeline.HoldFires` | src/engine/gestures.rs:355-378 | A held press's timer fires its Hold and ends the press |
| `GestureTimeline.LeftHoldFires` | src/engine/gestures.rs:355-378 | A Hold left to its timer fires however late, whatever was pressed since |
| `GestureTimeline.WaitingTapFires` | src/engine/gestures.rs:355-404 | A window's timer fires the Tap that waited and ends the press |
| `GestureTimeline.OthersLeaveIt` | src/engine/gestures.rs:306-349 | Another key's press and key-up leave a pending press as it is; the scan at its first key-down keeps a press iff the rule for other keys does (the rule itself in records and times: `GestureEndings.AnotherKeyEnds`) |
| `GestureEndings.AnotherKeyEnds` | src/engine/gestures.rs:306-349 | A press survives the first key-down of another key iff, held, its own key-down did not pass or a Hold of it is due by then; or, waiting for its second, a key of its group accepts the code, or no Tap waits and it did not pass. The waiting Taps so ended are what the event fires first, in order |
| `GestureEndings.TapFiresUnlessInterrupted` | src/engine/gestures.rs:240-349 | A Tap press to its key-up, through any events of other keys, timers, refusals, drains and resets: one that passed fires its Tap iff no other key went down first and the term is not over; a swallowed one iff the term is not over; none after a reset |
| `GestureEndings.RunAndATap` | src/engine/gestures.rs:306-349 | Through any such run a Tap press is pending as it was, or was interrupted and its key has no press left |
| `GestureEndings.TimerClosesWindows` | src/engine/gestures.rs:355-404 | A timer that an entry waits for ends that entry and every press whose Tap waits for a window closed by the timer's due time, and no other; it fires these Taps in order and then its own action |
| `EngineMachines.FirstKeyDownByMachines` | src/engine/mod.rs:765-959 | Any loadable bindings: what a first key-down fires in order (Taps it ends, its own press, then in file order the immediate winner and each sequence and chord its machine completes), when it is swallowed, its timers, the keys it marks and the new state |
| `EngineMachines.EveryRunMirrorsItsMachines` | src/engine/mod.rs:509-521 | In every run of the engine in time order the chord and sequence tables mirror one machine per chord and step list, fed since the last reset |
| `KeyDowns.FirstKeyDown` | src/engine/mod.rs:765-959 | The same read off the bindings alone where none is a sequence or chord |
| `KeyDowns.RepeatsOnlyRepeat` | src/engine/mod.rs:920-951 | For any bindings an auto-repeat fires at most an immediate winner that repeats, asks for no timer, follows a settled record, and otherwise is swallowed and recorded as a blocker or the winner asks |
| `Tokens.StaleTokenDoesNothing` | src/engine/mod.rs:576-600 | A token that is not live changes nothing and fires nothing |
| `Tokens.DeadStaysDead` | src/engine/mod.rs:593-600 | A token issued earlier and not live never becomes live again, whatever happens, resets included |
| `Tokens.TokenDeliversAtMostOnce` | src/engine/mod.rs:576-588 | After a delivery and any run, delivering the token again does nothing |
| `Tokens.AdvancedSequenceLeavesADeadToken` | src/engine/sequences.rs:98-136 | When a key-down advances or completes a sequence's entry, the entry's old token is dead and its delivery changes nothing |
| `Tokens.MovedSequenceLeavesADeadToken` | src/engine/mod.rs:593-600 | In any step an entry stays as it is, or its token does nothing after any run |
| `Tokens.PrunedTimersWouldDoNothing` | src/engine/mod.rs:608-624 | A request pruned from the queue would have done nothing at any later time |
| `Tokens.StepKeepsQueue` | src/engine/mod.rs:608-624 | Any step whose timers are started keeps every wait of the engine in the queue at its deadline, pruned or not |
| `Tokens.DrainDeliversTheDueOnes` | src/engine/testing.rs:624-645 | The drain to a time delivers exactly the requests due by it, in the order of the stable sort, and keeps exactly the others |
| `Tokens.DrainLeavesNothingWaiting` | src/engine/testing.rs:624-645 | After it no gesture, chord or sequence waits for a time that has passed |
| `WorldTimers.NoArmedWaitIsLost` | src/engine/mod.rs:608-624 | In every run that loses no timer: at every step each wait has its timer queued, and each advance leaves nothing waiting for a time that has passed |
| `Timers.DrainIsAStableSort` | src/engine/schedule.rs:64-74 | Repeated hand-out is a stable sort by due time of the requests due, and leaves the others in start order |
| `PrunedQueue.PruningKeepsTheHandOut` | src/engine/schedule.rs:64-90 | Dropping the timers that no longer wait and then draining hands out exactly the others of the whole drain, in the same order |
| `RefusedTimers.RefusedTimersLoseTheirHolds` | src/engine/mod.rs:608-640 | Starting a decision's timers with any scheduler: queued are those that still wait, then the accepted ones in order; exactly the Holds the refused ones were to fire are gone, and their number is returned |
| `RefusedTimers.RefusalTakesTheHold` | src/engine/gestures.rs:422-439 | One refusal takes the Hold it was to fire, held or due, and leaves every other press, the press's own Tap and DoubleTap, and a press that waits for its second |
| `RefusedTimers.WithoutItsHold` | src/engine/gestures.rs:422-439 | A press that lost its Hold is decided at its key-up as if its group had none |
| `EngineFacts.RunInv` | src/engine/mod.rs:509-521 | Every run of any operations keeps the engine's invariant: one press per key, one deadline per arming number, records for held presses |
| `EngineFacts.StepInv` | src/engine/mod.rs:352-377 | Every wait after a step is an old one of the same generation or asked for a timer in it, and its tokens are new |
| `EngineFacts.OneDeadline` | src/engine/mod.rs:333-348 | A token has one deadline |
| `EngineFacts.LiveMeansAnEntryWaits` | src/engine/mod.rs:593-600 | A token is live iff an entry of the engine waits for it |
| `EngineFacts.KeyDownVerdict` | src/engine/mod.rs:920-956 | For any bindings: what a key-down may record, and that a recorded auto-repeat follows its record |
| `EngineFacts.KeyUpVerdict` | src/engine/mod.rs:961-1009 | A key-up consumes its record, is swallowed iff a swallowed press is on record or stood in for and Windows has the key up, and clears only stale Alt and Win flags |
| `KeyRules.HeldAfterStep` | src/engine/keys.rs:104-225 | Which keys the engine holds after each kind of step: a key event moves its own key and drops only modifiers Windows has up whose press it did not swallow; a reset takes the keyboard codes Windows has down (no mouse button, no generic code), keeps or releases all; a drain reads the planned modifiers; an injected event moves its modifier unless that press was swallowed |
| `Resyncs.PlannerLosesNothingAndReadsNothingStale` | src/engine/resync.rs:61-116 | Over every run, against an observer without counters: each plan reads exactly the unread codes no event touched since the last plan, none while input is away; unless a full read is pending the unread codes are the owed ones |
| `Resyncs.TwoPlansReadEverything` | src/engine/resync.rs:98-116 | Two plans in a row with input present read everything unread, each code once |
| `EnginePlanner.DrainsReadExactlyTheUnread` | src/engine/mod.rs:657-696 | In every run of the engine each drain reads from Windows exactly the modifiers not read since the start, a focus change, a note, or input leaving or coming back, but those a key event or injected event touched since the drain before; nothing while input is away |
| `Repair.TwoDrainsRepair` | src/engine/keys.rs:104-116 | After noted hidden input two drains leave every modifier as Windows has it, but for swallowed presses; no record and no other key changes |
| `Repair.RepairIsStable` | src/engine/keys.rs:104-116 | Reading a repaired table again changes nothing |
| `RepairRuns.HiddenInputIsRepaired` | src/engine/mod.rs:670-677 | From every state a run reaches: any noticed source of hidden input, its drain and one more repair every modifier in the world |
| `Winners.ElectionFindsTheBest` | src/engine/winner.rs:46-88 | The election with early skips returns i iff i is the best of the candidates: it outranks every earlier one and no later one outranks it; none iff there is none |
| `Winners.ElectionInFileOrder` | src/engine/mod.rs:504-506 | Sorting by key count and electing picks the best candidate of the unsorted file |
| `ElectionRules.WinnerAppliesAndPrecedes` | src/engine/winner.rs:46-88 | Of the bindings' own fields: the winner is a `keys` binding of the user that matches with its `when:` true, and every other such binding has fewer keys, or as many and no `when:` where the winner has one, or is later with both or neither; with no winner there is no such binding |
| `ElectionRules.WinnerInFileOrder` | src/engine/mod.rs:504-506 | The same of the sorted list in the order of the unsorted file |
| `ElectionRules.MembersArmTogether` | src/engine/winner.rs:155-176 | What arms with a deferred winner: itself, and the deferred `keys` bindings of the user with its keys in any order and its `when:` as written that match the press |
| `ElectionRules.GroupArmsTheFirsts` | src/engine/winner.rs:110-145 | Each gesture armed has the term and action of the first Tap, Hold or DoubleTap that arms with the winner, and is missing only where none does; the key is swallowed iff one of these says so |
| `Winners.SortIsStable` | src/engine/mod.rs:504-506 | The sort is a permutation, more keys first, and keeps the file order within a count |
| `Winners.NoMemberBeforeTheWinner` | src/engine/winner.rs:110-145 | No binding before the winner belongs to its gesture group |
| `Winners.GroupIsTheFirstOfEachKind` | src/engine/winner.rs:110-202 | The group armed is the first member of each deferred kind in the whole list, no other, blocks iff one of these does, and has the winner's kind |
| `ChordRuns.ChordCompletion` | src/engine/chords.rs:80-125 | In every run of loadable chords: no pending chord is complete, none shares its keys with another, and a completed chord has, for each key, an accepted code fed within the window of its first key-down, at least as many codes as keys |
| `ChordCompletes.ChordCompletesExactly` | src/engine/chords.rs:72-126 | In every run in time order: within a window of its keys a key-down completes the chord iff each key had a code pressed since the window opened, with the action of the key-down that opened it, the codes pressed, and no entry of these keys left; else it waits on; outside a window it opens one; of no key of the chord it is not in it |
| `ChordRuns.AsManyCodesAsKeys` | src/engine/chords.rs:72-126 | Keys that do not overlap need at least as many codes as keys |
| `ChordRuns.OneCodeIsNotEnough` | src/engine/chords.rs:72-126 | A single key-down completes no loadable chord |
| `SequenceRuns.SequenceHistory` | src/engine/sequences.rs:71-136 | In every run: pending entries have 1 <= next step < n and are unique per steps; when a sequence completes, the last n key-downs fed to its steps matched them in order, each strictly within the gap set by the one before |
| `SequenceCompletes.SequenceCompletesExactly` | src/engine/sequences.rs:71-136 | In every run in time order: a key-down is one step more iff a code of each key of the next step is held, in the gap the one before set; else the first step or none; the list completes exactly at its last step, with the action of its first key-down and no entry of its steps left |
| `SequenceCompletes.LastStepKeysMeans` | src/engine/sequences.rs:156-170 | The codes a completed sequence marks are those of its last step's keys that are no modifiers |
| `SequenceMachines.EachSequenceIsItsMachine` | src/engine/sequences.rs:71-142 | In every run in time order, with or without expiry timers: each outcome from the shared table is exactly that of a machine of its own step list on the key-downs fed to that list |
| `ChordMachines.EachChordIsItsMachine` | src/engine/chords.rs:72-131 | The same for chords, each set of keys with its own machine; when that machine completes: `ChordCompletes.ChordCompletesExactly` |
| `Combos.NestedExactlyWithoutDuplicates` | src/data/sequence.rs:253-270 | For every cut of the batch, batch and releases are properly nested, release only what is down and leave every key up: iff the key list has no duplicate |
| `Combos.UnreleasedIsWhatIsDown` | src/data/sequence.rs:257-270 | The keys to release are exactly the keys down after the cut, last down first |
| `Combos.CutShortLeavesNothingDown` | src/data/sequence.rs:257-270 | The forward half, for one cut |
| `Combos.PayloadInsideModifiers` | src/data/sequence.rs:232-251 | A payload key goes down and up while every modifier of the combo is down |
| `Combos.OrderIsTheKeys` | src/data/sequence.rs:236-251 | The batch presses each key as often as it is listed and releases in the reverse order |
| `Combos.HalfKeepsOrder` | src/data/sequence.rs:236-241 | The modifiers, and the other keys, are pressed in the order they are listed: each half is the keys at all its places from left to right |
| `AutoBlockers.OneBlockerPerHotkeyAndMode` | src/config/loader.rs:347-423 | Exactly one blocker for a hotkey and effective mode if a binding asks for it and no `keys` binding uses its keys; none otherwise |
| `AutoBlockerRules.OneBlockerForEachWish` | src/config/loader.rs:347-423 | Of the bindings' own fields: an added blocker of these keys in this mode exists iff a binding says `block_original_combo` and its action has the hotkey of these keys, masking iff it asks for that and all keys are modifiers, and no `keys` binding uses the keys; then there is just one |
| `AutoBlockerRules.BlockerServesItsWishes` | src/config/loader.rs:390-405 | An added blocker fires nothing and its `when:` is true iff that of a binding that wishes for it is |
| `AutoBlockerRules.WarningMeans` | src/config/loader.rs:408-418 | A warning names a binding iff it asks for a MaskOnly, its hotkey has a key that is no modifier, and no `keys` binding uses the hotkey's keys |
| `AutoBlockers.BlockerActsForItsOwners` | src/config/loader.rs:339-342 | A blocker's condition is true in a foreground iff that of a binding that asked for it is; it fires nothing, takes over no bound keys, and masks only hotkeys made of modifiers |
| `AutoBlockers.WarnsWhereMaskOnlyFallsBack` | src/config/loader.rs:408-418 | A warning names binding and hotkey iff the binding asked for a MaskOnly its hotkey cannot have and the hotkey is blocked |
| `AutoBlockers.AnyOfHoldsWhereOneDoes` | src/config/loader.rs:425-444 | The folded condition holds iff one of the conditions does, or there is none |
| `AutoBlockers.ExpandWithAutoBlockers` | src/config/loader.rs:347-423 | The loops give the file's bindings, then the specified blockers, and the specified warnings |
| `AutoBlockers.Requests` | src/config/loader.rs:355-371 | The wishes of the file in file order, with the effective mode |
| `AutoBlockers.BlockHotkey` | src/config/loader.rs:390-405 | One blocker per mode asked for of one hotkey |
| `AutoBlockers.AnyOfConditions` | src/config/loader.rs:429-444 | The loop with its early return: the folded condition, and what it means in every foreground |
| `KeySpecs.OverlapIsASharedCode` | src/data/key_spec.rs:150-160 | Two specs overlap iff some code is accepted by both |
| `ConditionRules.OppositeIsNegation` | src/data/condition.rs:55-74 | Negation turned inside out through And, Or and Not: exactly one of a condition and its opposite holds |
| `ConditionRules.AllHoldOneByOne` | src/data/condition.rs:55-74 | And of two lists is both Ands, and of no condition holds |
| `ConditionRules.OneOfEitherHolds` | src/data/condition.rs:55-74 | Or of two lists is one of both Ors, and of no condition does not hold |
| `KeySpecs.SameAsIsSetEquality` | src/data/key_combination.rs:16-29 | Without duplicates the order-insensitive equality is equality of key sets |
| `KeySpecs.SameAsNeedsNoDuplicates` | src/data/key_combination.rs:16-29 | For every combination: the equality from it is symmetric iff it lists no key twice, or lists every key there is |
| `KeySpecs.SameAsTurnsAround` | src/data/key_combination.rs:16-29 | An equality turns around if its left side lists no key twice |
| `KeySpecs.Dedup` | src/data/key_combination.rs:50-59 | Each key once: the same keys and no duplicate |
| `KeySpecs.FromKeys` | src/data/key_combination.rs:50-59 | The loop builds the deduplicated combination |
| `KeySpecs.FamiliesOf` | src/data/key_combination.rs:63-68 | The modifier families named, whichever side names them |
| `Modifiers.TouchedByIsWhatAnEventChanges` | src/engine/modifiers.rs:94-105 | For every code, generic ones included: `touched_by` names exactly the modifiers whose reading an event of the code can change |
| `Matching.MatchingIgnoresOrder` | src/engine/matching.rs:53-83 | Matching does not depend on the written order of the keys |
| `MatchingRules.ModifierCodesAreTheFamilies` | src/engine/modifiers.rs:15-54 | The modifier codes are those an unsided modifier key accepts, and the menu codes those of Alt and Win, generic Alt included |
| `MatchingRules.ComboMatchesMeans` | src/engine/matching.rs:53-83 | A `keys` binding matches iff the pressed code is one of a payload key (of any key, if all are modifiers), a held code is accepted by each key and, unless extra modifiers are allowed, each held modifier code is of a family that some key names |
| `MatchingRules.BlockerMatchesMeans` | src/engine/matching.rs:85-106 | A blocker matches iff its hotkey is triggered, each key of it is held, and every other held code is up in Windows |
| `Matching.IsDownMeansAcceptedCodeHeld` | src/engine/keys.rs:313-322 | A key of a binding is down iff a held code is one it accepts |
| `KeyTables.KeyState.ResyncModifiers` | src/engine/keys.rs:104-116 | New tables: the read of the named modifiers, swallowed ones left alone, generic ones only dropped |
| `KeyTables.KeyState.ClearReleasedModifiers` | src/engine/keys.rs:127-143 | New tables: stale modifiers dropped, but the event's own and the swallowed ones |
| `KeyTables.KeyState.TrackInjected` | src/engine/keys.rs:150-159 | A modifier's flag follows the event unless its press was swallowed; no record changes |
| `KeyTables.KeyState.ResyncFromOs` | src/engine/keys.rs:181-202 | Flags and records after a reset's read; swallowed records kept |
| `KeyTables.KeyState.ReleaseAll` | src/engine/keys.rs:209-211 | No key held, every record kept |
| `KeyTables.KeyState.Press` | src/engine/keys.rs:220-225 | Sets the flag and says whether it was set; codes past the table ignored |
| `KeyTables.KeyState.MarkCompleted` | src/engine/keys.rs:254-261 | Marks a held key whose key-down did not pass as swallowed |
| `KeyTables.KeyState.TakeBlocked` | src/engine/keys.rs:283-291 | Consumes the record and says whether it was a swallow |
| `KeyTables.KeyState.AltOrWinDownInWindows` | src/engine/keys.rs:304-309 | Whether a held Alt or Win key has no swallowed record |
| `Winners.Elect` | src/engine/winner.rs:59-88 | The loop's winner is that of the specified election; who that is: `ElectionRules.WinnerAppliesAndPrecedes` |
| `Winners.DeferredGroup` | src/engine/winner.rs:110-145 | The scan from the winner with its used-kind flags gives the specified group |
| `GestureTables.Gestures.PressKey` | src/engine/gestures.rs:171-235 | New table, fired actions and Hold deadline of a press |
| `GestureTables.Gestures.ReleaseKey` | src/engine/gestures.rs:240-289 | New table and result of a key-up |
| `GestureTables.Gestures.OtherKeyDown` | src/engine/gestures.rs:306-349 | Presses that another key ends, removed in place, and their waiting Taps in order, equal to the specified lists; which these are: `GestureEndings.AnotherKeyEnds` |
| `GestureTables.Gestures.OnTimer` | src/engine/gestures.rs:355-378 | New table and fired actions of a timer |
| `GestureTables.Gestures.FireClosedWindows` | src/engine/gestures.rs:381-404 | Waiting Taps whose windows closed, removed in place and fired in order |
| `GestureTables.Gestures.IsLive` | src/engine/gestures.rs:408-414 | Whether a press or due Hold waits under the number |
| `GestureTables.Gestures.Forget` | src/engine/gestures.rs:422-439 | What a refused timer removes, and whether a gesture was lost |
| `ChordTables.Chords.OnKeyDown` | src/engine/chords.rs:72-126 | New table and outcome of a key-down, equal to the specified ones; which these are in a run: `ChordCompletes.ChordCompletesExactly` |
| `ChordTables.Chords.Expire` | src/engine/chords.rs:129-131 | Drops the entries of the number |
| `SequenceTables.Sequences.OnKeyDown` | src/engine/sequences.rs:71-136 | New table and outcome of a key-down, equal to the specified ones; which these are in a run: `SequenceCompletes.SequenceCompletesExactly` |
| `SequenceTables.Sequences.Expire` | src/engine/sequences.rs:140-142 | Drops the entries of the number |
| `Resyncs.Resync.Event` | src/engine/resync.rs:69-74 | Marks the touched codes fresh; a decided event brings input back |
| `Resyncs.Resync.Plan` | src/engine/resync.rs:98-116 | New counters and sets and the codes to read |
| `Timers.NextPlace` | src/engine/schedule.rs:64-74 | The place handed out: due, earliest, the first of its time; the length iff nothing is due |
| `Timers.TimerQueue.NextDue` | src/engine/schedule.rs:58-60 | The earliest due time queued, none iff empty |
| `Timers.TimerQueue.TakeDue` | src/engine/schedule.rs:64-74 | Takes out exactly the request at that place |
| `Timers.TimerQueue.Start` | src/engine/schedule.rs:83-86 | Appends and accepts |
| `Timers.TimerQueue.Retain` | src/engine/schedule.rs:88-90 | Keeps the live ones in order |
| `Engines.Engine.OnKey` | src/engine/mod.rs:544-572 | New engine state and decision of a key event, the mask owed to it included (`OwedMask.EventMask`) |
| `Engines.Engine.OnKeyDown` | src/engine/mod.rs:765-959 | The loop over the bindings, the record and the mask of a key-down |
| `Engines.Engine.OnKeyUp` | src/engine/mod.rs:961-1009 | The press resolved, the record consumed, the witness asked, the mask |
| `Engines.Engine.OnTimer` | src/engine/mod.rs:576-588 | New state and fired actions of a token; a stale generation does nothing |
| `Engines.Engine.IsLive` | src/engine/mod.rs:593-600 | Whether the token's entry still waits |
| `Engines.Engine.StartTimers` | src/engine/mod.rs:608-624 | Prunes the scheduler, hands over the requests, forgets the refused ones and counts the Holds lost |
| `Engines.Engine.ForgetTimer` | src/engine/mod.rs:631-640 | What a refused timer removes |
| `Engines.Engine.Reset` | src/engine/mod.rs:744-763 | Every table emptied, keys and planner by reason, a new generation |
| `Engines.Engine.ResyncIfDue` | src/engine/mod.rs:670-677 | The drain: plan and read |
| `Engines.Engine.OnForegroundChanged` | src/engine/mod.rs:657-659 | Only the hiding count moves |
| `Engines.Engine.InputReturned` | src/engine/mod.rs:682-684 | Input is back and a read is due |
| `Engines.Engine.TrackInjected` | src/engine/mod.rs:693-696 | Modifier flag and fresh codes of an injected event |
| `EngineStates.NothingRefused` | src/engine/mod.rs:608-624 | A scheduler that accepts everything ends with the pruned queue and all requests in order |
| `Scenarios.Scenario.constructor` | src/engine/testing.rs:257-277 | A sorted file and nothing held |
| `Scenarios.Scenario.Start` | src/engine/testing.rs:257-280 | That, and one drain |
| `Scenarios.AlarmsAreViolations` | src/engine/testing.rs:904-955 | Each alarm of a key event is exactly a violation of its rule: lone key-up, menu mask, and press symmetry for a press with a note |
| `Scenarios.Scenario.KeyEvent` | src/engine/testing.rs:873-937 | The next world of a key event, and its three alarms read off the world before it |
| `Scenarios.Scenario.CheckPress` | src/engine/testing.rs:978-1001 | What the symmetry check remembers and reports |
| `Scenarios.Scenario.ReleaseUnseen` | src/engine/testing.rs:401-417 | The next world of a key-up the hook does not see |
| `Scenarios.Scenario.PressUnseen` | src/engine/testing.rs:438-459 | The next world of a key-down the hook does not see |
| `Scenarios.Scenario.DrainModifiers` | src/engine/testing.rs:483-487 | The main thread's drain, none while remapping is off |
| `Scenarios.Scenario.NoteHidden` | src/engine/testing.rs:475-478 | One more note and its drain |
| `Scenarios.Scenario.ForegroundChanges` | src/engine/testing.rs:491-503 | The next world of a foreground change |
| `Scenarios.Scenario.InputSignalled` | src/engine/testing.rs:541-559 | The next world of a lock, unlock or desktop switch |
| `Scenarios.Scenario.TurnOff` | src/engine/testing.rs:567-581 | The next world of remapping off |
| `Scenarios.Scenario.TurnOn` | src/engine/testing.rs:588-602 | The next world of remapping on |
| `Scenarios.Scenario.ReinstallHook` | src/engine/testing.rs:612-619 | The next world of a hook reinstall |
| `Scenarios.Scenario.ReloadBindings` | src/engine/testing.rs:337-348 | The next world of a reload |
| `Scenarios.Scenario.AdvanceMs` | src/engine/testing.rs:624-645 | The next world of an advance, and what its timers fired, in order |
| `Scenarios.Scenario.AdvanceStalledMs` | src/engine/testing.rs:651-656 | The next world of a clock that moves with no timer |
| `Scenarios.Scenario.LoseAllTimers` | src/engine/testing.rs:661-673 | The next world when every timer is lost and forgotten |
| `Scenarios.Scenario.DaemonInjected` | src/engine/testing.rs:848-861 | The next world of the daemon's own injected event |

## Left out

- Win32 hooks, the message loop, the executor, the clipboard, IPC, logging, the config watcher and `build.rs`: foreign calls and I/O.
- RON parsing, key names, `Display` and error texts: strings over finite tables; a warning is modelled as its binding index and hotkey.
- Wrap-around of the arming number, the generation and the hiding count: modelled as unbounded numbers.
- The bit layout of modifier sets: modelled as sets of codes; the order in which a loop reads them is the table's.
- How a condition compares strings with the focused window: each leaf is any predicate of its string, and a missing app or title is a predicate that is false.
- Actions: only `DoNothing` is told apart; every other action is a number.
- Generic modifier codes from other programs and events a later hook swallows, in the theorems about runs of the world: they break the coupling of a code with its key by design. The engine's own theorems (tokens, timers, gestures, drains) cover generic codes.
- Key-ups while remapping is off, and press symmetry after a lost key-up, a lock, a desktop switch, a hook reinstall or remapping off and on: documented exceptions.
- Duplicate chord or sequence bindings fed by one key-down: the histories are per key set or step list, not per binding.
- Loadable chords (at least two keys, none overlapping), step lists that are not empty and steps without duplicates are the loader's promise and are assumed where a theorem names them.
- The labels, step log and panics of the scripted world: its checks are results of `Scenario.KeyEvent` instead, and a step the script would reject is outside its precondition.
- The order in which the two runs of a late-timer comparison fire: the theorem equates how often each action fires, which is what a late timer can keep.
- `LateTimers.LateTimersChangeNoOutcome`: covers key codes of the key table, no reset and no refused timer, and takes the main thread's drains as given inputs of both runs, because a drain's place is part of what the script fixes.
- `KeyDowns.FirstKeyDown`: leaves files with a sequence or chord to `EngineMachines.FirstKeyDownByMachines`, because it speaks of the bindings alone.
- `MaskRule.ExactMenuMask`: its list of steps is sufficient and not necessary, because the exact condition is one on the records before each event and is stated there.
