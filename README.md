# Parrainage draw — a Dafny model

This project models the core of a small "parrainage" app, used to draw mentor/mentee pairs at a ceremony. Each draw pairs a first-year student (a *filleul*, mentee) with a second-year student (a *parrain*, mentor).

- A fixed table of three pairing rules says which class draws from which:
  - BTS 1 → BTS 2
  - LP 1 AGITEL → LP 2 AGITEL
  - LP 1 UPAF → LP 2 UPAF
- The ceremony always serves the first rule whose two pools are both non-empty.
- The two winners are pre-selected at random when the round starts.
- The round then runs:
  - a five-second countdown;
  - a shuffle of thirty cards for the mentee, locked on the pre-selected winner;
  - a pause and a transition;
  - a shuffle of fifty cards for the mentor, locked the same way;
  - a reveal and a handshake.
- On leaving the handshake, the pair is committed to the match log and both students are flagged as matched.
- Students are entered one at a time, or in bulk from a folder of photos. In bulk, each image file becomes a student whose name is derived from the file name.

The Dafny modules follow the source files:

| module (file) | models |
|---|---|
| `Types` (types.dfy) | the record shapes, the rule table and the seed roster of `types.ts` |
| `AppStore` (store.dfy) | the store of `store.tsx`: pools, the rule scan, add/remove/commit/reset. Pure functions over `StoreState`, plus the class `Store` whose methods are tied to them |
| `Ceremony` (ceremony.dfy) | the state machine of `components/CeremonyStage.tsx`: pure `Start`/`NextDraw`/`Reset`/`Tick` over a `Stage` of session and store, plus the class `CeremonyStage` with the component's state cells as fields |
| `CeremonyRuns` (ceremony_runs.dfy) | runs of button presses and timer events, the invariant every reachable stage keeps, a whole round end to end, and the finding |
| `Setup` (setup.dfy) | the single-add and folder-import handlers of `components/SetupPanel.tsx`: role inference, the file-name-to-name pipeline, the batch loop |

Time is abstract. A timer event is the firing of the next pending timer: a countdown second, a shuffle tick, or a pause. The component's effect runs synchronously after a change of state; that work is folded into the step that made the change. `Math.random` becomes index arguments, and `Date.now` becomes id and timestamp arguments. Ids are strings supplied by the caller. The name capitalisation follows JavaScript's `\b\w` without the unicode flag: word characters are ASCII letters, digits and `_`, so an accented letter never starts a word.

Where the code is less strict than a natural reading of the design, the model follows the code:
- adding students never rejects a duplicate id;
- `createMatch` looks both ids up but does not check whether either record is already matched;
- a commit whose ids are missing does nothing rather than failing.

## Model

| member | source | states |
|---|---|---|
| Types.PairingRulesInOrder | types.ts:36-40 | the rule table holds exactly the three rules BTS1→BTS2, LP1 AGITEL→LP2 AGITEL, LP1 UPAF→LP2 UPAF, in this order |
| Types.PairingRulesWellFormed | types.ts:36-40 | no rule pairs a class with itself, no class is the source of two rules, no class is both a source and a target |
| Types.EveryClassInARule | types.ts:6-13 | each of the six classes is the source or the target of some rule |
| Types.InitialStudentsUnmatchedAndUnique | types.ts:42-66 | the seed roster has twelve students, none matched, with pairwise distinct ids |
| Types.InitialStudentsRolesFollowRules | types.ts:42-66 | a seed student is a mentee exactly when its class is a rule source, and a mentor exactly when its class is a rule target |
| AppStore.Available | store.tsx:103-109 | a pool holds exactly the roster records of that class and role that are not matched, and is never longer than the roster |
| AppStore.AvailableAppend | store.tsx:103-109 | filtering distributes over concatenation, so pools keep roster order |
| AppStore.AvailableAllEligible | store.tsx:103-109 | a roster made only of eligible records is its own pool |
| AppStore.AddedStudentsJoinPoolsAtEnd | store.tsx:54-60 | after adding one record or a batch, every pool is the old pool followed by the added records that are eligible for it |
| AppStore.AvailableOfBlock | types.ts:42-66 | a block of unmatched records sharing one class and role lies wholly inside that pool and outside every other pool |
| AppStore.InitialPoolByBlock | types.ts:42-66 | a pool of the seed roster is the concatenation of that pool over the six class blocks |
| AppStore.InitialPoolSizeByBlock | types.ts:42-66 | the size of a seed pool is the sum of its sizes over the class blocks |
| AppStore.SeedBts1Pool | types.ts:43-46 | the BTS 1 block contributes three records to the BTS 1 mentee pool and none to any other pool |
| AppStore.SeedBts2Pool | types.ts:48-51 | the BTS 2 block contributes three records to the BTS 2 mentor pool only |
| AppStore.SeedLp1AgitelPool | types.ts:53-55 | the LP 1 AGITEL block contributes two records to the LP 1 AGITEL mentee pool only |
| AppStore.SeedLp2AgitelPool | types.ts:57-59 | the LP 2 AGITEL block contributes two records to the LP 2 AGITEL mentor pool only |
| AppStore.SeedLp1UpafPool | types.ts:61-62 | the LP 1 UPAF block contributes one record to the LP 1 UPAF mentee pool only |
| AppStore.SeedLp2UpafPool | types.ts:64-65 | the LP 2 UPAF block contributes one record to the LP 2 UPAF mentor pool only |
| AppStore.InitialFilleulsBts1 | types.ts:42-66 | the seed roster has three available BTS 1 mentees |
| AppStore.InitialParrainsBts2 | types.ts:42-66 | the seed roster has three available BTS 2 mentors |
| AppStore.InitialFilleulsLp1Agitel | types.ts:42-66 | the seed roster has two available LP 1 AGITEL mentees |
| AppStore.InitialParrainsLp2Agitel | types.ts:42-66 | the seed roster has two available LP 2 AGITEL mentors |
| AppStore.InitialFilleulsLp1Upaf | types.ts:42-66 | the seed roster has one available LP 1 UPAF mentee |
| AppStore.InitialParrainsLp2Upaf | types.ts:42-66 | the seed roster has one available LP 2 UPAF mentor |
| AppStore.InitialPoolsBalanced | types.ts:36-66 | for every rule, the seed roster has as many available mentees in the source class as mentors in the target class (3/3, 2/2, 1/1) |
| AppStore.RemoveById | store.tsx:62-64 | the roster after removal holds exactly the old records whose id differs from the removed one, and is never longer |
| AppStore.RemoveByIdAppend | store.tsx:62-64 | removal keeps the surviving records in their order |
| AppStore.RemoveAbsentIsNoOp | store.tsx:62-64 | removing an id that no record carries changes nothing |
| AppStore.FindIndex | store.tsx:67-68 | the lookup answers -1 exactly when no record has the id; otherwise it is the position of the first record with that id |
| AppStore.FindById | store.tsx:67-68 | the lookup finds a record exactly when one has the id, and what it finds is a roster record with that id |
| AppStore.MarkMatched | store.tsx:79-84 | flagging keeps length and ids, sets the flag of exactly the records carrying either id, and changes no other field |
| AppStore.CommitMatch | store.tsx:66-86 | a commit keeps the settings and the roster's length; with either id missing it changes nothing; with both present the log grows by one match at its end |
| AppStore.MarkedRecordLogged | store.tsx:79-84 | one record across a commit: its flag agrees with the log after the commit when it did before |
| AppStore.CommitMatchFound | store.tsx:66-86 | with both ids present, a commit appends exactly one match carrying the given id and timestamp and the first records with those ids; it flags exactly the records carrying either id, and changes no other field, record or setting |
| AppStore.CommitMatchMissing | store.tsx:70 | with either id absent, a commit changes nothing |
| AppStore.CommittedLeavePools | store.tsx:79-84 | after a commit, no record carrying either committed id is in any pool |
| AppStore.MarkMatchedTail | store.tsx:79-84 | flagging commutes with dropping the first record |
| AppStore.MarkMatchedShrinksPools | store.tsx:79-84 | flagging never grows a pool, and strictly shrinks every pool that held a record with a committed id |
| AppStore.CommitShrinksFilleulPool | store.tsx:66-86 | committing an available mentee strictly shrinks that mentee's pool, so draws cannot go on forever |
| AppStore.CommitKeepsLogConsistent | store.tsx:66-86 | if every record is matched exactly when some match names its id, a commit keeps that agreement between log and flags |
| AppStore.RemoveKeepsLogConsistent | store.tsx:62-64 | removing records keeps the log and the flags in agreement |
| AppStore.PossiblePairing | store.tsx:111-122 | the scan answers none exactly when no rule is open; an answer is a rule of the table that is open |
| AppStore.FirstOpenRule | store.tsx:111-122 | the scan from a rule index answers the least open rule at or after it, with that rule's classes; it answers none exactly when no rule from there on is open |
| AppStore.PossiblePairingIsLeastOpenRule | store.tsx:111-122 | the scan answers rule i exactly when rule i is open and no earlier rule is |
| AppStore.InitialPairingIsFirstRule | store.tsx:111-122 | on the seed roster, the first draw is for rule 0 (BTS 1 → BTS 2) |
| AppStore.Store.constructor | store.tsx:27-40 | each cell starts from its saved value when one exists; otherwise from the seed roster, an empty log and no logo |
| AppStore.Store.AddStudent | store.tsx:54-56 | the roster gains the record at its end; the log and the settings are unchanged |
| AppStore.Store.AddStudents | store.tsx:58-60 | the roster gains the batch, in order, at its end; the log and the settings are unchanged |
| AppStore.Store.RemoveStudent | store.tsx:62-64 | the roster becomes the removal of the id from the old roster; the log and the settings are unchanged |
| AppStore.Store.CreateMatch | store.tsx:66-86 | the new store state is the commit of the old one (see CommitMatchFound and CommitMatchMissing) |
| AppStore.Store.UpdateSettings | store.tsx:88-90 | a key supplied by the patch overwrites the setting; an absent key leaves it unchanged; roster and log are unchanged |
| AppStore.Store.ResetAll | store.tsx:92-101 | roster, log and settings return to the seed roster, an empty log and no logo |
| AppStore.Store.GetPossiblePairing | store.tsx:111-122 | the loop answers the least open rule, an open rule whenever it answers one, and none exactly when no rule is open |
| Ceremony.FirstAcceptable | components/CeremonyStage.tsx:97-100 | the resampling loop stops at the first drawn index that is in range and, for a pool of more than one card, shows a card different from the previous one |
| Ceremony.Pick | components/CeremonyStage.tsx:96-100 | a shuffle tick shows nothing exactly when the pool is empty; otherwise it shows a card of the pool, and with more than one candidate a card different from the `previous` argument passed in (which card the caller passes is decided by ShuffleStep) |
| Ceremony.ShufflePick | components/CeremonyStage.tsx:96-100 | the do-while loop computes that pick |
| Ceremony.Settle | components/CeremonyStage.tsx:81-90 | the effect's synchronous part moves only a finished countdown on, to the mentee selection; counter, pairing, pending timer, winners and shown cards are untouched |
| Ceremony.Start | components/CeremonyStage.tsx:34-54 | a start never touches the store or the shown cards, and with no open rule changes nothing |
| Ceremony.NextDraw | components/CeremonyStage.tsx:56-60 | the next draw leaves the store alone and both shown cards empty |
| Ceremony.Reset | components/CeremonyStage.tsx:167-173 | the reset lands idle with both winners and both shown cards cleared, keeps the store, and leaves the pending timer as it was |
| Ceremony.ShuffleStep | components/CeremonyStage.tsx:94-148 | corrected: one tick advances the counter and changes neither state, pool, pairing, countdown, winners nor the other side's card. Before the limit it shows a pool card, different from the card shown now when there is a choice. At the limit it shows the winner and schedules the pause |
| Ceremony.Tick | components/CeremonyStage.tsx:78-165 | a timer keeps the store, except the handshake's timer, which reaches finished; idle or finished with nothing pending, a timer changes nothing |
| Ceremony.CeremonyStage.constructor | components/CeremonyStage.tsx:21-29 | the ceremony starts idle, with a countdown of five, no pairing, no winners, no cards shown and no pending timer |
| Ceremony.CeremonyStage.HasNextPairing | components/CeremonyStage.tsx:62 | true exactly when some rule has both pools non-empty |
| Ceremony.CeremonyStage.StartCeremony | components/CeremonyStage.tsx:34-54 | the new stage is the start of a round from the old one (see CeremonyRuns.StartOutcome) |
| Ceremony.CeremonyStage.HandleNextDraw | components/CeremonyStage.tsx:56-60 | both shown cards are cleared, then a round starts |
| Ceremony.CeremonyStage.BeginRound | components/CeremonyStage.tsx:35-53 | the body of startCeremony yields the start of a round from the old stage |
| Ceremony.CeremonyStage.ResetCeremony | components/CeremonyStage.tsx:167-173 | the back-to-home button of the finished modal: back to idle with both winners and both shown cards cleared, the store untouched, and no timer cancelled |
| Ceremony.CeremonyStage.RunEffect | components/CeremonyStage.tsx:81-90 | a finished countdown moves to the mentee selection; a selection captures its side's current pool and resets its tick counter |
| Ceremony.CeremonyStage.ShuffleOnce | components/CeremonyStage.tsx:94-115 | corrected: one interval tick shows the pick against the card shown now, where the source compares with the card captured at set-up (see Findings); on the last tick it shows the winner and schedules the pause |
| Ceremony.CeremonyStage.FireTimer | components/CeremonyStage.tsx:78-165 | corrected: the next pending timer fires, with the effect of a tick on both the session and the store; a shuffle tick avoids the card shown now (see Findings) |
| CeremonyRuns.Step | components/CeremonyStage.tsx:34-173 | one event keeps the store, except a timer leaving the handshake for finished; a reset lands idle |
| CeremonyRuns.Run | components/CeremonyStage.tsx:34-173 | a run applies its events in order (its properties are RunAppend, RunFirst and the run lemmas below) |
| CeremonyRuns.InitialStageKeepsInv | components/CeremonyStage.tsx:21-29 | the first render satisfies the invariant, whatever the store holds |
| CeremonyRuns.StartOutcome | components/CeremonyStage.tsx:34-54 | with no open rule, a start changes nothing. With one, it records the pairing and pre-selects the drawn pool positions, each an available student of the right class and role. It starts a five-second countdown and leaves the store unchanged |
| CeremonyRuns.StepKeepsInv | components/CeremonyStage.tsx:34-173 | every allowed event keeps the invariant. A pending pause only follows a lock; a countdown has seconds left; a running shuffle has ticks left. Between start and commit both winners are still in their pools |
| CeremonyRuns.StartKeepsInv | components/CeremonyStage.tsx:34-54 | a start from an inactive stage keeps the invariant |
| CeremonyRuns.TickKeepsInv | components/CeremonyStage.tsx:78-165 | every timer firing keeps the invariant |
| CeremonyRuns.TimerFollowsPhaseOrder | components/CeremonyStage.tsx:78-165 | a timer never skips a phase: the state stays or moves to the next one in the round's order |
| CeremonyRuns.QuietTimerChangesNothing | components/CeremonyStage.tsx:78-165 | idle or finished with nothing pending, a timer changes nothing |
| CeremonyRuns.CountdownSecond | components/CeremonyStage.tsx:81-87 | a countdown second lowers the counter by one. At zero, the mentee selection begins with the source class's current pool as candidates, and the winners are untouched |
| CeremonyRuns.ShuffleTickShowsNewCard | components/CeremonyStage.tsx:94-103 | corrected: a non-final tick shows a candidate, different from the previous card when there is a choice. It advances the counter and changes nothing else |
| CeremonyRuns.ShuffleTickLocksWinner | components/CeremonyStage.tsx:104-113 | the final tick shows the pre-selected winner and schedules the pause |
| CeremonyRuns.RunAppend | components/CeremonyStage.tsx:78-165 | running a split event sequence is running its halves in turn |
| CeremonyRuns.AllTimersSlice | components/CeremonyStage.tsx:78-165 | a slice of a timers-only run is timers only |
| CeremonyRuns.CountdownRun | components/CeremonyStage.tsx:81-87 | a countdown of n takes exactly n firings to reach a fresh mentee shuffle over the source pool, with the winners and the store unchanged |
| CeremonyRuns.SelectionRun | components/CeremonyStage.tsx:89-149 | within a shuffle's remaining ticks, the shuffle keeps running with its counter advanced; after exactly that many it shows the winner and the pause is pending. State, winners and store are unchanged |
| CeremonyRuns.StoreChangesOnlyOnCommit | components/CeremonyStage.tsx:155-162 | only the handshake timer with both winners known touches the store, committing their ids and reaching finished |
| CeremonyRuns.CommitRecordsDrawnPair | components/CeremonyStage.tsx:155-162 | on a reachable stage the commit always finds both winners: one match with their ids is appended and both are flagged |
| CeremonyRuns.QuietRun | components/CeremonyStage.tsx:78-165 | without a start or next press, an idle or finished stage stays so, commits nothing and keeps the store |
| CeremonyRuns.AtMostOneCommitPerRound | components/CeremonyStage.tsx:155-162 | between two presses of start or next draw, at most one match is committed |
| CeremonyRuns.ResetEndsRound | components/CeremonyStage.tsx:167-173 | after a reset from the finished modal, until the next start, the ceremony stays idle and commits nothing |
| CeremonyRuns.RunFirst | components/CeremonyStage.tsx:78-165 | a run is its first event followed by the rest |
| CeremonyRuns.PauseEnds | components/CeremonyStage.tsx:110-113 | the pause after a lock fires and begins the state it was scheduled for |
| CeremonyRuns.TransitionEnds | components/CeremonyStage.tsx:118-120 | the transition's timer sets up a fresh mentor shuffle |
| CeremonyRuns.RevealEnds | components/CeremonyStage.tsx:151-153 | the reveal's timer starts the handshake |
| CeremonyRuns.MenteePhase | components/CeremonyStage.tsx:89-120 | thirty shuffle ticks, the pause and the transition take 32 firings and end in a fresh mentor selection of the same round |
| CeremonyRuns.MentorPhase | components/CeremonyStage.tsx:122-162 | fifty ticks, the pause, the reveal and the handshake take 53 firings, end finished, and commit the winners' ids |
| CeremonyRuns.CountdownToCommit | components/CeremonyStage.tsx:81-162 | from a fresh countdown, the round's 90 firings finish it with the winners' ids committed under the last firing's id and time |
| CeremonyRuns.SelectionsToCommit | components/CeremonyStage.tsx:89-162 | from a fresh mentee selection, the round's 85 remaining firings finish it with the winners committed |
| CeremonyRuns.StartBegins | components/CeremonyStage.tsx:34-54 | a start on an idle reachable stage with an open rule begins the countdown with the drawn winners, keeping the invariant |
| CeremonyRuns.RoundCommitsDrawnPair | components/CeremonyStage.tsx:34-165 | pressing start with an open rule, then 90 timer firings, ends finished with exactly the pre-selected pair committed |
| CeremonyRuns.ResetFromFinishedIsQuiet | components/CeremonyStage.tsx:167-173 | a reset from the finished state reaches an idle stage that keeps the invariant with nothing pending, on which a timer changes nothing |
| CeremonyRuns.DisplaysAsWritten | components/CeremonyStage.tsx:97-100 | as written: one shown card per tick, each compared with the card captured when the interval was set up |
| CeremonyRuns.AsWrittenShowsSameCardTwice | components/CeremonyStage.tsx:97-100 | as written: with two candidates and the same draw twice, the same card is shown twice in a row |
| CeremonyRuns.TickDraws | components/CeremonyStage.tsx:94-148 | the draws of a timers-only run, one list per firing, in order |
| CeremonyRuns.ShuffleRunShows | components/CeremonyStage.tsx:94-148 | corrected: within a shuffle's remaining ticks, the draws fit the chain of shown cards, and the card a run of ticks leaves shown is the last one of Displays over those draws |
| CeremonyRuns.Displays | components/CeremonyStage.tsx:94-102 | corrected: one shown card per tick, each compared with the card the previous tick showed |
| CeremonyRuns.DisplaysNeverRepeat | components/CeremonyStage.tsx:95-100 | corrected: with more than one candidate every card shown is a candidate, and no card is shown twice in a row, the first included |
| Setup.InferGroupType | components/SetupPanel.tsx:44-47 | a class is a mentor class exactly when it is BTS 2, LP 2 AGITEL or LP 2 UPAF |
| Setup.InferredRoleFollowsRules | components/SetupPanel.tsx:44-47 | the inferred role agrees with the rule table: mentor exactly for target classes, mentee exactly for source classes |
| Setup.NewStudent | components/SetupPanel.tsx:49-56 | the added record carries the clock id, the typed name, the chosen class, the inferred role and is not matched. Its photo is the uploaded one, or the placeholder URL when none was uploaded |
| Setup.LastIndexOf | components/SetupPanel.tsx:86 | -1 exactly when the character is absent; otherwise a position holding it with none after |
| Setup.StripExtension | components/SetupPanel.tsx:86 | the name is kept whole exactly when it has no dot past its first character. Otherwise the result is the non-empty prefix ending just before the last dot |
| Setup.StripExtensionOfBaseAndExtension | components/SetupPanel.tsx:86 | a non-empty base joined to a dot-free extension strips back to the base |
| Setup.ReplaceSeparators | components/SetupPanel.tsx:88 | same length; every hyphen and underscore becomes a space, every other character is kept, and none of either remains |
| Setup.LeadingSpace | components/SetupPanel.tsx:90 | counts the white-space characters the name starts with, stopping at the first other one |
| Setup.TrailingSpace | components/SetupPanel.tsx:90 | counts the white-space characters the name ends with, stopping at the last other one |
| Setup.Trim | components/SetupPanel.tsx:90 | trimming never lengthens the name, and a non-empty result starts and ends with a non-white-space character |
| Setup.TrimIsCleanSlice | components/SetupPanel.tsx:90 | the trimmed name is a slice of the input with only white space cut on either side, and it neither starts nor ends with white space |
| Setup.TrimIdempotent | components/SetupPanel.tsx:90 | trimming twice is trimming once |
| Setup.ToUpper | components/SetupPanel.tsx:92 | upper-casing a word character changes exactly the ASCII lower-case letters, each to its capital |
| Setup.CapitalizeAfter | components/SetupPanel.tsx:92 | the left-to-right capitalisation scan keeps the length |
| Setup.CapitalizeAfterAt | components/SetupPanel.tsx:92 | the scan puts at each position the character upper-cased exactly when it starts a word |
| Setup.Capitalize | components/SetupPanel.tsx:92 | keeps the length and upper-cases exactly the word characters at a word boundary |
| Setup.CapitalizeEffect | components/SetupPanel.tsx:92 | changes only ASCII lower-case letters, keeps which characters are word characters, and leaves no word starting with a lower-case letter |
| Setup.CapitalizeIdempotent | components/SetupPanel.tsx:92 | capitalising twice is capitalising once |
| Setup.TrimKeepsAbsentChar | components/SetupPanel.tsx:90 | trimming adds no character that was absent |
| Setup.CapitalizeKeepsSeparatorsAndEdges | components/SetupPanel.tsx:92 | capitalisation adds no hyphen or underscore, and changes an end character only if it was a lower-case letter |
| Setup.DeriveName | components/SetupPanel.tsx:84-92 | the derived name is never longer than the file name |
| Setup.DerivedNameIsClean | components/SetupPanel.tsx:84-92 | a derived name has no hyphen or underscore, no white space at either end, and no word starting with a lower-case ASCII letter |
| Setup.BatchStudent | components/SetupPanel.tsx:94-101 | an imported student carries the given id, the name derived from the file name, the file's data as photo, the batch class and its inferred role, and is not matched |
| Setup.IsImage | components/SetupPanel.tsx:78 | a file is imported exactly when its MIME type starts with `image/` |
| Setup.BuildBatch | components/SetupPanel.tsx:76-108 | the batch is the files' contributions concatenated in file order (its properties are BatchShape and BuildBatchAppend) |
| Setup.Zip | components/SetupPanel.tsx:76-108 | pairing files with ids keeps the number of files |
| Setup.ZipAppend | components/SetupPanel.tsx:76-108 | pairing distributes over concatenation |
| Setup.ConcatAppend | components/SetupPanel.tsx:76-108 | flattening distributes over concatenation |
| Setup.BuildBatchAppend | components/SetupPanel.tsx:76-108 | importing two lists of files is importing each in turn |
| Setup.BuildBatchSingle | components/SetupPanel.tsx:78-107 | a single file contributes its student when it is an image, and nothing otherwise |
| Setup.BatchShape | components/SetupPanel.tsx:70-108 | a batch holds one student per image file, each of the batch class and its inferred role, and not matched |
| Setup.BuildBatchStep | components/SetupPanel.tsx:76-108 | the batch of one more file is the old batch followed by that file's student when it is an image |
| Setup.ProcessFiles | components/SetupPanel.tsx:76-108 | the loop builds exactly the batch: the image files' students in file order, non-images skipped |
| Setup.SetupPanel.constructor | components/SetupPanel.tsx:10-15 | the form starts empty, with BTS 1 chosen for both single add and import |
| Setup.SetupPanel.HandleAdd | components/SetupPanel.tsx:40-61 | with no name, nothing changes. Otherwise exactly one new record is appended to the roster, and the name and photo fields are cleared. The class choices are kept either way |
| Setup.SetupPanel.HandleBatchUpload | components/SetupPanel.tsx:63-110 | with no files, nothing changes. Otherwise the roster gains the batch built from the files for the chosen class, in one append |

## Left out

- Persistence to `localStorage`, store.tsx:42-52 and 97-99: it is browser I/O. The saved values are the parameters of `AppStore.Store.constructor`, so a corrupt snapshot (a JSON parse error) is not modelled.
- The `window.confirm` prompt in `resetAll`: user I/O. Only the confirmed branch is modelled.
- `FileReader`, promises and `await` in the batch import: asynchronous I/O. Each file is modelled as its name, MIME type and data URL.
- `handlePhotoUpload` and `handleLogoUpload` (components/SetupPanel.tsx:18-38): their only effect beyond file reading is a field update or `updateSettings`, which is modelled.
- `Date.now` and `Math.random`: they become id, timestamp and index arguments. The batch id's base-36 suffix is part of the id argument.
- Timer durations (1000, 100, 1500, 3000, 1000, 1500 and 2500 ms): only the order in which the timers fire is modelled.
- Flash effects, confetti, animations, the logo, the results view, `alert`, `isImporting` and the input reset: presentation only.
- App.tsx view switching and unmounting: not modelled. The effect's clean-up (components/CeremonyStage.tsx:164) clears only the timer of the current state. The shuffle interval is that timer, but the pause it schedules on its last tick (lines 110-113 and 142-146) is not tracked, so it would still fire after an unmount. In the model a pause is pending only in a shuffle state, where no button is shown, so no modelled event meets it.
- Ceremony.Pick: compares cards by value, while the source compares record objects by identity. They differ when a pool holds two records equal in every field, which the store allows since adding students never rejects a duplicate id. With one of them shown, the source's loop stops on the other, but no draws meet `DrawsFit` and the model's tick cannot be taken. When records differ in some field, the two comparisons agree.
- Ceremony.Tick: when a round's pairing is missing in a selection state, the source starts no interval; the model's timer then does nothing. The invariant shows this cannot happen on a reachable stage.
- Ceremony.ShuffleStep: avoids the card shown now. The source's interval compares each pick with the card captured when the interval was set up, which is always none, so the source can show the same card twice in a row (Findings).
- Ceremony.CeremonyStage.ShuffleOnce: follows ShuffleStep's corrected comparison, not the source's comparison with the captured card (Findings).
- Ceremony.CeremonyStage.FireTimer: a shuffle firing follows ShuffleStep's corrected comparison, not the source's comparison with the captured card (Findings).
- CeremonyRuns.ShuffleTickShowsNewCard: "different from the previous card" holds of the corrected tick only. The as-written tick is CeremonyRuns.DisplaysAsWritten, and CeremonyRuns.AsWrittenShowsSameCardTwice shows it can repeat a card.
- CeremonyRuns.ShuffleRunShows: states the corrected chain of shown cards (CeremonyRuns.Displays), for the same reason.
- Setup.IsJsWhitespace: the white-space set of `trim` is written out as a fixed list of code points, not derived from Unicode data.
- The other controls of the set-up panel (components/SetupPanel.tsx:128-269): the remove button, the reset button and the form inputs only call `removeStudent`, `resetAll` or a field setter, which are modelled above. The grouped student list is presentation.

## Findings

| source | as written | input that shows it | evidently intended | confidence | as-written member | corrected member |
|---|---|---|---|---|---|---|
| components/CeremonyStage.tsx:97-100 (and 129-132) | the resampling loop compares each pick with the card captured when the interval was set up; that card is always empty then (first render, reset and next draw all clear it) | a pool of two candidates and two ticks that both draw index 0: the same card is shown twice in a row | each tick compares with the card the previous tick showed, so the display visibly changes | not executed | CeremonyRuns.AsWrittenShowsSameCardTwice | CeremonyRuns.DisplaysNeverRepeat |
