# A verified model of the Anki-style flashcard trainer

The trainer is a single web page. The user types a word list, one card per
line: `question | answer | answer ...`. The page keeps a store of cards keyed
by question, each with an SM-2 schedule (repetitions, ease factor, interval in
minutes, next review date), a suspended flag, a star and a mistake count. A
*smart review* session takes the due cards; a *cram* session takes every card
that is not suspended. A session queues one session card per chosen card. A
correct answer raises its streak and takes it out of the queue, putting it
back at the end while the streak is short. A wrong answer raises the streak
the card needs by a penalty. In a review session, outside a replay, the
long-term schedule of a card is updated on every correct answer once the
session streak is at least the required streak of the settings, and on
every wrong answer. The summary at the end counts one more
lapse for every card answered wrongly. Around the session sit the review
screen's buttons (redo, skip, suspend, finish round, star), the card editor,
the settings modal, word-list export and import, database import, the
statistics under the word list and the card list with its tabs and sortable
columns.

The model is written in Dafny, one module per file:

- `Text`, `Seqs`, `Sorting`, `OrderedMap`, `Wrappers`: the JavaScript string,
  array and `Map` operations the trainer relies on.
  - `trim`, `split`, `join`, and the normalisation that strips whitespace,
    punctuation and symbols and lower-cases.
  - `filter`, and a stable sort by comparator.
  - A map that keeps insertion order.
- `WordList`: how a line of the word list is parsed, deleted and rewritten.
- `EditDistance`, `Highlight`, `ScriptType`, `Shuffle`: `src/utils/algorithms.js`.
  - The edit-distance table is an `array2` filled by loops.
  - The backtrack and the two markup loops are methods proved equal to
    recursive specification functions.
  - The Fisher–Yates shuffle works in place on an `array`.
- `Settings`, `Scheduler`: the settings record, with its interval objects as
  classes, and the SM-2 update.
- `CardManager`: the card store (`src/core/cardManager.js`) as class
  `CardStore`. It has a `cards` map and the `review_history` table as a list.
  Each method is proved to end in the store a function computes.
- `ReviewSession`, `GameFlow`, `SessionLaws`: the session engine
  (`src/core/gameFlow.js`).
  - `GameFlow.State` is the page's `state` object. Its methods update its
    fields and the store in place.
  - `ReviewSession` gives, as pure functions on a snapshot `Session`, the
    state each method ends in.
  - `SessionLaws` proves what those functions promise.
  - Session cards are held in a table `objs` indexed by object identity. The
    queue, the card on display, the incorrect list and the review-again pile
    hold indices into it. This way two entries are the same JavaScript
    object exactly when they hold the same index.
- `EventHandlers`, `SettingsModal`: the handlers of `src/events/eventHandlers.js`.
- `FileOperations`: export and database import (`src/io/fileOperations.js`).
- `UiHelpers`: the statistics, the status order, the card list's sorting,
  tabs and interval display (`src/ui/uiHelpers.js`).
- `App`: the default settings, the settings load and the initial language
  (`script.js`).

Time is a whole number of minutes, passed in as `now`. An operation that
reads the clock more than once reads it once here. Ease factors are `real`.
`parseInt` gives an `Option<int>`, where `None` stands for `NaN`.
`Math.random` is a parameter `random: nat -> real` with values in `[0, 1)`.
`localeCompare`, the known translations and the SQL engine's answers are
parameters too.

## Model

| member | source | states |
|---|---|---|
| EditDistance.EditDistanceTable | src/utils/algorithms.js:9-26 | every cell of the filled table is the edit distance of the two prefixes |
| EditDistance.InitTable | src/utils/algorithms.js:14-15 | the first column holds 0..m and the first row 0..n |
| EditDistance.FillRow | src/utils/algorithms.js:16-25 | filling row i makes rows 0..i correct and leaves every other row unchanged |
| EditDistance.CalculateEditDistance | src/utils/algorithms.js:9-28 | returns the edit distance, which lies between the length difference and the longer length |
| EditDistance.Min3 | src/utils/algorithms.js:21 | the minimum of three is one of them and at most each |
| EditDistance.DistAtBounds | src/utils/algorithms.js:19-22 | every table cell lies between the index difference and the larger index |
| EditDistance.DistEmpty | src/utils/algorithms.js:14-15 | the distance to the empty string is the length |
| EditDistance.DistSelf | src/utils/algorithms.js:19-20 | a string is at distance 0 from itself |
| EditDistance.DistAtSymmetric | src/utils/algorithms.js:19-22 | every table cell equals the transposed cell of the swapped table |
| EditDistance.DistSymmetric | src/utils/algorithms.js:9-28 | the distance is symmetric |
| EditDistance.DistAtZero | src/utils/algorithms.js:19-22 | a cell is 0 only on the diagonal with equal prefixes |
| EditDistance.DistZero | src/utils/algorithms.js:9-28 | the distance is 0 exactly when the strings are equal |
| Text.NormalizeChar | src/utils/algorithms.js:104 | a character normalises to itself lower-cased when it is kept, else to nothing |
| Text.NormalizeIdempotent | src/utils/algorithms.js:38-39 | normalising twice is normalising once |
| Text.NormalizeLength | src/utils/algorithms.js:38-39 | lower-casing keeps the length of the stripped string |
| Text.TrimStart | src/core/cardManager.js:45-46 | drops exactly the leading whitespace: the result is a suffix, starts with a non-space, and everything dropped is whitespace |
| Text.TrimEnd | src/core/cardManager.js:45-46 | drops exactly the trailing whitespace |
| Text.Trim | src/core/cardManager.js:45-46 | the result has no whitespace at either end |
| Text.TrimEmpty | src/core/cardManager.js:43 | a string trims to empty exactly when it is all whitespace |
| Text.Split | src/core/cardManager.js:45 | at least one field, and no field contains the separator |
| Text.SplitJoin | src/io/fileOperations.js:40-41 | splitting the join of separator-free fields gives the fields back |
| Text.JoinSplit | src/events/eventHandlers.js:403-414 | joining the fields of a split gives the string back |
| WordList.ParseLine | src/core/cardManager.js:42-47 | a line defines a card exactly when it is not blank, not a comment, and has at least two non-empty trimmed fields, which are the card's answers |
| WordList.Fields | src/core/cardManager.js:45-46 | every field is non-empty, trimmed and free of `\|` |
| WordList.ListedQuestions | src/core/gameFlow.js:71-77 | at most one question per line of the trimmed list |
| WordList.DeleteLinesSpec | src/core/cardManager.js:245-251 | deleting keeps exactly the lines that are comments or whose first field is not the question |
| WordList.RewriteLinesSpec | src/events/eventHandlers.js:402-414 | the rewrite replaces exactly the non-comment lines whose first field is the old question by the joined new answers |
| WordList.ParseJoinedLine | src/io/fileOperations.js:40 | a line joined from clean fields parses back to those fields, with the first as question |
| WordList.JoinedFieldsReadBack | src/events/eventHandlers.js:410 | answers joined with ` \| ` parse back to the answers |
| WordList.RewrittenLinesParse | src/events/eventHandlers.js:402-414 | after a rewrite every rewritten line parses to the new answers and every other line is unchanged |
| Highlight.Step | src/utils/algorithms.js:70-93 | the backtrack's choice: match exactly when both characters are equal; only `missing` keeps the user index, only `extra` keeps the correct index |
| Highlight.Align | src/utils/algorithms.js:66-94 | the two alignment sides have the same length |
| Highlight.AlignKinds | src/utils/algorithms.js:73-91 | both sides carry the same kind at every position |
| Highlight.AlignSpellUser | src/utils/algorithms.js:73-91 | the user side spells the normalised user answer |
| Highlight.AlignSpellCorrect | src/utils/algorithms.js:73-91 | the correct side spells the normalised correct answer |
| Highlight.AlignCounts | src/utils/algorithms.js:73-91 | the user side has one non-`missing` entry per user character; the correct side has one non-`extra` entry per correct character |
| Highlight.AlignCost | src/utils/algorithms.js:66-94 | the alignment has exactly as many mismatches as the edit distance: it is a cheapest alignment |
| Highlight.TableStep | src/utils/algorithms.js:71-93 | the step read from the table equals the specified step |
| Highlight.Backtrack | src/utils/algorithms.js:65-94 | the backtrack loop builds the specified alignment |
| Highlight.UserMarks | src/utils/algorithms.js:96-128 | the user-side markup; `UserMarksChars` and `UserMarksStyles` state it |
| Highlight.CorrectMarks | src/utils/algorithms.js:130-173 | the correct-side markup; `CorrectMarksChars`, `CorrectMarksAsterisks` and `CorrectMarksStyles` state it |
| Highlight.UserMarksChars | src/utils/algorithms.js:97-128 | the user markup shows every character of the answer, in order |
| Highlight.UserMarksStyles | src/utils/algorithms.js:115-126 | the kept characters are styled, in order, by the non-`missing` kinds |
| Highlight.CorrectMarksChars | src/utils/algorithms.js:131-162 | the correct markup shows every character of the answer, in order |
| Highlight.CorrectMarksAsterisks | src/utils/algorithms.js:145-149 | one `*` per `extra` position |
| Highlight.CorrectMarksStyles | src/utils/algorithms.js:151-160 | the kept characters are styled by the non-`extra` kinds |
| Highlight.CorrectMarksShape | src/utils/algorithms.js:131-173 | the three facts above together, when the counts match |
| Highlight.SkipMissing | src/utils/algorithms.js:111-113 | the skip loop stops at the first non-`missing` entry without changing the markup still to come |
| Highlight.BuildUserMarks | src/utils/algorithms.js:97-128 | the user markup loop computes the specified markup |
| Highlight.EmitExtras | src/utils/algorithms.js:146-149 | the asterisk loop stops at the first non-`extra` entry, and the output so far plus the markup still to come is unchanged |
| Highlight.BuildCorrectMarks | src/utils/algorithms.js:131-173 | the correct markup loop, trailing asterisks included, computes the specified markup |
| Highlight.HighlightAnswerDifferences | src/utils/algorithms.js:36-179 | both answers are shown in full; the alignment is a cheapest one; the styles and asterisks follow it |
| Highlight.AlignSame | src/utils/algorithms.js:71-76 | a string aligned with itself matches everywhere |
| Highlight.HighlightEqual | src/utils/algorithms.js:36-179 | answers equal after normalisation are marked all correct with no `*` |
| ScriptType.TypeOf | src/utils/algorithms.js:186-215 | the classification; `TypeOfStripped`, `TypeOfAppend`, `TieIsCjk`, `AllRomaji` and `AllCjk` state it |
| ScriptType.DetectStringType | src/utils/algorithms.js:186-215 | the counting loop returns the type of the specification: romaji exactly when strictly more Latin letters than CJK characters |
| ScriptType.TypeOfStripped | src/utils/algorithms.js:188 | stripping punctuation first does not change the type |
| ScriptType.TypeOfAppend | src/utils/algorithms.js:194-214 | two strings of the same type concatenate to that type |
| ScriptType.TieIsCjk | src/utils/algorithms.js:214 | a non-empty tie is classed CJK |
| ScriptType.AllRomaji | src/utils/algorithms.js:190-214 | a string of Latin letters only, or empty after stripping, is romaji |
| ScriptType.AllCjk | src/utils/algorithms.js:206-214 | a non-empty string of CJK characters only is CJK |
| Shuffle.FisherYates | src/utils/algorithms.js:221-226 | the shuffle as a value; `FisherYatesPermutes`, `FisherYatesKeepsTail` and `FisherYatesIdentity` state it |
| Shuffle.PickIndex | src/utils/algorithms.js:223 | `floor(random * (i + 1))` is at most i |
| Shuffle.Swap | src/utils/algorithms.js:224 | exchanges two positions and keeps the others |
| Shuffle.SwapPermutes | src/utils/algorithms.js:224 | a swap is a permutation |
| Shuffle.FisherYatesPermutes | src/utils/algorithms.js:221-226 | the shuffle keeps the length and is a permutation |
| Shuffle.FisherYatesKeepsTail | src/utils/algorithms.js:222 | positions past the current index are never touched again |
| Shuffle.FisherYatesIdentity | src/utils/algorithms.js:221-226 | when every draw picks its own index the order is unchanged |
| Shuffle.Shuffle | src/utils/algorithms.js:221-226 | the in-place loop computes the specified shuffle, a permutation of the array |
| Settings.IntervalMinutes | src/core/cardManager.js:160-165 | days count 1440 minutes, hours 60, any other unit 1 |
| Settings.UnitsAgree | src/core/cardManager.js:160-165 | a day is 24 hours and an hour 60 minutes |
| Settings.OrDefault | src/events/eventHandlers.js:533-540 | `parseInt(x) \|\| d` gives d exactly when x is NaN or 0 (or d itself), else x |
| Settings.SettingsRecord.Value | script.js:160-166 | the record's value is its fields and its three interval objects |
| Settings.IntervalBox.constructor | script.js:103-105 | an interval object holding the given value and unit |
| Settings.SettingsRecord.constructor | script.js:154-167 | a record with the given value and three fresh, distinct interval objects |
| Scheduler.NewCard | src/core/cardManager.js:58-68 | a new card: question first answer, no repetitions, ease 2.5, interval 0, due now, no mistakes, flags as given |
| Scheduler.Sm2Qualities | src/core/cardManager.js:167-184 | qualities 5 and 1 move the ease by +0.1 and −0.54 |
| Scheduler.EaseFloor | src/core/cardManager.js:182-190 | the ease never drops below 1.3 |
| Scheduler.EaseWithoutPenalty | src/core/cardManager.js:182-184 | without the mistake penalty the ease moves by +0.1 or −0.54, floored |
| Scheduler.EasePenaltyBounded | src/core/cardManager.js:186-190 | the extra lapse penalty takes at most 0.3 and never adds |
| Scheduler.EaseDirection | src/core/cardManager.js:182-190 | from a valid ease a correct answer raises it and a wrong one never does |
| Scheduler.Ceil | src/core/cardManager.js:174 | `Math.ceil`: the least integer not below x |
| Scheduler.IntervalGrows | src/core/cardManager.js:172-175 | past the second repetition the interval grows by at least the ease, so at least 30% |
| Scheduler.ReviewedFields | src/core/cardManager.js:156-201 | a review changes only the schedule and the counters, with the first, second and lapse intervals of the settings |
| Scheduler.ReviewedDue | src/core/cardManager.js:192-194 | after a wrong answer a card is due at once; after a correct one exactly from its new date |
| Scheduler.DueOrderIsComparator | src/core/cardManager.js:145-149 | the due-card comparator is a total preorder |
| Scheduler.DueCardsSelect | src/core/cardManager.js:140-144 | the due cards are exactly the stored cards that are not suspended and are scheduled or new |
| Scheduler.DueCardsOrder | src/core/cardManager.js:145-149 | most mistakes first, then the lower ease |
| Scheduler.ActiveCardsSelect | src/core/cardManager.js:152-154 | the active cards are exactly the unsuspended stored cards |
| Scheduler.DueCardsActive | src/core/cardManager.js:140-154 | every due card is active |
| Scheduler.NewEase | src/core/cardManager.js:182-190 | the SM-2 ease after a review with the lapse penalty; its properties are stated by `Sm2Qualities`, `EaseFloor`, `EaseWithoutPenalty`, `EasePenaltyBounded` and `EaseDirection` |
| Scheduler.NextInterval | src/core/cardManager.js:167-180 | the interval after a review: first, second, then ceil(interval × ease), lapse on a wrong answer; see `IntervalGrows` and `FirstReview` |
| Scheduler.Reviewed | src/core/cardManager.js:156-201 | the card after `update`; `ReviewedFields`, `ReviewedDue` and `FirstReview` state what changes |
| Scheduler.DueCards | src/core/cardManager.js:140-150 | `getDueCards`; `DueCardsSelect` and `DueCardsOrder` state the selection and order |
| Scheduler.ActiveCards | src/core/cardManager.js:152-154 | `getAllActiveCards`; `ActiveCardsSelect` and `DueCardsActive` state its contents |
| Scheduler.FirstReview | src/core/cardManager.js:156-201 | a new card answered right waits a day at ease 2.6; answered wrong it waits 10 minutes at ease 1.96 |
| Sorting.SortBySorted | src/core/cardManager.js:145-149 | sorting by a comparator yields a sorted permutation |
| Sorting.SortByNeutral | src/core/cardManager.js:145-149 | a sort is stable: when the comparator ties everything the order stays |
| CardManager.LoadRows | src/core/cardManager.js:12-25 | the store after `load`; `LoadRowsKeys` and `LoadRowsLastWins` state its keys and values |
| CardManager.SyncAll | src/core/cardManager.js:44-70 | the store after the sync loop; `SyncPreservesSchedules`, `SyncKeys` and `SyncLastWins` state its effect |
| CardManager.ImportAll | src/core/cardManager.js:94-136 | the store and count after the import loop; `ImportNeverClears` and `ImportCount` state its effect |
| CardManager.CardOfRow | src/core/cardManager.js:13-23 | a flag is set only by the integer 1; a null mistake count reads as 0 |
| CardManager.LoadRowsKeys | src/core/cardManager.js:12-25 | the loaded keys are exactly the questions of the rows |
| CardManager.LoadRowsLastWins | src/core/cardManager.js:24 | a question stores the card of its last row |
| CardManager.SyncParsedEffect | src/core/cardManager.js:42-70 | one synced line replaces the answers of an existing card or adds a fresh card due now; a skipped line changes nothing |
| CardManager.SyncPreservesSchedules | src/core/cardManager.js:30-77 | a sync never touches a schedule, flag or mistake count, and adds only fresh cards |
| CardManager.SyncKeys | src/core/cardManager.js:30-77 | after a sync the questions are the old ones plus those of the parsed lines |
| CardManager.SyncLastWins | src/core/cardManager.js:54-56 | a question takes the answers of the last line defining it |
| CardManager.ImportParsedEffect | src/core/cardManager.js:95-125 | one imported line adds a fresh card with the context's flags, or only adds the flags to an existing card; it counts exactly the new questions |
| CardManager.ImportNeverClears | src/core/cardManager.js:79-138 | an import never clears a flag and never changes answers or schedule |
| CardManager.ImportCount | src/core/cardManager.js:137 | the returned count is the number of questions added |
| CardManager.StarToggledTwice | src/core/cardManager.js:226-234 | starring twice gives the store back |
| CardManager.RestoreDue | src/core/cardManager.js:214-224 | a restored card is due at once, whether or not it was suspended first |
| CardManager.SuspendedInactive | src/core/cardManager.js:203-212 | a suspended card is neither active nor due |
| CardManager.AfterReviewLocal | src/core/cardManager.js:156-201 | a review keeps the order of questions and every other card |
| CardManager.CardStore.constructor | src/core/cardManager.js:3 | the store starts empty with no history |
| CardManager.CardStore.Load | src/core/cardManager.js:7-28 | the store becomes the map loaded from the rows |
| CardManager.CardStore.SyncFromTextarea | src/core/cardManager.js:30-77 | the store becomes the synced store of the trimmed list; a blank list changes nothing |
| CardManager.CardStore.SyncLinesInPlace | src/core/cardManager.js:44-70 | the line loop applies every parsed line in order |
| CardManager.CardStore.SyncLineInPlace | src/core/cardManager.js:44-70 | the loop body for one parsed line |
| CardManager.CardStore.ImportFromText | src/core/cardManager.js:79-138 | empty text changes nothing and returns 0; otherwise the store and count of the specified import |
| CardManager.CardStore.ImportLinesInPlace | src/core/cardManager.js:94-136 | the line loop imports and counts every parsed line in order |
| CardManager.CardStore.ImportNext | src/core/cardManager.js:94-136 | one turn of the import loop |
| CardManager.CardStore.ImportLineInPlace | src/core/cardManager.js:95-125 | the loop body for one parsed line |
| CardManager.CardStore.Update | src/core/cardManager.js:156-201 | the stored card is replaced by its reviewed version |
| CardManager.CardStore.Suspend | src/core/cardManager.js:203-212 | the card is suspended |
| CardManager.CardStore.Restore | src/core/cardManager.js:214-224 | the card is unsuspended and due now |
| CardManager.CardStore.ToggleStar | src/core/cardManager.js:226-234 | the card's star flips |
| CardManager.CardStore.DeleteCard | src/core/cardManager.js:236-262 | the card, its history and its lines go; an absent question changes nothing |
| CardManager.CardStore.AddReviewHistory | src/database/dbManager.js:133-144 | appends one entry with the card's interval and ease, an ease of 0 recorded as 2.5 |
| ReviewSession.SmartReviewCards | src/core/gameFlow.js:65-86 | the cards of a smart review; `SessionLaws.SmartReviewCardsSelect` states which |
| ReviewSession.CramCards | src/core/gameFlow.js:88-114 | the cards of a cram session; `SessionLaws.CramCardsSelect` and `CramCardsListed` state which and in what order |
| ReviewSession.Started | src/core/gameFlow.js:23-63 | the session `startSession` leaves; `SessionLaws.StartedQueue` and `StartedCoherent` state it |
| ReviewSession.Displayed | src/core/gameFlow.js:142-166 | `displayNextCard`; `EventHandlers.DisplayedKeeps` states its frame |
| ReviewSession.Summarized | src/core/gameFlow.js:168-194 | `showSummary`; `SessionLaws.SummaryRelapses` and `EventHandlers.SummarizedShape` state it |
| ReviewSession.Relapse | src/core/gameFlow.js:172-179 | the store after the relapse loop; `SessionLaws.RelapseEffect` states it |
| ReviewSession.Checked | src/core/gameFlow.js:196-284 | `checkAnswer`; `SessionLaws.CheckedIgnored`, `CheckedCorrect`, `CheckedWrong`, `CheckedCorrectQueue` and `CheckedCoherent` state it |
| ReviewSession.RemoveFirst | src/core/gameFlow.js:240-241 | `findIndex` and `splice`; `SessionLaws.RemoveFirstSpec` states it |
| ReviewSession.Requeued | src/core/gameFlow.js:240-247 | the requeue of a correct answer; `SessionLaws.RequeueMentions` states it |
| ReviewSession.CorrectHandled | src/core/gameFlow.js:314-334 | `handleCorrectAnswer`; `SessionLaws.CheckedCorrect` states its effect |
| ReviewSession.IncorrectHandled | src/core/gameFlow.js:395-412 | `handleIncorrectAnswer` without the closest answer; `SessionLaws.IncorrectHandledEffect` and `CheckedWrongRecorded` state it |
| ReviewSession.FindQuestion | src/core/gameFlow.js:240-241 | `findIndex`: the first queued index with the question, or −1 when none |
| ReviewSession.IndexIn | src/core/gameFlow.js:105 | `indexOf`: the first position of x, or −1 |
| ReviewSession.Entered | src/core/gameFlow.js:32-39 | one session card per chosen card with streak 0, the required streak of the settings, not attempted |
| ReviewSession.NewStreak | src/core/gameFlow.js:227-232 | a replay keeps the streak; otherwise it grows by one up to the required streak |
| ReviewSession.NormalizedAll | src/core/gameFlow.js:222 | every accepted answer normalised |
| ReviewSession.CandidatesAre | src/core/gameFlow.js:340-360 | the candidates are alternates of the same script type when there is one, else all alternates |
| ReviewSession.FirstClosestStep | src/core/gameFlow.js:362-381 | one step of the search keeps the first closest candidate |
| ReviewSession.IncorrectHandledWf | src/core/gameFlow.js:336-413 | handling a wrong answer keeps the session well formed |
| GameFlow.PickClosest | src/core/gameFlow.js:362-381 | the search loop returns the first candidate at minimal edit distance |
| GameFlow.ClosestAnswer | src/core/gameFlow.js:340-381 | the closest answer is an alternate, of the user's script type when one exists |
| GameFlow.SameTypeAnswers | src/core/gameFlow.js:343-350 | the alternates of the user's script type, in order |
| GameFlow.State.constructor | script.js:86-111 | the initial `state`: empty session, no flags, no card on display |
| GameFlow.State.StartSession | src/core/gameFlow.js:23-63 | the state becomes the started session on the (possibly shuffled) cards |
| GameFlow.State.EnterCards | src/core/gameFlow.js:32-39 | one fresh session card per chosen card is queued |
| GameFlow.State.ResetRound | src/core/gameFlow.js:40-47 | counters, lists and flags of the round are reset |
| GameFlow.State.StartSmartReview | src/core/gameFlow.js:65-86 | sync, then a session on the due cards in scope |
| GameFlow.State.StartCramSession | src/core/gameFlow.js:88-114 | sync, then a session on the active cards in scope, in list order unless random |
| GameFlow.State.Sync | src/core/gameFlow.js:66-67 | sets the mode and syncs the store from the word list |
| GameFlow.State.RemainingCards | src/core/gameFlow.js:133-140 | the number of distinct questions queued |
| GameFlow.State.DisplayNextCard | src/core/gameFlow.js:142-166 | shows the queue's head, or the summary when the queue is empty |
| GameFlow.State.ShowSummary | src/core/gameFlow.js:168-194 | the summary state, with one more lapse per wrong card in a review |
| GameFlow.State.RelapsePass | src/core/gameFlow.js:172-179 | the relapse loop reviews each stored card of the incorrect list as wrong |
| GameFlow.State.ProceedToNextCard | src/core/gameFlow.js:286-305 | ends the check and shows the next card |
| GameFlow.State.CheckAnswer | src/core/gameFlow.js:196-284 | the checked state; ignored exactly when already checking or blank, aborted exactly with no card shown, correct exactly when an accepted answer matches |
| GameFlow.State.GradeAnswer | src/core/gameFlow.js:212-283 | grades a card on display: correct exactly when accepted, otherwise with the closest answer |
| GameFlow.State.MarkAttempted | src/core/gameFlow.js:220 | the card is marked attempted |
| GameFlow.State.AnswerCorrectly | src/core/gameFlow.js:223-259 | the correct branch |
| GameFlow.State.MarkCorrect | src/core/gameFlow.js:224-236 | streak, flags and last correct card updated |
| GameFlow.State.Requeue | src/core/gameFlow.js:240-247 | the card leaves the queue and comes back at the end while its streak is short |
| GameFlow.State.AnswerWrongly | src/core/gameFlow.js:260-283 | the wrong branch, returning the closest answer |
| GameFlow.State.MarkWrong | src/core/gameFlow.js:263-274 | the penalty, unless a replay or the same wrong answer again, and the last wrong answer |
| GameFlow.State.HandleCorrectAnswer | src/core/gameFlow.js:314-334 | counts the answer and records the review once the streak is reached |
| GameFlow.State.HandleIncorrectAnswer | src/core/gameFlow.js:336-413 | counts, lists and records a wrong answer and returns the closest answer |
| GameFlow.State.RecordIncorrectAnswer | src/core/gameFlow.js:395-412 | counts, lists and records a wrong answer |
| GameFlow.State.CountIncorrectAnswer | src/core/gameFlow.js:395-403 | the counter and the two lists of a wrong answer |
| GameFlow.State.RecordReview | src/core/gameFlow.js:324-333 | logs the review, and updates the stored card when asked |
| SessionLaws.SmartReviewCardsSelect | src/core/gameFlow.js:65-86 | a smart review takes exactly the due stored cards in scope |
| SessionLaws.CramCardsSelect | src/core/gameFlow.js:88-114 | a cram session takes exactly the unsuspended stored cards in scope |
| SessionLaws.CramListedSelect | src/core/gameFlow.js:93-102 | the word-list scope takes the unsuspended cards listed |
| SessionLaws.ListingOrderIsComparator | src/core/gameFlow.js:104-106 | ordering by first listing is a total preorder |
| SessionLaws.CramCardsListed | src/core/gameFlow.js:104-106 | without random order the cards come in the order of their first listing |
| SessionLaws.OrderedPermutes | src/core/gameFlow.js:30 | the session order is a permutation of the chosen cards |
| SessionLaws.ChosenDistinctQuestions | src/core/gameFlow.js:65-114 | every way of choosing cards gives one card per question |
| SessionLaws.StartedQueue | src/core/gameFlow.js:23-63 | a started session queues a fresh session card per card in order, shows the first and resets the round, keeping store and history |
| SessionLaws.StartedCoherent | src/core/gameFlow.js:32-39 | the new queue holds each question once |
| SessionLaws.SessionStartsCoherent | src/core/gameFlow.js:65-114 | both session kinds start with every list free of repeated questions |
| SessionLaws.CheckedIgnored | src/core/gameFlow.js:205-212 | a second check or a blank answer changes nothing; no card on display only sets the checking flag |
| SessionLaws.CheckedCorrect | src/core/gameFlow.js:223-259 | a correct answer: streak, counters, flags; logged and reviewed only in a non-replay review, reviewed once the streak is reached |
| SessionLaws.CheckedCorrectBranch | src/core/gameFlow.js:218-223 | an accepted answer takes the correct branch |
| SessionLaws.CorrectEffect | src/core/gameFlow.js:223-259 | the correct branch for any card, queue included |
| SessionLaws.CheckedWrong | src/core/gameFlow.js:260-283 | a wrong answer: the penalty unless a replay or repeated, counters, incorrect list and pile; the queue stays |
| SessionLaws.CheckedWrongBranch | src/core/gameFlow.js:218-260 | a rejected answer takes the wrong branch with penalty `parseInt(...) \|\| 2` |
| SessionLaws.WrongEffect | src/core/gameFlow.js:260-283 | the wrong branch for any card |
| SessionLaws.CheckedWrongRecorded | src/core/gameFlow.js:405-412 | a wrong answer in a non-replay review is logged and reviewed as wrong; otherwise store and history stay |
| SessionLaws.WrongMarkedObjs | src/core/gameFlow.js:263-269 | the card is attempted and its required streak raised by the penalty unless a replay or repeated |
| SessionLaws.IncorrectHandledEffect | src/core/gameFlow.js:395-412 | `handleIncorrectAnswer` changes only the counter, the two lists, the store and the history |
| SessionLaws.RemoveFirstSpec | src/core/gameFlow.js:240-241 | `findIndex`+`splice` removes the question, keeps every other one and shortens the queue by one when present |
| SessionLaws.CheckedCorrectQueue | src/core/gameFlow.js:240-247 | after a correct answer the card is queued again, at the end, exactly while its streak is short |
| SessionLaws.RequeueMentions | src/core/gameFlow.js:240-247 | the same for the queue function on its own |
| SessionLaws.CheckedCoherent | src/core/gameFlow.js:196-284 | grading keeps indices in range and each list free of repeated questions |
| SessionLaws.RelapseEffect | src/core/gameFlow.js:172-179 | each listed stored card is reviewed as wrong once; every other card and the order stay |
| SessionLaws.SummaryRelapses | src/core/gameFlow.js:168-194 | a review's summary gives each wrongly answered card one more lapse; a cram summary changes nothing |
| SessionLaws.QuestionSetSize | src/core/gameFlow.js:133-140 | on a queue without repeats the remaining count is the queue length |
| EventHandlers.Redone | src/events/eventHandlers.js:11-32 | the redo button; `RedoLaw` states it |
| EventHandlers.Skipped | src/events/eventHandlers.js:45-51 | the skip button; `SkipLaw` and `DropLaw` state it |
| EventHandlers.SuspendedCurrent | src/events/eventHandlers.js:35-42 | the suspend button; `SuspendLaw` states it |
| EventHandlers.RoundFinished | src/events/eventHandlers.js:92-108 | the finish-round button; `FinishRoundLaw` and `AttemptedQueue` state it |
| EventHandlers.StarFlipped | src/events/eventHandlers.js:245-253 | the star button; `StarLaw` and `StarTwice` state it |
| EventHandlers.EditOpened | src/events/eventHandlers.js:356-365 | `openEditModal`: only a stored question becomes the card being edited |
| EventHandlers.EditedAnswers | src/events/eventHandlers.js:378-379 | the new answers: the trimmed question, then the non-empty trimmed fields |
| EventHandlers.DisplayEdited | src/events/eventHandlers.js:421-425 | the session cards after an edit, as many as before; `EditDisplayFollows` states that the card on display takes the new question and answers when it shows the edited question, and that every other session card stays |
| EventHandlers.EditedStore | src/events/eventHandlers.js:385-399 | the edited store stays keyed by question |
| EventHandlers.EditApplied | src/events/eventHandlers.js:385-428 | a completed edit keeps the session well formed |
| EventHandlers.EditSaved | src/events/eventHandlers.js:367-448 | `saveCardEdit` as written keeps the session well formed |
| EventHandlers.Redo | src/events/eventHandlers.js:11-32 | the redo state |
| EventHandlers.Skip | src/events/eventHandlers.js:45-51 | the skip state |
| EventHandlers.SuspendCurrent | src/events/eventHandlers.js:35-42 | the suspend state |
| EventHandlers.FinishRound | src/events/eventHandlers.js:92-108 | the finish-round state |
| EventHandlers.StarCurrent | src/events/eventHandlers.js:245-253 | the star state |
| EventHandlers.OpenEditModal | src/events/eventHandlers.js:356-365 | the form of a stored card, or nothing for an unknown question |
| EventHandlers.SaveCardEdit | src/events/eventHandlers.js:367-448 | the saved state and word list as written |
| EventHandlers.SaveFilledEdit | src/events/eventHandlers.js:380-448 | the same past the guards |
| EventHandlers.ApplyEdit | src/events/eventHandlers.js:385-428 | the updates of a completed save |
| EventHandlers.FilterNoRepeat | src/events/eventHandlers.js:24 | filtering a queue keeps it free of repeated questions |
| EventHandlers.PushFrontQueue | src/events/eventHandlers.js:22-25 | the redo queue starts with the card and holds its question once |
| EventHandlers.RedoLaw | src/events/eventHandlers.js:11-32 | redo shows the last correct card in practice mode, queued once at the front; counters and store stay |
| EventHandlers.DropLaw | src/events/eventHandlers.js:35-51 | dropping the question on display removes it from the queue and keeps every other one |
| EventHandlers.DisplayedKeeps | src/core/gameFlow.js:142-166 | showing the next card keeps the lists, counters and suspensions |
| EventHandlers.SummaryKeepsSuspension | src/core/gameFlow.js:168-194 | the summary keeps the session cards, lists, counters and the card on display |
| EventHandlers.SkipLaw | src/events/eventHandlers.js:45-51 | skip removes exactly the question on display and records nothing |
| EventHandlers.SuspendLaw | src/events/eventHandlers.js:35-42 | suspend also suspends the stored card, so it is no longer active |
| EventHandlers.FinishRoundLaw | src/events/eventHandlers.js:92-108 | only attempted cards stay queued, in order; a second press changes nothing |
| EventHandlers.AttemptedQueue | src/events/eventHandlers.js:96 | the filtered queue holds exactly the attempted cards |
| EventHandlers.SummarizedShape | src/core/gameFlow.js:168-194 | the summary changes only the store and the two check flags |
| EventHandlers.StarTwice | src/events/eventHandlers.js:245-253 | starring twice gives the session back |
| EventHandlers.StarLaw | src/events/eventHandlers.js:245-253 | the star flips on the card on display and the stored card keeps agreeing |
| EventHandlers.EditSavedCompletes | src/events/eventHandlers.js:378-428 | a completed save applies the edit and rewrites the word list |
| EventHandlers.EditSavedClashes | src/events/eventHandlers.js:385-391 | a clashing save only deletes the old question's history |
| EventHandlers.EditSavedIdle | src/events/eventHandlers.js:368-376 | any other save changes nothing |
| EventHandlers.EditAppliedLaw | src/events/eventHandlers.js:385-399 | a rename moves the card to the end under its new key and drops the old history; the same question keeps its place |
| EventHandlers.EditDisplayFollows | src/events/eventHandlers.js:421-428 | when the card on display shows the edited question it takes the new question and answers; every other session card, the queue, the lists, the counters and the flags stay, and the editor closes |
| EventHandlers.EditFormReadsBack | src/events/eventHandlers.js:356-379 | the form of a parsed card reads back as its answers |
| EventHandlers.EditUnchangedKeepsStore | src/events/eventHandlers.js:356-428 | saving an unchanged form keeps store and history and closes the editor |
| EventHandlers.EditRenameLaw | src/events/eventHandlers.js:385-394 | a rename keeps schedule, flags and every other card and history entry |
| EventHandlers.EditedLineParses | src/events/eventHandlers.js:402-419 | the rewritten lines parse to the new answers and the other lines stay |
| EventHandlers.EditConflictDropsHistory | src/events/eventHandlers.js:385-391 | a clashing save loses the old question's history while the card stays stored |
| EventHandlers.EditSavedChecked | src/events/eventHandlers.js:367-448 | the corrected save keeps the session well formed |
| EventHandlers.SaveCardEditChecked | src/events/eventHandlers.js:367-448 | the corrected save as a method on `state` |
| EventHandlers.EditCheckedLosesNothing | src/events/eventHandlers.js:385-391 | with the check first, a clash changes nothing and no history of a stored card is lost |
| FileOperations.TabSelects | src/io/fileOperations.js:21-33 | the selection of each tab; `ExportTabsPartition` states that the active and suspended tabs split the store |
| FileOperations.ExportSelection | src/io/fileOperations.js:18-33 | the exported cards; `ExportSelectionSelects` states which, in what order |
| FileOperations.ExportData | src/io/fileOperations.js:14-41 | the exported text; `ExportEmpty` and `ExportDataReadsBack` state when there is one and that it reads back |
| FileOperations.ExportLine | src/io/fileOperations.js:40 | a line starts with the question and a bar |
| FileOperations.ExportSelectionSelects | src/io/fileOperations.js:22-33 | each tab exports exactly the stored cards it selects, in insertion order |
| FileOperations.ExportTabsPartition | src/io/fileOperations.js:22-33 | the suspended and active exports together count every card |
| FileOperations.ExportEmpty | src/io/fileOperations.js:35-38 | nothing is exported exactly when no card is selected |
| FileOperations.ExportLineReadsBack | src/io/fileOperations.js:40 | an exported line is one line and reads back, on import, as the card |
| FileOperations.ExportLineParses | src/io/fileOperations.js:40 | an exported line parses to the question and its alternates, question first |
| FileOperations.ExportLineSingle | src/io/fileOperations.js:40 | an exported line holds no line break |
| FileOperations.ExportDataReadsBack | src/io/fileOperations.js:40-41 | every exported line reads back as the card selected at its position |
| FileOperations.ImportDatabase | src/io/fileOperations.js:97-147 | cancel, reject a non-SQLite header or a database without `cards`, else replace the database, reload the store from its rows and take its review history (empty when it has no `review_history` table); a non-import changes nothing |
| FileOperations.DatabaseSlot.constructor | src/io/fileOperations.js:141-144 | the slot holds the given database |
| SettingsModal.FormSaved | src/events/eventHandlers.js:532-540 | units as chosen; each number as parsed unless NaN or 0, then the default |
| SettingsModal.PopulatedSavesBack | src/events/eventHandlers.js:521-540 | saving the filled form gives the settings back exactly when no number is 0 unless the default is; the defaults always |
| SettingsModal.SavedNonZero | src/events/eventHandlers.js:533-540 | with non-zero defaults a save stores no 0 |
| SettingsModal.SaveIdempotent | src/events/eventHandlers.js:521-540 | filling and saving again changes nothing |
| SettingsModal.SaveSettings | src/events/eventHandlers.js:532-544 | the current settings become the saved form; a box shared with the defaults changes them too |
| SettingsModal.ResetSettingsAsWritten | src/events/eventHandlers.js:297-301 | the reset as written shares the three interval boxes with the defaults |
| SettingsModal.ResetSettings | src/events/eventHandlers.js:297-301 | the corrected reset copies values and keeps the boxes apart |
| SettingsModal.SaveKeepsDefaults | src/events/eventHandlers.js:532-544 | while no box is shared a save never changes the defaults |
| SettingsModal.ResetAliasingShown | src/events/eventHandlers.js:297-301 | as written, after reset, save 3, save blank, the blank falls back to 3 |
| SettingsModal.ResetCorrectedShown | src/events/eventHandlers.js:297-301 | corrected, the blank falls back to 1 and the defaults never change |
| UiHelpers.CountedParses | src/ui/uiHelpers.js:12-16 | a counted line is exactly one a sync reads as a card |
| UiHelpers.Tally | src/ui/uiHelpers.js:17-40 | new, learned and suspended add up to the total; starred at most the total |
| UiHelpers.CountingStep | src/ui/uiHelpers.js:23-40 | a line adds one to exactly one of new, learned, suspended |
| UiHelpers.TallyAllNew | src/ui/uiHelpers.js:37-39 | with no stored card every line is new |
| UiHelpers.TallySuspended | src/ui/uiHelpers.js:30-31 | exactly the lines of suspended cards count as suspended |
| UiHelpers.UpdateTextareaStats | src/ui/uiHelpers.js:5-52 | hidden for a blank list, else the tally of the counted lines |
| UiHelpers.CountLines | src/ui/uiHelpers.js:23-40 | the counting loop computes the tally |
| UiHelpers.StatusOrder | src/ui/uiHelpers.js:112-117 | a status order from 0 to 3 |
| UiHelpers.StatusOrderMeaning | src/ui/uiHelpers.js:112-117 | orders 0–1 are exactly the due cards, 3 the suspended, 0 the new, 2 the scheduled later |
| UiHelpers.CardComparator | src/ui/uiHelpers.js:76-126 | the comparator of `sortCards`; `SortCardsByNumber`, `SortCardsByText` and `SortCardsUnknownColumn` state the order it gives |
| UiHelpers.SortCards | src/ui/uiHelpers.js:76-126 | the sorted copy is a permutation |
| UiHelpers.SortCardsByNumber | src/ui/uiHelpers.js:91-120 | a numeric column sorts rising or falling by its value |
| UiHelpers.SortCardsByText | src/ui/uiHelpers.js:81-84 | the question column sorts by `localeCompare` |
| UiHelpers.SortCardsUnknownColumn | src/ui/uiHelpers.js:122-123 | an unknown column keeps the order |
| UiHelpers.SourceCards | src/ui/uiHelpers.js:132-144 | the cards the list starts from; `SourceCardsCurrent` states which |
| UiHelpers.TabCountsOf | src/ui/uiHelpers.js:146-148 | the numbers on the tabs; `TabCountsAgree` states that they split the source |
| UiHelpers.TabCountsAgree | src/ui/uiHelpers.js:146-154 | active and suspended split the source; the list shows as many cards as the chosen tab's count |
| UiHelpers.SourceCardsCurrent | src/ui/uiHelpers.js:133-141 | the current view holds exactly the stored cards listed |
| UiHelpers.IntervalDisplay | src/ui/uiHelpers.js:210-218 | minutes below an hour, hours below a day, else days, with amount × unit = the interval |
| UiHelpers.HeaderClicked | src/ui/uiHelpers.js:272-277 | a click makes the clicked column the sort column |
| UiHelpers.HeaderClickedTwice | src/ui/uiHelpers.js:272-277 | two clicks on the sort column restore the view; a new column sorts ascending then descending |
| UiHelpers.ModalOrder | src/ui/uiHelpers.js:178-183 | the list order is a permutation of the filtered cards |
| UiHelpers.SortHeaders.constructor | src/ui/uiHelpers.js:2-3 | no sort column, ascending |
| UiHelpers.SortHeaders.Click | src/ui/uiHelpers.js:269-277 | the header state after a click |
| UiHelpers.SortHeaders.Open | src/ui/uiHelpers.js:285-288 | opening the list resets the sort |
| App.DefaultSrsSettings | script.js:103-109 | 1 day, 6 days, 10 minutes, streak 2, penalty 2 |
| App.Written | src/events/eventHandlers.js:542 | what a save writes; `WrittenLoadsBack` states that it loads back |
| App.Loaded | script.js:154-167 | the settings `loadSettings` produces; `LoadedWithoutRecord`, `LoadedFields` and `ZeroCountReloadsAsDefault` state them |
| App.MergedInterval | script.js:160-163 | each key of a saved interval wins over the default, each missing key keeps the default |
| App.LoadedWithoutRecord | script.js:154-167 | with nothing saved the settings are the defaults |
| App.LoadedFields | script.js:160-166 | a saved interval key wins even when 0; a count falls back exactly when missing or 0 |
| App.WrittenLoadsBack | script.js:160-166 | saved settings with non-zero counts load back unchanged |
| App.ZeroCountReloadsAsDefault | script.js:164 | a saved streak of 0 reloads as the default |
| App.LoadSettings | script.js:154-167 | a fresh record, sharing nothing with the defaults, holding the merge |
| App.BaseLanguage | script.js:229 | the tag's part before the first hyphen |
| App.BaseLanguagePrefix | script.js:229 | the base language is a prefix of the tag, the whole tag without hyphen |
| App.InitialLanguage | script.js:228-234 | the chosen language is English or a known one |
| App.LanguagePreference | script.js:228-234 | a known saved choice wins, then the full tag, then the base; English exactly when none is known |

## Left out

- Loading from and saving to IndexedDB, the `settings` table write, `localStorage`, the DOM, the timers, the translations and alerts are not modelled. The SQL statements that mirror store changes are not modelled either. The `review_history` table is kept as a list in `CardStore`.
- `updateDueCount`, the progress bar, `formatReviewDate`, the history modal and `exportDatabase` only display or download; they are not modelled.
- Dates are whole minutes passed in as `now`. An operation that reads the clock twice reads it once. ISO date strings are compared as these numbers. The card list's default order by `nextReviewDate.localeCompare` is therefore a numeric order (`UiHelpers.ModalOrder`).
- `UiHelpers.ModalOrder`: states only that the order is a permutation, because the order itself depends on the `localeCompare` parameter.
- `UiHelpers.SortCards`: the answers column's order is not stated, because it depends on the `localeCompare` parameter.
- `Text.NormalizeChar`: the normalisation `[\s\p{P}\p{S}]` uses a fixed character class. It holds the whitespace of `\s` and every punctuation and symbol character of five blocks: ASCII, Latin-1 Supplement, General Punctuation, CJK Symbols and Punctuation, and Halfwidth and Fullwidth Forms. It also holds U+30A0 and U+30FB of the Katakana block. Punctuation and symbols of other blocks, such as the currency symbols from U+20A0 or the arrows from U+2190, are kept where the source strips them.
- `toLowerCase` is modelled for the ASCII capitals, the Latin-1 capitals U+00C0–U+00DE other than U+00D7, and the fullwidth capitals U+FF21–U+FF3A. Every other character is its own lower case. Strings are sequences of UTF-16 units without surrogate pairs.
- `Scheduler.Reviewed`, `Scheduler.NewEase`, `Scheduler.NextInterval`: the ease is an exact `real`. Rounding of the double ease and of `Math.ceil(interval * efactor)` is not modelled. After a run of correct answers the double ease can sit just above the exact one, for example 3.0000000000000004 instead of 3, and the interval after it can then be one minute longer than the model's.
- `highlightAnswerDifferences` returns HTML strings; the model returns the markup as a sequence of pieces, each a plain character, a character with its CSS class, or an `*`. The span text itself is not produced.
- `TextDecoder` on the 16-byte header is the identity on ASCII bytes. `ImportDatabase` takes the opened database, with its table list, `cards` rows and `review_history` rows, as a parameter, because the SQL engine is not part of the model. The page reload after an import is modelled by its effect: the start-up creates an empty `review_history` table when the file has none.
- The sync and import loops parse all lines before applying them. Parsing is pure, so this gives the same store.
- `checkAnswer`'s `isChecking` writes in the wrong branch are collapsed into the final state, since nothing in between can observe them.
- `card.interval || 0` and `totalMistakes || 0` are the identity on integers. Only `efactor || 2.5` is modelled.
- `EventHandlers.EditSaved`: the failed `INSERT` on a clash also deletes the old question's row from the `cards` table. The in-memory store keeps the card, so only the lost history is modelled.
- The editor does not check that a new question is free of `|`, does not start with `#`, or that an answer has no line break. `EditedLineParses` states these as preconditions rather than modelling the broken lines.

## Findings

| source | as written | input that shows it | evidently intended | confidence | as-written member | corrected member |
|---|---|---|---|---|---|---|
| src/events/eventHandlers.js:385-391 | on a rename to a question already stored, the history of the old question is deleted, then the `INSERT` fails on the primary key and the handler stops | edit card `a`, with history, renaming it to `b` while `b` is stored | refuse the clash before deleting anything | not executed | EventHandlers.EditConflictDropsHistory | EventHandlers.EditCheckedLosesNothing, EventHandlers.SaveCardEditChecked |
| src/events/eventHandlers.js:297-301 | reset copies the interval objects of the defaults by reference, so a later save writes into the defaults and a blank input falls back to the last saved value | reset; save a first interval of 3; save again with that box empty: the interval stays 3 instead of the default 1 | copy the values, keeping the defaults unchanged | not executed | SettingsModal.ResetAliasingShown | SettingsModal.ResetCorrectedShown, SettingsModal.ResetSettings |

Two behaviours of the code a reader may not expect. First, `detectStringType` uses a strict `>`, so a tie is CJK (`ScriptType.TieIsCjk`). Second, a wrong answer on a new card leaves an ease of 1.96 (`Scheduler.FirstReview`).
