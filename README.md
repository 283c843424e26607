# AlgoPuzzle core, modelled in Dafny

AlgoPuzzle is a browser game for practising coding interviews. The player gets
an algorithm question whose code has blanks ("slots"). For each slot the player
picks one of several code fragments ("options"), then submits. When every slot
holds its correct option, the puzzle is solved and goes into the player's
history. A dashboard then shows progress against fixed goals per difficulty
tier.

This project models the logic behind that game and proves properties of it:

- `types.dfy` (module `Types`): the data model of `types.ts`. It covers
  options, slots, questions, history items and the four phases of a session.
  It also holds the three difficulty tiers and `Maybe`/`Result` wrappers for
  absent values and failures.
- `template.dfy` (module `Template`): the split of a code template on
  `{{SLOT_<digits>}}` markers into alternating code and slot segments
  (`parsedCode` in `App.tsx`). It is proved to round-trip: joining the
  segments gives back the template.
- `question_service.dfy` (module `QuestionService`): the constant question
  bank and `generateQuestion`. The generator filters the bank by difficulty,
  returns the first question whose title is unseen, and otherwise falls back
  to a random pick from the pool. The bank's authoring invariants are proved
  too.
- `session.dfy` (module `Session`): the puzzle session of `App.tsx`. The class
  `PuzzleSession` has the same fields as the React state. Its methods are the
  handlers: fetch, select, slot click, option click and submit. The submission
  loop is the method `Grade`. The screen's derived views are pure functions.
- `progress_dashboard.dfy` (module `Progress`): the dashboard of
  `components/ProgressDashboard.tsx`. It covers the statistics loop, the
  progress percentage, the quest-log tiles, the newest-first review list and
  the expand/collapse toggle.

The model follows the code of `App.tsx` in the places where the game behaves
oddly:

- A new choice for a slot drops that slot's verdict only when it is `false`.
  A `true` verdict stays, even if the new choice is wrong.
- Neither click handler checks that the slot or the option belongs to the
  question. For an unknown slot id, auto-advance targets the first slot.
- A slot with no correct option and no selection passes a submission, because
  nothing equals nothing.
- Submission checks only that a question is loaded (App.tsx:140). It has no
  phase or all-filled check of its own. The screen offers it only while
  playing and with every slot filled (App.tsx:432-435), so those are its
  preconditions. In a consistent session, playing implies a loaded question,
  so the early return is never reached.
- A failed fetch keeps the previous question.

Two choices of representation:

- Difficulty is kept as a string. The session stores whatever string the
  difficulty menu sends, and the generator and the dashboard compare strings.
  The `'Easy' | 'Medium' | 'Hard'` type of a question is the predicate
  `Types.IsTier`.
- The random draw of the fallback pick is the parameter `roll`. The pick is
  `pool[roll % |pool|]`, and a lemma shows every pool member can be drawn. The
  history item's id and solving date are parameters of `SubmitPuzzle`.

## Model

| member | source | states |
|---|---|---|
| Types.TierNamesDistinct | types.ts:14 | The three tier names Easy, Medium and Hard are different strings. |
| Types.TierIsExactlyOne | types.ts:14 | A declared difficulty is exactly one of the three tiers. |
| Template.DigitRun | App.tsx:175 | The `\d+` run from a position never reaches past the end of the text. |
| Template.DigitRunIsMaximal | App.tsx:175 | Every character in the `\d+` run is a digit, and the run stops at the first non-digit or at the end. |
| Template.MarkerAt | App.tsx:175 | A marker match at a position never reaches past the end of the text. |
| Template.MarkerAtIsMarker | App.tsx:175 | A non-zero marker match at a position covers a well-formed `{{SLOT_<digits>}}`. |
| Template.MarkerAtFindsEvery | App.tsx:175 | Every well-formed marker that starts at a position is the one the match finds there, so at most one marker length starts at each position. |
| Template.SplitFrom | App.tsx:176 | The scan behind JavaScript's `split` with a capturing group: from a position it emits the text before each marker, then the marker itself, and ends with the text after the last marker, so it always yields at least one part. |
| Template.Split | App.tsx:176 | `codeTemplate.split(regex)` with the marker kept as a part: the scan from the start, which always yields at least one part. |
| Template.SplitFromTake | App.tsx:176 | When the scan stands on a marker, the split emits the text before it and the marker, then continues after the marker. |
| Template.SplitFromConcat | App.tsx:176 | Joining the parts the scan produces from a position gives back the rest of the text. |
| Template.NoMarkerInGap | App.tsx:178-182 | Text the scan passes over contains no marker, so the `match` test classifies it as code. |
| Template.SplitFromAlternates | App.tsx:176 | The parts the scan produces alternate: code without a marker, then one marker, and so on, ending with code. |
| Template.SplitAtMarkerAlternates | App.tsx:176 | The same alternation holds when the scan stands on a marker. |
| Template.SplitIsDecomposition | App.tsx:175-176 | For any text, the split parts alternate code and marker, starting and ending with code, and joining them gives back the text. |
| Template.Classify | App.tsx:178-182 | A part becomes a slot segment exactly when the marker pattern matches inside it, and a code segment otherwise, with its text unchanged. |
| Template.ParseTemplate | App.tsx:174-183 | The segments of any template number 2k+1. Slot segments sit exactly at the odd positions. Each slot segment is one well-formed marker, and no code segment contains a marker. Joining the segments gives back the template. |
| Template.SplitLeadingMarker | App.tsx:176 | A template that starts with a marker splits into an empty code part, then that marker, then more parts. |
| Template.TwoMarkerSplit | App.tsx:176 | A text made of exactly two markers splits into five parts: empty code, the first marker, empty code, the second marker, empty code. |
| Template.AdjacentMarkers | App.tsx:176 | Two adjacent markers give empty code segments before, between and after them. |
| Template.SlotMarkerIsMarker | App.tsx:175 | `{{SLOT_d}}` for any digit d is recognised as a marker. |
| Template.MalformedMarkerExample | App.tsx:175 | `{{SLOT_x}}` has no digits, so it is not a marker and stays code. |
| QuestionService.FilterByDifficulty | services/geminiService.ts:327 | The pool holds exactly the bank entries of the requested difficulty and is no longer than the bank. |
| QuestionService.Pool | services/geminiService.ts:327 | The pool for a difficulty holds exactly the bank questions of that difficulty. |
| QuestionService.FirstUnseen | services/geminiService.ts:334 | Nothing is found iff every pool title is in the seen list. Otherwise the result is the first pool entry whose title is unseen. |
| QuestionService.GenerateQuestion | services/geminiService.ts:322-344 | Fails iff the pool for the difficulty is empty. Otherwise it returns a bank question with exactly the requested difficulty. |
| QuestionService.GenerateFailsIffUnknownTier | services/geminiService.ts:327-331 | With the shipped bank, generation fails iff the difficulty is not Easy, Medium or Hard. |
| QuestionService.GenerateIsFirstUnseen | services/geminiService.ts:334-338 | When some pool title is unseen, the result is the first such question whatever the random draw. |
| QuestionService.GenerateFallbackCoversPool | services/geminiService.ts:340-343 | When every pool title has been seen, every pool question is the result for some draw. |
| QuestionService.GenerateEasyExamples | services/geminiService.ts:8-48 | Easy with "Two Sum" seen gives Valid Palindrome. Easy with nothing seen gives Two Sum, for any draw. |
| QuestionService.BankIsTyped | services/geminiService.ts:5-320 | Every bank question declares one of the three tiers. |
| QuestionService.BankPools | services/geminiService.ts:5-320 | The Easy, Medium and Hard pools hold 2, 3 and 2 questions, in bank order. |
| QuestionService.BankIsWellAuthored | services/geminiService.ts:5-320 | Every slot of every bank question has exactly one correct option. |
| QuestionService.BankTitlesDistinct | services/geminiService.ts:5-320 | No two bank questions share a title. |
| QuestionService.BankSlotIds | services/geminiService.ts:5-320 | Every bank question has exactly the slots `{{SLOT_1}}` and `{{SLOT_2}}`, in that order. |
| QuestionService.BankSlotIdsAreMarkers | services/geminiService.ts:5-320 | The bank's two slot ids, `{{SLOT_1}}` and `{{SLOT_2}}`, are well-formed markers that the template parser recognises. |
| Session.Filled | App.tsx:195 | A slot counts as filled exactly when its selection is present and non-empty, the truthiness of `selections[id]`. |
| Session.IndexOfSlot | App.tsx:131 | `findIndex`: the position of the first slot with the id, or -1 when no slot has it. |
| Session.FirstCorrect | App.tsx:147 | `find`: nothing iff no option is correct. Otherwise the first correct option, in option order. |
| Session.CorrectOptionIdMeans | App.tsx:147-148 | The expected id (`correctOption?.id`) is missing exactly when no option is correct, and otherwise is the id of a correct option. |
| Session.SlotCorrectMeans | App.tsx:146-148 | A slot that passes the `===` test has a selection exactly when it has a correct option, and that selection is the id of a correct option. |
| Session.NoKeyNoSelectionPasses | App.tsx:145-148 | A slot with no correct option and no selection passes the comparison. |
| Session.Verdicts | App.tsx:144-152 | The verdict map of a submission has exactly the question's slot ids as keys. |
| Session.VerdictOfLastOccurrence | App.tsx:144-151 | A slot id's verdict is the pass/fail of the last slot carrying that id. |
| Session.VerdictsOfDistinctSlots | App.tsx:144-151 | With distinct slot ids, each slot's verdict is whether its selection equals the id of its first correct option. |
| Session.VerdictsAllTrue | App.tsx:144-156 | When every slot passes, every slot has a `true` verdict. |
| Session.Grade | App.tsx:141-152 | The loop writes exactly the verdict map. Its `allCorrect` is true iff every slot passes, and then every verdict is `true`. |
| Session.ClearStale | App.tsx:122-127 | After a new choice, a `false` verdict for that slot is gone. A `true` verdict for it is kept. Every other slot's verdict is unchanged. |
| Session.AdvanceTarget | App.tsx:130-136 | The active slot moves iff the slot after the first one with the clicked id exists and was unfilled before the click. It then moves to that slot. |
| Session.AdvanceToFollowingSlot | App.tsx:130-136 | Choosing in slot i moves the active slot to slot i+1 when that slot is still empty. |
| Session.NoAdvanceIntoFilledOrPastEnd | App.tsx:130-136 | Choosing in the last slot, or before a filled slot, leaves the active slot where it is. |
| Session.UnknownSlotAdvancesToFirst | App.tsx:131-132 | An id that names no slot sends the active slot to the first slot when that slot is empty. |
| Session.ParsedCode | App.tsx:171-184 | No segments without a question. With a question, the segments alternate code/slot and number 2k+1. Every slot segment is a well-formed marker, no code segment contains one, and the segments join back into the template. |
| Session.ActiveSlotOptions | App.tsx:187-191 | No options without a question, without an active id or with an empty id. Otherwise the options of the first slot with the active id, or none when no slot has it. |
| Session.IsAllFilled | App.tsx:193-196 | True iff there is a question and every one of its slots has a non-empty selection. |
| Session.StatusOf | App.tsx:371-374 | A verdict decides the status (`true` gives correct, `false` gives incorrect). Without one, the slot is filled iff it has a non-empty selection. |
| Session.MarkSeen | App.tsx:65-67 | The title ends up in the list. The old list is a prefix of the new one, which is at most one longer. The list is unchanged when the title was there. No duplicates are introduced. |
| Session.FirstSlotId | App.tsx:87-92 | The slot made active when a question is shown: the first slot's id, or none when the question has no slots. |
| Session.PuzzleSession.constructor | App.tsx:11-27 | A new session is loading with difficulty Medium. It has no question, no choices, no verdicts and no active slot, and keeps the stored history and seen titles. |
| Session.PuzzleSession.ChangeDifficulty | App.tsx:258 | Only the difficulty changes. |
| Session.PuzzleSession.Show | App.tsx:63-73 | The question is shown with no choices and no verdicts. The active slot is its first slot, or none without slots. Its title is marked seen and the phase is playing. |
| Session.PuzzleSession.Receive | App.tsx:57-77 | Choices and verdicts are cleared. A question is shown as above. A failure sets the phase to error, clears the active slot and keeps the previous question and seen titles. |
| Session.PuzzleSession.FetchNewQuestion | App.tsx:56-78 | The new state is exactly the outcome of `GenerateQuestion` for the current difficulty and seen titles. History and difficulty are unchanged. |
| Session.PuzzleSession.HandleQuestionSelect | App.tsx:80-98 | The chosen question is shown as above, and its difficulty becomes the session's. |
| Session.PuzzleSession.HandleSlotClick | App.tsx:109-112 | Once solved nothing changes. Otherwise only the active slot changes, to the clicked id, unchecked. |
| Session.PuzzleSession.HandleOptionClick | App.tsx:114-137 | Once solved nothing changes. Otherwise only the clicked slot's selection changes. Verdicts follow `ClearStale` and the active slot follows `AdvanceTarget` on the old selections. The slot never shows incorrect afterwards. |
| Session.PuzzleSession.SubmitPuzzle | App.tsx:139-168 | Requires playing with every slot filled. The verdicts become the map over exactly the question's slots. If all pass: solved, no active slot, one history item with the question appended. Otherwise phase, active slot and history are unchanged. |
| Session.FillTwoSum | App.tsx:80-137 | Selecting Two Sum and then choosing the first, correct, option of each slot leaves a fresh, consistent session still playing on Two Sum, with both slots filled and the active slot moved on to the second one. |
| Session.SolveTwoSum | App.tsx:80-168 | The same round, submitted, ends solved with no active slot, both verdicts `true`, and exactly one history item for Two Sum. |
| Progress.Goal | components/ProgressDashboard.tsx:12-16 | Each tier has a positive goal. |
| Progress.TotalGoalIsFifty | components/ProgressDashboard.tsx:12-16 | The goals 15, 25 and 10 sum to 50. |
| Progress.CountTier | components/ProgressDashboard.tsx:27-31 | The `counts[...]++` walk for one tier: the number of history items of that difficulty, never more than the history length. |
| Progress.TopicKey | components/ProgressDashboard.tsx:33 | A question is filed under its own topic when it has one, and under "General" when its topic is empty. |
| Progress.TopicCounts | components/ProgressDashboard.tsx:32-34 | Adds one to a topic's count per solved puzzle, starting from zero: every listed topic has a count between 1 and the history length. |
| Progress.TopicCountsKeys | components/ProgressDashboard.tsx:32-34 | A topic has a count iff some solved puzzle is filed under it. |
| Progress.TopicCountsValues | components/ProgressDashboard.tsx:32-34 | Each topic's count equals the number of solved puzzles filed under it (`CountTopic`), and a topic is listed iff that number is positive. |
| Progress.CountTierAppend | components/ProgressDashboard.tsx:27-31 | Appending a solved puzzle adds one to its own tier's count and leaves every other count unchanged, so no count goes down. |
| Progress.TopicCountsAppend | components/ProgressDashboard.tsx:32-34 | Appending a solved puzzle adds one to its own topic's count only. A topic already listed stays listed, and its count never goes down. |
| Progress.RoundHalfUp | components/ProgressDashboard.tsx:39 | `Math.round` on non-negative values: the result is within one half of the quotient, with halves rounded up. |
| Progress.OverallProgress | components/ProgressDashboard.tsx:37-39 | The percentage never exceeds 100. |
| Progress.ProgressIsTwoPerSolved | components/ProgressDashboard.tsx:38-39 | The percentage is min(100, 2n) for n solved puzzles. |
| Progress.ProgressBounds | components/ProgressDashboard.tsx:38-39 | The percentage lies in 0..100. It is 0 iff nothing is solved, and 100 iff at least 50 are solved. |
| Progress.ProgressMonotone | components/ProgressDashboard.tsx:38-39 | More solved puzzles never give a lower percentage. |
| Progress.ProgressGrowsWithHistory | components/ProgressDashboard.tsx:37-39 | Appending a history item never lowers the percentage. |
| Progress.TierCountsCoverHistory | components/ProgressDashboard.tsx:24-37 | The three tier counts sum to at most the history's length, and to exactly that when every difficulty is a tier. |
| Progress.TopicCountsSumToHistory | components/ProgressDashboard.tsx:32-35 | The topic counts sum to the history's length: each solved puzzle is counted once, with no de-duplication by title. |
| Progress.ComputeStats | components/ProgressDashboard.tsx:23-42 | The loop's counts are the per-tier counts. Items of other difficulties are skipped. Topics are the per-topic counts, and the total and percentage are those of the history. |
| Progress.SolvedInTier | components/ProgressDashboard.tsx:146-155 | A track lists exactly the history items of its tier, and as many as that tier's count. |
| Progress.SolvedInTierSingle | components/ProgressDashboard.tsx:146 | The filter keeps a single item exactly when it belongs to the tier. |
| Progress.SolvedInTierAppend | components/ProgressDashboard.tsx:146 | Filtering a concatenation gives the two filtered parts concatenated, so a track keeps the history's order and repetitions. |
| Progress.QuestTiles | components/ProgressDashboard.tsx:172-200 | "Next" is shown iff solved < goal. There are at most 7 locked tiles, none when solved + 1 >= goal. "+N more" appears iff goal - solved - 1 > 7, and then 7 tiles are locked. |
| Progress.TilesCoverRemaining | components/ProgressDashboard.tsx:172-200 | Below the goal, next + locked + N equals goal - solved. |
| Progress.NoTilesPastGoal | components/ProgressDashboard.tsx:172-200 | At or past the goal, no next, locked or "+N more" tile is drawn. |
| Progress.EmptyTracks | components/ProgressDashboard.tsx:172-200 | With nothing solved, the Easy, Medium and Hard tracks show next, 7 locked and +7, +17 and +2 more. |
| Progress.ReviewOrder | components/ProgressDashboard.tsx:221 | The review list is the history reversed: same length, item i is history item n-1-i. |
| Progress.ReviewIsPermutation | components/ProgressDashboard.tsx:221 | The review list holds the same items as the history, nothing dropped or added. |
| Progress.NewestFirst | components/ProgressDashboard.tsx:221 | A newly solved puzzle heads the review list. |
| Progress.Toggle | components/ProgressDashboard.tsx:224 | Clicking the open item closes it. Clicking any other item opens that one alone. |
| Progress.ToggleTwice | components/ProgressDashboard.tsx:224 | Two clicks on one item leave it open only if it was open before. Any other open item ends closed. |
| Progress.ReviewPanel.constructor | components/ProgressDashboard.tsx:20 | No item is open at first. |
| Progress.ReviewPanel.Click | components/ProgressDashboard.tsx:224 | The open item becomes `Toggle` of the old one and the clicked id. |

## Left out

- Storage: the history and seen titles are read from and written to browser storage (App.tsx:29-54). The constructor receives the stored values instead.
- Timing: the simulated network delay and the asynchronous fetch (services/geminiService.ts:324) are left out. A fetch is one step that either yields a question or fails, and the loading phase is only seen before the first fetch.
- Effects: the error log of a failed fetch is left out, and so is the first-load effect (App.tsx:100-107), which is the constructor followed by `FetchNewQuestion`.
- Randomness and clocks: `Math.random`, `Date.now` and the ISO date become parameters (`roll`, `itemId`, `dateSolved`).
- Rendering: layout, styling, the code highlighter and the markdown renderer are left out, together with the slot and option components and the dashboard's open/close and tab flags. The `showDashboard` reset in `handleQuestionSelect` goes with them.
- Dashboard wiring: the dashboard never uses the question-select callback it is passed, so `HandleQuestionSelect` is modelled as a session operation only.
- Dictionaries: JavaScript objects are modelled as maps, so keys such as `toString`, `constructor` or `__proto__`, which a plain object already inherits, are not modelled.
- Floating point: `Math.round((n / 50) * 100)` is computed exactly. The floating-point value lies within a tiny error of the integer 2n, so the rounded result is the same.
- Stale closures: on the first render, the fetch sees the seen titles as they were before storage was read. The model's first fetch sees the stored titles.
- Defaults: the default arguments of `generateQuestion` are unused by the session.
- Difficulty menu: the menu offers only the three tiers (App.tsx:256-264). `ChangeDifficulty` accepts any string, because `GenerateQuestion` handles unknown tiers.
- QuestionService.BankSlotIds: does not show that each slot id occurs exactly once in its question's template, in slot order. The verifier cannot evaluate the template parser over the long literal templates. Instead, the lemma proves the slot ids are `{{SLOT_1}}`, `{{SLOT_2}}` in order, and `QuestionService.BankSlotIdsAreMarkers` proves both are well-formed markers. `Template.SplitLeadingMarker` and `Template.AdjacentMarkers` cover the parser's general behaviour.
- Session.PuzzleSession.Valid: does not include the invariant that every selected slot belongs to the question. The click handlers do not maintain it, since they accept any slot id.
