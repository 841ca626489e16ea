# Claimstone: verified models

Claimstone keeps its evidence in append-only ledgers and promises things about every run of the
functions that fold them: an answer already judged bad is not turned good by reading it again, a
delegated ceiling survives restarts and revocation, two ledgers behave as one register, a figure
cannot leave its bounds. Around the ledgers sit a few algorithms with real content: a chunker, a table
layout, a schema validator. This project models those parts and proves the promises.

`dafny verify dfyconfig.toml` checks everything.

## How it is organised

| source | modules |
|---|---|
| `claimstone/chunk.py` | `Chunk`, `ChunkLaws`, `ChunkSurvival` |
| `claimstone/jats.py` | `JatsTable`, `JatsTableLaws` |
| `claimstone/model_call.py` | `ModelQueue`, `ModelQueueRequests`, `ModelQueueWriting`, `ModelQueueLaws`, `ModelQueueDrains`, `ModelQueueBytes`, `ModelQueueRejudges`, `ModelQueueRounds`, `ModelQueueCases`, `ModelQueueRuns` |
| `claimstone/control.py` | `Idempotency`, `IdempotencyLaws`, `LoginBudget`, `Sessions`, `SessionsLaws` |
| `claimstone/extract.py`, `claimstone/claim_records.py` | `ClaimRegister`, `ClaimRegisterLaws` |
| `claimstone/copy_policy.py` | `CopyPolicy`, `CopyPolicyLaws`, `CopyPolicyPasses` |
| `claimstone/autopilot.py`, part of `claimstone/operations.py` | `Autopilot`, `AutopilotLaws`, `AutopilotWork` |
| `claimstone/admissibility.py` | `Admissibility`, `AdmissibilityLaws`, `AdmissibilityReport`, `AdmissibilityFloors`, `Sums` |
| the same, with the guard of `claimstone/intake.py` and the ledger of `claimstone/normalize.py` | `AdmissibilitySupplies`, `AdmissibilitySupplyRuns` |
| `claimstone/decisions.py` | `Decisions`, `DecisionsLaws` |
| `claimstone/evidence.py` | `Evidence`, `EvidenceLaws`, `EvidenceCounts` |
| `claimstone/jsonshape.py` | `JsonShape`, `JsonShapeLaws`, `JsonShapeMeaning` |
| `claimstone/store.py` (`latest_by`) | `Ledger` |

The first module of a row holds data, specification functions and the methods proved against them; the
others hold what follows over every input or every run, much of it in terms of the inputs alone, so that
what a specification function computes is pinned from outside. A run is a sequence of steps folded
by a function, and each stateful method is proved to make exactly that step. Lemmas without a row below
are steps towards those with one: `OkExactlyWhenValidated` and `CutOffIsNeverRetried` towards what a drain
shows and leaves open, `BlocksAreDisjoint` towards `CellOwnsItsBlock`, `FloorsOnlyTighten` towards
`FloorsTightenExactlyWhen`, `UndeclaredModelCollides` towards `CollidingReadersNeverSettle`.

Conventions. A ledger is a `seq` of rows. A block under the writer lock or an object's lock is one
atomic step, and steps interleave freely. Clock readings, what a backend answers, what a planner
decides and what is on disk are parameters. A digest is an opaque identity: equal digests mean equal
contents, and joined keys such as `call_id|backend|model` are kept as tuples, which assumes the parts
hold no separator. Rates are exact.

## What turned out not to hold

Each of these is a property one would expect of the code. For each there is an input on which it fails
and a lemma that says exactly when it holds.

- Re-judging twice is not always the same as once. A damaged file under a first judgement such as
  `TRUNCATED` is shown as `TRUNCATED` and re-read as `RAW_HASH_MISMATCH`, so a row is appended every time
  (`DamagedTruncationIsStuck`). Two readers of one backend, one of them without a declared model, can share
  the identity of an answer; the re-reading of one is then shown under the other and the first never
  settles (`CollidingReadersNeverSettle`). `SecondRejudgeIsSilentExactlyWhen` covers every run, colliding
  or not; where keys own what they show it comes down to damage (`OwnKeysSettleExactlyWhen`), and naming
  every model is enough for that (`NamedReadersOwnTheirs`).
- `enum` compares with Python's `==`, so `{"enum": [1]}` admits `true` (`TruePassesForOne`). The test is
  the standard's on every value exactly when, with each option, the option with any of its ones and zeros
  written as boolean or number is offered too (`EnumIsStandardExactlyWhenPaired`). Apart from equality the
  meaning is the code's own: `integer` refuses 1.0, which the standard counts as an integer.
- Re-harvesting an unchanged batch can append: an undeclared and a declared reader of one model both
  answer with the record of one legacy claim and take its row from each other on every harvest
  (`ReharvestCanAppend`). Nothing else can make it append (`ReharvestIsSilentExactlyWhen`); without a
  row under a historical id it never does (`ReharvestIsSilent`).
- `harvest` and `current` merge legacy rows differently in one case: both ledgers know the id, the
  claim row has no `gate_revision` and the rejection is at zero (`MergesDifferExactlyWhen`). On such a
  pair `harvest` compares with the rejection and `current` shows the claim (`LegacyPairReadsTwoWays`).
  A row without `gate_revision` has no result key and no answer batches either, which came later; so over
  every run the two go on differing on an id exactly as long as no harvest decides it
  (`MergesMeetExactlyWhenDecided`), and one that does always appends (`LegacyRowIsReplaced`).
- Under `separate` the confirmed figure can exceed the one under `count`: an operator-supplied copy
  filed under a source nobody judged hides a confirmed one (`SuppliedCopyCanHideAConfirmation`,
  `ConfirmedApartExactlyWhen`, `SeparateConfirmsNoMoreExactlyWhen`). The obtained figure cannot.
- `admissibility.py:98-99` says that under `separate` the numerator is computed as if supplied copies did
  not exist. Their rows are left out, but verdicts are filed by source id, and a copy may be supplied
  where the own one was refuted: once the supplied one is confirmed, the candidate counts as confirmed
  and the line for supplied copies does not name it (`SuppliedVerdictCounts`). The figures are those of
  the store without supplied copies exactly when no own copy borrows a verdict, gains and losses balance
  in every class, and own copies were judged if any were (`FiguresAreOwnExactlyWhen`; candidate by
  candidate, `VerdictsBorrowedExactlyWhen`). Over runs supplies can only add confirmations
  (`GuardedSuppliesOnlyAdd`), unless a re-gate lets one in over a confirmed copy
  (`RegateLosesAConfirmation`, `SuppliesOnlyAddOverRuns`).
- `admissibility.py:260-265` says a declared class floor only makes admission harder. A class floor
  below the project floor admits a round that the project floor alone refuses (`LowFloorAdmits`); it
  cannot happen exactly when the project floor is at most 0 or at least 1, or no class floor is below it
  (`FloorsTightenExactlyWhen`).
- Over an arbitrary ledger, a refused purchase offer can have appended a row (`RefusalAfterAppending`);
  it appends nothing exactly when the first live offer for the candidate has the same terms
  (`RefusalAppendsNothingExactlyWhen`). Over reachable ledgers it always appends nothing.
- An idempotency entry dropped while its handler runs lets a second handler start, and the first
  handler's answer is then kept as the answer to the second request (`EvictedWhileRunning`). A begin of
  the key itself does that exactly when the entry has expired (`SecondRunnerExactlyWhenExpired`); a begin
  of another key drops it exactly when it has expired or a new key needs its place
  (`DroppedExactlyWhen`, `SecondRunnerAfterExactlyWhen`).
- A copy policy's window is checked before the plan is made, so a reservation can be dated after the
  window (`StraddlingReservation`). On clocks whose consecutive readings lie within `d`, a check at `t`
  is always recorded inside the window exactly when `t + d` is before its end
  (`RecordedInsideExactlyWhen`).
- A login prunes other people's sessions one instant earlier than a look-up would
  (`LoginAtADeadlineForgets`, `OwnHistoryDecidesExactlyWhen`).
- Enabling one mandate twice, terms and creation time included, makes the mandate ledger unreadable
  (`RepeatedClockCorrupts`), and nothing else does (`ReadableExactlyWhenNoneRepeats`). Caps and
  disjointness hold in either case.
- `_split_paragraphs` of no paragraphs is one empty group, so optimality is stated for at least one.

## Model

| member | source | states |
|---|---|---|
| Chunk.SplitParagraphs | claimstone/chunk.py:117-130 | the groups are an optimal packing: in order, nothing lost, each group of two or more within the budget, and no valid division smaller |
| Chunk.PackIsPacking | claimstone/chunk.py:117-130 | greedy grouping keeps every paragraph in order and only ever exceeds the budget with a lone paragraph |
| Chunk.GreedyIsOptimal | claimstone/chunk.py:117-130 | no contiguous division that respects the budget has fewer groups |
| Chunk.SortSections | claimstone/chunk.py:158-196 | the in-place pass classifies, carries small sections forward and merges a trailing one backwards as specified |
| Chunk.EmitUnit | claimstone/chunk.py:198-205 | each unit adds exactly its prose chunks, numbered on, with oversized ones counted |
| Chunk.EmitApparatus | claimstone/chunk.py:207-219 | tables, moved captions and footnotes follow the prose, one chunk each, in that order |
| Chunk.ChunkDocument | claimstone/chunk.py:133-220 | the chunks and counters are those of the specification that the laws below are about |
| ChunkLaws.NoParagraphLost | claimstone/chunk.py:158-205 | the prose paragraphs are the surviving sections' paragraphs in order, plus at most one inserted line, the head of the unit still waiting at the end |
| ChunkLaws.EverySectionCounted | claimstone/chunk.py:158-196 | kept, merged, dropped and note sections add up to all sections |
| ChunkLaws.UnitsAreLongEnough | claimstone/chunk.py:172-196 | a unit below the merge threshold survives only as the only unit |
| ChunkLaws.SplitKeepsParagraphs | claimstone/chunk.py:117-130 | joining the groups gives back the paragraphs |
| ChunkLaws.NoTextLost | claimstone/chunk.py:133-220 | every paragraph, and every trimmed head, of every surviving section can be quoted from one prose chunk |
| ChunkSurvival.EveryParagraphIsKept | claimstone/chunk.py:158-219 | every paragraph of every section of every document is in some chunk: in its own section's note if the section renders below the minimum and opens with a caption marker, in a prose chunk otherwise |
| ChunkSurvival.EveryHeadIsKept | claimstone/chunk.py:174-205 | the head of every section that is neither caption nor bare, without its outer space, can be quoted from a prose chunk |
| ChunkSurvival.SectionsGoWhereTheyShould | claimstone/chunk.py:161-171 | dropped are exactly the sections below the minimum that have no paragraph, and notes exactly the captions, in order |
| ChunkSurvival.ChunksReadInOrder | claimstone/chunk.py:198-219 | the prose chunks come first and read as the paragraphs of all sections but the captions, in order, with at most one line inserted; then one chunk a table, one a caption, one for all footnotes |
| ChunkSurvival.UnitsAreShortestRuns | claimstone/chunk.py:172-196 | sections are merged only as far as needed: each unit is the shortest run of consecutive sections long enough to stand alone, and what is left over joins the last |
| ChunkSurvival.CountersCount | claimstone/chunk.py:133-220 | the result's counters are the numbers of sections dropped and of prose chunks over the budget, and its ids are distinct |
| ChunkSurvival.EveryFootnoteIsKept | claimstone/chunk.py:105-109 | every footnote's text and marker can be quoted from one note chunk |
| ChunkSurvival.TableIsTitled | claimstone/chunk.py:88-102 | a table chunk shows the table's number and caption, where trimming does not reach into them |
| ChunkLaws.NoteTextKept | claimstone/chunk.py:161-171 | a caption moved out of the prose is quotable from its own note chunk |
| ChunkLaws.ProseStaysInBudget | claimstone/chunk.py:198-205 | a prose chunk is at most budget plus head plus two characters unless it is one over-long paragraph |
| ChunkLaws.ChunkIdsDistinct | claimstone/chunk.py:141-156 | the chunks of one source have distinct ids |
| ChunkLaws.TableKeepsColumns | claimstone/chunk.py:88-102 | padding moves no cell to another column, and every cell is quotable from the rendered table |
| JatsTableLaws.SpanExactlyWhen | claimstone/jats.py:95-99 | an absent attribute is 1; one that is there is read as `n` if and only if it is the numeral of `n`, leading zeros allowed, and `n` is from 1 to 1000; all else is refused |
| JatsTable.FreeColumn | claimstone/jats.py:102-140 | the search ends, at the first column of the row that no earlier block covers |
| JatsTable.Fill | claimstone/jats.py:102-140 | filling succeeds exactly when the whole block is free, and then writes the block and nothing else |
| JatsTable.Layout | claimstone/jats.py:102-140 | a table is laid out exactly when it has cells and first-fit can place them all; the result is that layout's rectangle; each refusal names the first cell at fault |
| JatsTable.LayoutIsUnique | claimstone/jats.py:102-140 | first-fit leaves no choice: one cell list has at most one layout |
| JatsTableLaws.CellOwnsItsBlock | claimstone/jats.py:102-140 | each square of a cell's block lies inside the rectangle, belongs to no other cell, and is blank but for the first, which holds the cell's text |
| JatsTableLaws.UnownedIsBlank | claimstone/jats.py:102-140 | squares that no cell covers are blank |
| JatsTableLaws.ReadingOrder | claimstone/jats.py:102-140 | the non-empty entries read row by row are exactly the non-empty cell texts in document order |
| ModelQueue.Queue.Write | claimstone/model_call.py:152-190 | writing appends what the merge of askers and targets asks for, and stops at the first refused schema with the earlier units appended |
| ModelQueueRequests.WriteGrows | claimstone/model_call.py:152-190 | no batch changes the first wording of a held call or drops anyone who asked, and askers stay distinct |
| ModelQueueRequests.EveryAskerRecorded | claimstone/model_call.py:152-190 | every unit of an accepted batch is recorded under its call, whoever asked first |
| ModelQueueRequests.WritingAgainIsSilent | claimstone/model_call.py:152-190 | writing a batch again appends nothing and reports no new call |
| ModelQueueRequests.CallsCounted | claimstone/model_call.py:152-190 | the number returned is how many more calls the ledger holds, not how many rows |
| ModelQueueWriting.WriteRecordsExactly | claimstone/model_call.py:152-190 | a batch records exactly its units up to the first schema that is refused: a new call keeps the wording that asked it first, and askers and review targets are those before and those of the batch, no more |
| ModelQueueWriting.RequestsReadBack | claimstone/model_call.py:192-196 | reading the ledger gives one row per call, its last, in the order the calls first came |
| ModelQueue.Queue.Results | claimstone/model_call.py:202-251 | the loop over rows, origins and overrides yields the one current answer per call and reader that the laws are about |
| ModelQueue.Queue.Pending | claimstone/model_call.py:257-284 | the units, in request order, that this reader has not answered or left open |
| ModelQueue.Queue.Drain | claimstone/model_call.py:396-480 | each chosen unit gets one appended answer with the next attempt number, and its bytes are stored under their hash |
| ModelQueue.Queue.Rejudge | claimstone/model_call.py:483-579 | each shown, readable answer is read once more under the current rules and appended unless that reading is already held |
| ModelQueueLaws.RunIsGood | claimstone/model_call.py:152-579 | the invariant of every run: attempts numbered in order, every re-reading traceable to an earlier original, first judgements consistent with what was reported |
| ModelQueueLaws.NeverTurnedGood | claimstone/model_call.py:218-251 | over every run and selection, an answer first judged anything but ok, NOT_JSON, SCHEMA_INVALID or EMPTY is never shown ok |
| ModelQueueLaws.AttemptsAreConsecutive | claimstone/model_call.py:424-464 | over every run each attempt's number is one more than that reader's earlier answers to that call |
| ModelQueueLaws.AttemptIsUnique | claimstone/model_call.py:424-464 | a call, a reader and an attempt number name at most one original answer |
| ModelQueueLaws.OkAsksThisPrompt | claimstone/model_call.py:238-251 | what is shown as ok has no failure and was asked with the prompt the call now has, as far as the runner said |
| ModelQueueLaws.SelectionShowsItsOwn | claimstone/model_call.py:202-251 | a selection shows rows of its own backend and model only, and every first judgement of one under its key |
| ModelQueueDrains.OtherReadersUnmoved | claimstone/model_call.py:202-284 | draining as one reader leaves every other reader's pending list unchanged |
| ModelQueueDrains.PendingAfterDrain | claimstone/model_call.py:257-284 | whatever its limit and filters, a drain changes the pending list exactly at the calls it chose, by whether their answers are open |
| ModelQueueDrains.RoutineDrainLeavesTransients | claimstone/model_call.py:257-284 | after an unlimited routine drain, pending is exactly what was pending and has just failed transiently, in order |
| ModelQueueDrains.DrainShowsOkExactlyWhen | claimstone/model_call.py:287-464 | after a drain a chosen call is shown `ok` if and only if its answer was validated, with exactly the parsed output, whatever was shown before |
| ModelQueueDrains.CutOffLeavesTheQueue | claimstone/model_call.py:257-308 | a chosen call whose answer was cut off is not pending for a routine drain again, even when it has no byte |
| ModelQueueBytes.DrainAsksExactly | claimstone/model_call.py:257-429 | a drain asks, in request order, exactly the waiting calls it is meant for, up to its limit, which is applied last |
| ModelQueueBytes.DrainKeepsEveryAnswer | claimstone/model_call.py:452-480 | after any drain every answer with bytes is on disk, whole, under its hash and where its row says, and can be read again; no file is gone, and none changed unless it was damaged and answered again |
| ModelQueueBytes.BytesAreKeptOverRuns | claimstone/store.py:227-243 | over every run that nobody disturbs, the bytes of every answer stay on disk, hashing to what its row says |
| ModelQueueRounds.RejudgeShows | claimstone/model_call.py:218-251 | after a round each key shows the last reading whose identity it owns, or what it showed |
| ModelQueueRounds.RoundReadsEachOnce | claimstone/model_call.py:529-579 | a round appends exactly one reading for every shown key that has one to make, and nothing else |
| ModelQueueRejudges.ShownAsOwnExactlyWhen | claimstone/model_call.py:226-250 | a reading shown under its owner is what the owner's own first judgement makes of the bytes, if and only if the two first judgements agree and damage is not hidden |
| ModelQueueRounds.SecondRejudgeIsSilentExactlyWhen | claimstone/model_call.py:483-579 | over every run and with no override, a second re-judgement appends nothing if and only if every shown key is quiet: nothing left to read, or what was shown there last agrees with its owner |
| ModelQueueCases.OwnKeysSettleExactlyWhen | claimstone/model_call.py:483-579 | where readable answers are owned by the keys that show them, if and only if none is damaged under a first judgement bytes cannot overturn |
| ModelQueueCases.NamedReadersOwnTheirs | claimstone/model_call.py:228-243 | readers that all name their model own what they show |
| ModelQueueCases.CurrentRulesAreShown | claimstone/model_call.py:483-579 | after a re-judgement an intact answer that rested on its bytes, under a key that alone owns it, is shown with exactly the current rules' verdict |
| ModelQueueCases.ForeignIsAppendedAgain | claimstone/model_call.py:228-243 | a readable shown original whose identity another key owns is appended, and appended again unless another reading takes its place |
| ModelQueueCases.OriginalStaysExactlyWhen | claimstone/model_call.py:218-251 | a shown original stays shown through a round if and only if no reading is shown under its key |
| ModelQueueCases.DisownedNeverSettles | claimstone/model_call.py:228-243 | under a key that owns nothing, every one of any number of re-judgements appends it again |
| ModelQueueRuns.DamagedTruncationIsStuck | claimstone/model_call.py:529-552 | a concrete run in which the damaged bytes of an answer cut off never settle |
| ModelQueueRuns.CollidingReadersNeverSettle | claimstone/model_call.py:218-251 | a concrete run with two colliding readers in which any number of re-judgements each append again |
| Idempotency.Idempotency.Begin | claimstone/control.py:261-280 | run, replay, in progress or conflict, with expiry, then eviction of the oldest, before the entry is added |
| Idempotency.Idempotency.Finish | claimstone/control.py:282-291 | a result is kept on the pending entry and a refusal removes it |
| IdempotencyLaws.AtMostOneRunner | claimstone/control.py:242-291 | in every interleaving at most one handler runs per key whose entry was not lost, and the table never exceeds its limit |
| IdempotencyLaws.SecondRunnerExactlyWhenExpired | claimstone/control.py:261-280 | a begin starts a second handler for its key if and only if the key's entry has outlived its time |
| IdempotencyLaws.DroppedExactlyWhen | claimstone/control.py:261-280 | a begin drops an entry if and only if it has expired, or the begin's key is new and the entry is among the oldest that must make room |
| IdempotencyLaws.SecondRunnerAfterExactlyWhen | claimstone/control.py:261-280 | after another key's begin, a begin of a running key starts a second handler if and only if the first begin dropped the entry or it has expired |
| IdempotencyLaws.OneSuccessPerKey | claimstone/control.py:604-614 | while the entry is held at most one handler run succeeds |
| IdempotencyLaws.ReplaysExactly | claimstone/control.py:261-280 | after a success every same request replays exactly that result and every other request conflicts |
| IdempotencyLaws.NeverTwiceAtOnce | claimstone/control.py:261-280 | while a handler runs, the same request is told so and another conflicts |
| IdempotencyLaws.RefusalFreesKey | claimstone/control.py:282-291 | a refused request frees its key |
| IdempotencyLaws.EvictedWhileRunning | claimstone/control.py:277-291 | a concrete run in which an evicted handler's answer is replayed to another request |
| LoginBudget.LoginBudget.Reserve | claimstone/control.py:222-232 | refused exactly when `limit` unexpired bookings exist; a grant books itself and touches no other operator |
| LoginBudget.LoginBudget.Forgive | claimstone/control.py:234-239 | gives back the latest booking and no other |
| LoginBudget.PruningIsExact | claimstone/control.py:206-208 | pruning from the front removes exactly the expired bookings |
| LoginBudget.BookingsStayWithinLimit | claimstone/control.py:193-239 | on a clock that never goes back the bookings stay sorted and at most `limit` |
| LoginBudget.WindowIsNeverExceeded | claimstone/control.py:193-239 | in every window-long interval, grants minus forgives are at most `limit`, however the calls interleave |
| Sessions.Sessions.Login | claimstone/control.py:115-132 | a login adds its session and forgets every session at or past a deadline |
| Sessions.Sessions.Lookup | claimstone/control.py:134-146 | found exactly while both deadlines hold; activity refreshes the idle deadline only |
| Sessions.Sessions.EndAll | claimstone/control.py:184-191 | ends and counts every live session of an operator except the one kept |
| Sessions.OwnHistoryDecidesExactlyWhen | claimstone/control.py:95-191 | other people's requests never affect a session, if and only if nobody logs in at the very instant another live session reaches a deadline |
| Sessions.LoginAtADeadlineForgets | claimstone/control.py:123-127 | a concrete login that drops a session a look-up would still have found |
| Sessions.NeverOutlivesItsLifetime | claimstone/control.py:134-146 | activity never extends the absolute lifetime |
| SessionsLaws.FoundExactlyWhen | claimstone/control.py:95-191 | a session is found exactly when the token's last login was not ended, by its token or through its operator, and every look-up since, and this one, came within the idle time and the lifetime |
| SessionsLaws.ListedAreFound | claimstone/control.py:163-182 | listing names exactly the operator's sessions a look-up would find at that moment |
| Ledger.ReadLatestBy | claimstone/store.py:218-225 | one pass over the rows yields the collapse the laws are about |
| Ledger.LatestIsLast | claimstone/store.py:218-225 | the collapse holds, per key, the last row that carries it, and no other key |
| ClaimRegister.Register.Harvest | claimstone/extract.py:302-427 | appends exactly the undecided proposals' rows, and proposed = accepted + rejected + already held |
| ClaimRegister.Register.HarvestOne | claimstone/extract.py:320-409 | one proposal appends its decision with the next revision to its own ledger, unless the same decision is held |
| ClaimRegister.Register.ReadHeld | claimstone/extract.py:284-287 | the merge of the two ledgers a harvest starts from |
| ClaimRegister.Register.ReadCurrent | claimstone/claim_records.py:44-52 | every id ends on one ledger at most, the merge's winner |
| ClaimRegisterLaws.RevisionsIncrease | claimstone/extract.py:395-409 | over every run of harvests from any revision-zero start, revisions of an id strictly increase across both ledgers |
| ClaimRegisterLaws.RevisionCountsRows | claimstone/extract.py:395-409 | over every run the k-th row appended for an id has revision k |
| ClaimRegisterLaws.HarvestRecords | claimstone/extract.py:340-409 | an id a harvest decides ends with the gate's verdict on the last proposal decided there and with its earlier answer batches and this one; every other id holds what it held |
| ClaimRegisterLaws.MergeIsLastWriter | claimstone/claim_records.py:44-52 | once any harvest wrote an id, both merges show exactly the decision appended last |
| ClaimRegisterLaws.LegacyMeaningKept | claimstone/claim_records.py:44-52 | an id no harvest wrote keeps its legacy meaning |
| ClaimRegisterLaws.MergesDifferExactlyWhen | claimstone/extract.py:284-287 | the two merges differ if and only if a legacy claim without a revision meets a revision-zero rejection |
| ClaimRegisterLaws.LegacyPairReadsTwoWays | claimstone/extract.py:284-287 | a legacy rejection and claim of one id on which `harvest` holds the rejection and `current` shows the claim |
| ClaimRegisterLaws.LegacyRowIsReplaced | claimstone/extract.py:320-409 | a proposal that meets a row without a revision is always appended, after which both merges show one row, its decision word for word unless two result keys clash |
| ClaimRegisterLaws.HarvestEndsDifferenceExactlyWhen | claimstone/extract.py:320-409 | a harvest makes the two merges agree exactly at the ids it decides |
| ClaimRegisterLaws.MergesMeetExactlyWhenDecided | claimstone/claim_records.py:44-52 | over every run from a legacy start the merges differ on an id if and only if they did at the start and no harvest decided it |
| ClaimRegisterLaws.ReharvestIsSilentExactlyWhen | claimstone/extract.py:320-409 | from any ledgers, re-harvesting an unchanged batch appends nothing if and only if no two answers under different result keys take over one legacy row |
| ClaimRegisterLaws.ReharvestIsSilent | claimstone/extract.py:320-409 | with no row under a proposal's historical id it always appends nothing |
| ClaimRegisterLaws.ReharvestCanAppend | claimstone/extract.py:326-332 | one legacy claim and two answers by an undeclared and a declared reader, on which every harvest appends |
| CopyPolicy.Ledgers.PlanPolicy | claimstone/copy_policy.py:55-103 | only bounded terms in a finite future window are frozen, and freezing them again appends nothing |
| CopyPolicy.Ledgers.AuthorizePolicy | claimstone/copy_policy.py:106-120 | authorizes a planned policy before its window ends, once, and never a revoked one |
| CopyPolicy.Ledgers.RevokePolicy | claimstone/copy_policy.py:123-133 | revokes an authorized policy, once |
| CopyPolicy.Ledgers.MaterializeDue | claimstone/copy_policy.py:170-257 | the nested loops over policies, flows and candidates append exactly the plans and authorizations of the specified pass |
| CopyPolicyLaws.RunIsSafe | claimstone/copy_policy.py:30-257 | the invariant of every interleaving: each reservation was lawful when it was made |
| CopyPolicyLaws.CeilingsHold | claimstone/copy_policy.py:95-98 | over every run a policy reserves at most `max_candidates` candidates and `max_total_requests` requests, so no ceiling check fires and no ledger is unreadable |
| CopyPolicyLaws.EveryReservationWasAllowed | claimstone/copy_policy.py:159-256 | every reservation follows a check inside the window, under an authorized policy, for exactly its requests, with no acquisition of the candidate in flight |
| CopyPolicyLaws.RecordedInsideExactlyWhen | claimstone/copy_policy.py:238-252 | on all clocks whose consecutive readings lie within `d`, every reservation checked at `t` is recorded inside the window if and only if `t + d` is before its end |
| CopyPolicyLaws.StraddlingReservation | claimstone/copy_policy.py:238-252 | a concrete pass that dates a reservation after its window |
| CopyPolicyLaws.NoCandidateTwice | claimstone/copy_policy.py:193-256 | no policy reserves a candidate twice |
| CopyPolicyLaws.NothingAfterRevocation | claimstone/copy_policy.py:123-184 | a revoked policy never reserves again |
| CopyPolicyLaws.EveryEligibleIsServed | claimstone/copy_policy.py:219-256 | while the policy stays due, a flow ends with the ceiling spent or every eligible candidate served |
| CopyPolicyPasses.PassIsWarranted | claimstone/copy_policy.py:159-256 | over every journal and world, each authorization a pass appends is under a standing policy of this code and protocol whose schedule is authorized, checked in the window, for a candidate one of its asked and runnable flows lists; plans are authorized at once, and exactly the plans authorized are returned, in order |
| CopyPolicyPasses.PassLeavesNothingOut | claimstone/copy_policy.py:170-257 | over every run, of a policy that stays due every listed candidate ends reserved, in flight, refused by the planner or past awaiting authorization, unless the ceiling is spent |
| Autopilot.Ledgers.Enable | claimstone/autopilot.py:99-139 | enabled exactly when no enabled mandate covers the flow |
| Autopilot.Ledgers.EnableSeries | claimstone/autopilot.py:152-187 | enabled exactly when the flows are distinct and none is covered |
| Autopilot.Ledgers.Disable | claimstone/autopilot.py:190-204 | disabling twice is one disabling |
| Autopilot.Ledgers.Status | claimstone/autopilot.py:228-265 | what is left of the cap after every reservation made in the mandate's name |
| Autopilot.Ledgers.DriveLocal | claimstone/operations.py:839-950 | at most one drain per lane is planned, authorized once and run, however the drive ends |
| Autopilot.Ledgers.Tick | claimstone/autopilot.py:301-390 | every flow is driven under what the mandate has left by then |
| AutopilotLaws.StageSpends | claimstone/operations.py:891-935 | a drain stage reserves at most what it takes off the remainder, even when an identical plan is found again |
| AutopilotLaws.DriveSpendsAtMostItsCap | claimstone/operations.py:839-950 | a drive reserves at most the ceiling it is passed, in one mandate's name only, however it ends |
| AutopilotWork.DriveRunsBothLanes | claimstone/operations.py:891-935 | a drive that nothing stops appends both drains, extraction first, each with as many of its calls as are left, and spends exactly the smaller of all calls and what it was given |
| AutopilotWork.TickDrivesEveryFlow | claimstone/autopilot.py:301-390 | a tick that nothing stops does so for every flow in turn and spends exactly the smaller of all calls and what the mandate had left |
| AutopilotWork.NothingIsGivenBack | claimstone/autopilot.py:207-236 | no step of any run lowers what is reserved for a mandate: failed, crashed and disabled drains count against its cap |
| AutopilotWork.StageLeaves | claimstone/operations.py:891-935 | what each way of not finishing leaves in the ledger, with nothing taken off the remainder |
| AutopilotWork.EnablesExactlyWhen | claimstone/autopilot.py:99-187 | a mandate is enabled exactly when the ledger can be read and no enabled mandate lists any of its flows, which for a series are at least one and all different |
| AutopilotLaws.RunIsGood | claimstone/autopilot.py:26-390 | the invariant of every run, whatever the clock does: enabled mandates disjoint, every mandate within its cap, reservations only for mandates in the ledger |
| AutopilotLaws.EnabledMandatesAreDisjoint | claimstone/autopilot.py:99-187 | in every reachable state that can be read, enabled mandates cover pairwise disjoint flows |
| AutopilotLaws.CapIsNeverExceeded | claimstone/autopilot.py:207-236 | over every run, reserved calls over all ticks, restarts and child flows never exceed the lifetime cap, so the check in `status` is unreachable |
| AutopilotLaws.DisabledSpendsNothing | claimstone/autopilot.py:190-306 | once a mandate was disabled its reservations never change again, in any later run |
| AutopilotLaws.ReadableExactlyWhenNoneRepeats | claimstone/autopilot.py:32-48 | the ledger of a run can be read if and only if no accepted enabling repeats a mandate already in it |
| AutopilotLaws.DistinctMandatesStayReadable | claimstone/autopilot.py:126-139 | it is enough that no two enablings name one mandate; the clock may step back |
| AutopilotLaws.RepeatedClockCorrupts | claimstone/autopilot.py:32-40 | the same terms enabled twice at one instant leave an unreadable ledger |
| Admissibility.Collapse | claimstone/admissibility.py:32-64 | one pass keeps, per candidate, the row the laws below characterise |
| Admissibility.PooledLoop | claimstone/admissibility.py:127-147 | the counters are the sizes of the obtained, confirmed, awaiting and refuted sets |
| Admissibility.ClassLoop | claimstone/admissibility.py:149-174 | the buckets are the sizes of those sets class by class, and every candidate not obtained is under one failure |
| Admissibility.ListBlocking | claimstone/admissibility.py:199-216 | a reason is listed if and only if it blocks |
| Admissibility.Rate | claimstone/admissibility.py:67-244 | the report measures the round, names the supplied-only and web-located copies, and is final if and only if nothing blocks |
| Admissibility.Admit | claimstone/admissibility.py:247-288 | admitted when something was found, the pool meets the project floor and every class its own |
| AdmissibilityLaws.AcquiredExactlyWhen | claimstone/admissibility.py:32-64 | a candidate counts as acquired if and only if its last success or re-gated row is a success |
| AdmissibilityReport.SelectedExactlyWhen | claimstone/admissibility.py:86-96 | a candidate is in the denominator exactly when its last row is of the round asked for and, for the manifest, names its source |
| AdmissibilityReport.CollapsedExactlyWhen | claimstone/admissibility.py:32-64 | a candidate has a row exactly when one counts for it: the last success or re-gate if that is a success, otherwise the last row |
| AdmissibilityLaws.FailedRetriesChangeNothing | claimstone/admissibility.py:32-64 | failed ordinary retries change no verdict wherever they are inserted |
| AdmissibilityLaws.SeparateNeverExceedsCount | claimstone/admissibility.py:98-109 | if every operator-supplied row is a success, `separate` obtains no more than `count` |
| AdmissibilityLaws.SuppliedLineIsTheDifference | claimstone/admissibility.py:98-112 | the line for supplied copies names exactly what `count` obtains and `separate` does not |
| AdmissibilityLaws.ConfirmedExactlyWhen | claimstone/admissibility.py:127-147 | a candidate is confirmed if and only if its last success or re-gated row is a success that names a confirmed document |
| AdmissibilityLaws.ConfirmedApartExactlyWhen | claimstone/admissibility.py:98-147 | exactly which candidates are confirmed under one policy and not the other, by their last deciding rows |
| AdmissibilityLaws.SeparateConfirmsNoMoreExactlyWhen | claimstone/admissibility.py:98-147 | the confirmed figure under `separate` is at most that under `count` if and only if supplied copies hide no more confirmations than they add |
| AdmissibilityLaws.SuppliedCopyCanHideAConfirmation | claimstone/admissibility.py:98-147 | a store in which one is hidden and none added |
| AdmissibilitySupplies.VerdictsBorrowedExactlyWhen | claimstone/admissibility.py:98-147 | exactly which candidates `separate` confirms or takes as judged where the store without supplied rows and verdicts does not, and the other way round; what is obtained never differs |
| AdmissibilitySupplies.FiguresAreOwnExactlyWhen | claimstone/admissibility.py:98-181 | exactly when all figures under `separate` are those of the store in which no copy was supplied |
| AdmissibilitySupplyRuns.SuppliedVerdictCounts | claimstone/intake.py:274-289 | a run in which a supplied copy's verdict confirms the refuted own copy under `separate`, with the supplied line empty |
| AdmissibilitySupplyRuns.SuppliesOnlyAddOverRuns | claimstone/normalize.py:90-107 | over every run that supplies nothing over a confirmation, `separate` confirms all that the store without supplied copies confirms |
| AdmissibilitySupplyRuns.GuardedSuppliesOnlyAdd | claimstone/intake.py:274-289 | without re-gates the guard on supplies sees to that |
| AdmissibilitySupplyRuns.RegateLosesAConfirmation | claimstone/intake.py:274-289 | a run with a re-gate in which `separate` loses a confirmation to a supplied copy |
| AdmissibilityLaws.RateIsBounded | claimstone/admissibility.py:197-243 | 0 ≤ rate ≤ rate_upper ≤ 1 and obtained = confirmed + awaiting + refuted |
| AdmissibilityLaws.FinalMeansSettled | claimstone/admissibility.py:197-243 | a final round has attempted every found candidate and its bounds have met |
| AdmissibilityReport.BlocksExactlyWhen | claimstone/admissibility.py:199-216 | each blocking reason is listed exactly when it stands in the ledgers' rows |
| AdmissibilityReport.LinesName | claimstone/admissibility.py:110-125 | the lines for orphans, for web-located copies and for candidates only a supplied copy obtains name exactly those |
| AdmissibilityReport.EachClassCounts | claimstone/admissibility.py:149-174 | each class's figures and each failure's are the numbers of its own candidates |
| AdmissibilityLaws.DocumentRowNarrowsBounds | claimstone/admissibility.py:127-147 | once any document row exists, one more for an unjudged source only raises the rate and lowers its ceiling |
| AdmissibilityLaws.ClassesAddUp | claimstone/admissibility.py:131-181 | the per-class and the pooled loop count the same things |
| AdmissibilityLaws.FailuresAddUp | claimstone/admissibility.py:149-174 | failures sum to found minus obtained |
| AdmissibilityLaws.PooledIsWeightedMean | claimstone/admissibility.py:175-243 | the pooled rate is the mean of the class rates weighted by what each found |
| AdmissibilityLaws.AdmittedExactlyWhen | claimstone/admissibility.py:257-278 | with no declared class floors, admitted if and only if something was found and every class meets the floor |
| AdmissibilityFloors.FloorsTightenExactlyWhen | claimstone/admissibility.py:257-278 | declared floors only make admission harder on every measured round, if and only if the project floor is at most 0 or at least 1, or no class floor is below it |
| AdmissibilityFloors.LowFloorAdmits | claimstone/admissibility.py:257-278 | otherwise there is a round, with its measurement, that the declaration admits and the project floor alone refuses |
| Sums.ClassesPartition | claimstone/admissibility.py:149-164 | class sizes add up to the size of the whole |
| Decisions.Decisions.ReadLatest | claimstone/decisions.py:64-69 | the latest row per decision, in order of first appearance |
| Decisions.Decisions.RecordOffer | claimstone/decisions.py:260-290 | supersedes every live offer for the candidate and appends the new one, or refuses |
| Decisions.Decisions.OfferStage | claimstone/decisions.py:293-312 | the manual transitions that are allowed are written, all others refused with nothing appended |
| Decisions.Decisions.SetState | claimstone/decisions.py:339-366 | deferral and decline only of an open decision, with nothing appended otherwise |
| DecisionsLaws.AtMostOneLiveOffer | claimstone/decisions.py:260-312 | over every run each candidate has at most one offer outside obsolete and declined |
| DecisionsLaws.RefusedOfferAppendsNothing | claimstone/decisions.py:260-290 | over every run a refused offer appends nothing |
| DecisionsLaws.OfferTakesOver | claimstone/decisions.py:260-290 | over every run a new offer is refused exactly when the candidate's pending offer has the same terms; otherwise that one becomes obsolete, the two name each other, and no other decision changes |
| DecisionsLaws.StageExactlyWhen | claimstone/decisions.py:293-312 | over any ledger a manual stage is recorded exactly for an offer of the flow, proposed and then approved or declined, or approved and then bought or declined |
| DecisionsLaws.DeferralExactlyWhen | claimstone/decisions.py:339-366 | over any ledger a deferral or decline is recorded exactly for a decision of the flow that is no identity answer and neither closed nor bought |
| DecisionsLaws.ClosedIsFinal | claimstone/decisions.py:293-366 | over every run obsolete and declined are never left |
| DecisionsLaws.BoughtOnlyFromApproved | claimstone/decisions.py:293-312 | over every run a purchase is recorded only on an approval of the same offer on the same terms |
| DecisionsLaws.RefusalAppendsNothingExactlyWhen | claimstone/decisions.py:267-285 | over any ledger, exactly when a refusal leaves it unchanged |
| DecisionsLaws.RefusalAfterAppending | claimstone/decisions.py:267-285 | a ledger with two live offers on which a refusal has already appended |
| Evidence.BuildProfile | claimstone/evidence.py:77-206 | the profile holds the counts, classes, sources, state, blockers and sorted results of the claims |
| Evidence.SortResults | claimstone/evidence.py:151-152 | sorted by source and claim id, nothing added or lost |
| Evidence.CountSides | claimstone/evidence.py:159-167 | each counted claim that takes a side is counted on exactly that side |
| EvidenceCounts.EachFigureCounts | claimstone/evidence.py:117-176 | every figure of a profile is the number of claims or rejections it is named after, stance by stance, class by class, verdict by verdict |
| EvidenceCounts.SidesAreDirections | claimstone/evidence.py:154-167 | the claims against, over all classes, are the contradicting ones, and both sides together are all directions less those that qualify |
| EvidenceCounts.OneMoreClaim | claimstone/evidence.py:145-167 | one more counted claim, wherever it stands, raises its own side in its own class by one and leaves the other side alone |
| EvidenceCounts.EachResultIsAClaim | claimstone/evidence.py:79-101 | each result stands for as many supported claims as it is listed times, field by field, second copies marked |
| EvidenceCounts.TheRestOfAProfile | claimstone/evidence.py:178-206 | sources, samples, state, provisional flag and blockers, in terms of the claims |
| EvidenceLaws.ProfileIgnoresOrder | claimstone/evidence.py:106-206 | with distinct claim ids the profile, hence its hash, does not depend on the order of claims or rejections |
| EvidenceLaws.OwnClaimsAccountedFor | claimstone/evidence.py:131-144 | own claims = results + reviewed and not usable + awaiting review |
| EvidenceLaws.DirectionsCountWorksOnce | claimstone/evidence.py:145-157 | direction counts sum to the results not marked as a second copy of a work |
| EvidenceLaws.SecondCopyCountsNothing | claimstone/evidence.py:145-178 | a usable claim from a second copy is shown and changes no count, class or coverage |
| JsonShape.Errors | claimstone/jsonshape.py:107-147 | on every accepted schema the validator ends, and a problem is reported at a path if and only if the value breaks a keyword there |
| JsonShapeMeaning.MeetsExactlyWhenSatisfies | claimstone/jsonshape.py:107-147 | on every accepted schema a value is valid if and only if it does what each keyword that is there asks, each on its own |
| JsonShapeMeaning.ComplaintsMean | claimstone/jsonshape.py:107-147 | each kind of problem is reported exactly where it is true |
| JsonShapeMeaning.EqualExactlyWhenSamePlain | claimstone/jsonshape.py:121-122 | two values are equal, in Python's sense or the standard's, if and only if they stand for the same |
| JsonShapeLaws.AcceptsExactlyTheClosed | claimstone/jsonshape.py:52-104 | a schema is accepted if and only if every subschema uses only supported keywords, each in its one shape, none checked against nothing |
| JsonShapeLaws.CleanExactlyWhenMet | claimstone/jsonshape.py:107-147 | there is no problem anywhere if and only if the value satisfies the meaning of all eight keywords |
| JsonShapeLaws.NoErrorsExactlyWhenMet | claimstone/jsonshape.py:107-147 | the list is empty if and only if the value satisfies the schema |
| JsonShapeLaws.StandardIsMet | claimstone/jsonshape.py:121-122 | no value the standard's equality admits is refused |
| JsonShapeLaws.MetIsStandard | claimstone/jsonshape.py:121-122 | where every enum offers each option with its twins, the meaning is the one under the standard's equality |
| JsonShapeLaws.EnumIsStandardExactlyWhenPaired | claimstone/jsonshape.py:121-122 | for any enum, Python's membership is the standard's on every value if and only if each option's twins are offered |
| JsonShapeLaws.TruePassesForOne | claimstone/jsonshape.py:121-122 | an accepted schema that lets `true` pass for 1 |

## Left out

- `html_doc.py`, HTTP transport, the command line, the dashboard and the API schema.
- Gate rules, Unicode folding, XML parsing, number conversion and duplicate detection: their outcomes arrive as inputs.
- `tei.py` records are plain values here; document-order flattening in `jats._sections` would add only easy members.
- `decisions.resolve_identity`, `possession` and the retry approvals; `net.py`; `network_schedule.py` beyond "is this schedule authorized".
- Paid-cent budgets: only call counts are summed in `autopilot`.
- Two drains of one queue at once in different processes, which could number an attempt twice: a drain is one step here, cut short by its limit.
- Result rows older than the `answer_failure_class`, `result_key` and `judged_schema` fields; a change of `RESULT_JUDGE_VERSION` between two re-judgements.
- Real-number effects: rates are exact, and NaN and infinities never reach the validator.
- Byte-level hashing and JSON encoding.
- Admissibility.Rate: the breakdown of failures by host is left out, because it is descriptive and rests on URL parsing.
- JatsTableLaws.SpanExactlyWhen: digits are the ten of ASCII; Python's `isdigit` admits others, some of which `int` then rejects.
- `LoginBudget.record_failure`, which books without the limit check and which no route calls.
- Evidence.BuildProfile: work groups are carried unread, and the registry version, the contract version and the hash itself are not modelled.
- Answers without a harness version: every runner states one, and a harvest proposal here always has one.
- ModelQueue.Queue.Results: the order of the shown answers is kept, their `detail`, cost and latency fields are not, because no rule reads them.
- ModelQueue.Queue.Drain: one answer per chosen request is a function of the request; threads, pacing and the order in which answers arrive are not modelled, because rows are appended in request order.
- ClaimRegister.Register.Harvest: a chunk is taken to fix its text, source and request, as chunk ids and the queue do, so the gate's verdict is a function of the proposal.
- CopyPolicy.Ledgers.MaterializeDue: the URL, hit and class checks that make a candidate eligible arrive as a sorted list per flow, because they read ledgers this model does not hold.
- Autopilot.Ledgers.Tick: copy policies, retries, dossiers and proposals that a tick also serves are not part of it; they spend no model calls.
- AdmissibilitySupplyRuns.SuppliesOnlyAddOverRuns: a forced second reading of a copy already judged is not a step, and a candidate is taken to keep one source id that no other has.
- JsonShape.Errors: problems are listed by path and kind rather than message, and fields of one object are visited in no particular order.
- JsonShapeLaws.AcceptsExactlyTheClosed: a `type` that cannot be hashed is refused here like any other; the source raises a different exception for it.
- JsonShapeLaws.MetIsStandard: one direction of an exact condition over whole schemas, which would need to know which subschemas any value can reach.
- Sessions.Sessions.Login: tokens are parameters, so their unpredictability is not modelled; nor is the last-seen time.
