# Receipt pipeline: a Dafny model

This project models the logic of a receipt pipeline and proves what it keeps. A device at
the edge delivers scanned files to a NAS, a backend ingests and edits them, syncs them to
YNAB, reconciles what comes back, and plays a game of fires and water over the weeks.

| file | what it models |
|---|---|
| `FireEconomy`, `FireReplay`, `FireRuns`, `FireTheorems`, `FirePhases`, `GameBoard` | flames, burns and water as an event-sourced state machine, the two readings of its log, and the object that runs it |
| `WeeklyStreak`, `SkipPasses` | the streak of clean weeks, and passes earned and spent |
| `Apportionment` | the two largest-remainder allocators against one specification |
| `MoneyPath`, `Recompute`, `LaneItems`, `WorkspaceReconcile` | from a workspace of item assignments to split amounts, the validator, and the payload builder |
| `PullPush`, `SubtransactionMerge`, `PushBack`, `MemoMarker` | adopting what YNAB holds, updating its splits, the two together, and the receipt marker in a memo |
| `DeliveryRecords`, `EdgeDelivery`, `EdgeTheorems`, `OutboxSender`, `StabilityScan` | delivery from the outbox to one receipt per content, with failures and crashes |
| `YnabLedger`, `YnabSync`, `YnabRuns`, `YnabHistory`, `YnabReceipts`, `YnabTheorems`, `YnabScenarios`, `YnabOutcomes` | the sync protocol: workers, stale takeovers, crashes, and a remote that answers conflicts |
| `DuplicateGraph`, `DuplicateRuns` | the duplicate check and the graph of its pointers |
| `YearCompletion` | the year of a date that was written without one |

`Prelude` holds the shared vocabulary. Where the source updates state in place, a class or a
loop is proved equal to a function of the old state, and the theorems are about runs of
those functions and about what each of them means for its inputs. `dafny verify dfyconfig.toml` checks everything.

## Properties that do not hold everywhere

Six promises fail for some inputs; each is stated with the exact condition.

- **Pull then push.** Building a payload from an adopted YNAB transaction gives the money
  back exactly when the active splits add up to the amount. Where they do not, the payload
  is either not built (`PullPush.UnbalancedIsNotBuilt`) or built with the splits' signs
  turned round (`PullPush.OppositeSplitTurnsRound`). Once it is pushed, the next
  reconciliation finds no drift exactly when every active split carried an id and no lone
  split sits under a different, non-empty top-level category (`PushBack.PullPushSettles`).
  The lone split drifts again every time (`PushBack.LoneSplitKeepsDrifting`); a nameless one
  is doubled, and what the next pull adopts cannot be built (`PushBack.NamelessSplitDrifts`).
- **Merged split updates.** The structure check after an update to splits succeeds exactly
  when every active split carried an id; a nameless split survives beside its replacement.
  An update to a single category always passes (`SubtransactionMerge.MergeMatchesExactly`,
  `SubtransactionMerge.NamelessSplitSurvives`).
- **Recompute then validate.** A recompute without warnings passes the money checks exactly
  when the total is a whole number of cents: 10.005 over one lane is refused
  (`Recompute.RecomputeThenValidate`, `Recompute.HalfCentIsRefused`).
- **One transaction per account.** The import id alone does not ensure it: an update may move
  a transaction onto an account that already holds one of the same receipt. A step,
  and a run all through, keeps at most one exactly when it makes no such move, so every run
  does where YNAB refuses them (`YnabTheorems.StepKeepsOneExactly`,
  `YnabTheorems.EveryRunKeepsOnePerAccount`, `YnabScenarios.UnguardedRunsCanDouble`).
- **Duplicate pointers.** Two writes set a status without looking at the receipt: a sync
  worker's, and a sync request's write back to needs_review after its enqueue failed. Over a
  receipt whose draft became a duplicate meanwhile, either leaves the pointer set without
  the review status, and the next save can close a cycle; draft saves and one sync request
  are enough. Exactly these writes break the rule that a pointer means duplicate review, and
  a run without them makes no cycle (`DuplicateRuns.ReviewIsKeptExactly`,
  `DuplicateRuns.RaceMakesACycle`, `DuplicateRuns.LostRequestMakesACycle`). Inside one step,
  two saves checked on the same table can point at each other: a pointer set on an outdated
  table closes a cycle exactly when its target leads back by then
  (`DuplicateRuns.SavesAtOnceMakeACycle`, `DuplicateRuns.PointingClosesCycleExactly`). A run
  is free of cycles all through exactly when no step leaves its receipt with a pointer that
  led back to it (`DuplicateRuns.RunsCycleExactly`).
- **Synced means a success.** A commit does not write a status that equals the one its
  session had read. So a worker that read a receipt as syncing before another worker synced
  it can take the row back and leave the receipt synced, with no success behind it
  (`YnabScenarios.StaleReadLosesSuccess`). The exact condition for every run is
  `YnabTheorems.SyncedMeansSomeSuccess`; a run without commits on stale reads meets it
  (`YnabTheorems.SyncedUnlessStale`).

Where code and documentation differ the model follows the code: a delivery record that says
"sent" can go back to "retry" (`EdgeTheorems.SentIsNotAbsorbing`), and a forced create is
idempotent on one account only, not for the receipt as the comment at ynab.py:1312-1316 has it.

## Assumptions

- Game: queries see pending writes, as the comment at correctness.py:278-279 intends;
  `created_at` does not decrease along the log; the water capacity is fixed; the debug seed
  is off; idempotency keys are structured values, not strings; weeks are indices.
- Money: amounts are exact numbers of milliunits (at most three decimals); weights are
  integer multiples of a common unit; sorted signatures are multisets.
- Delivery: dry-run flags are off, outbox names are not reused, the NAS rename is atomic, and
  ingesting one file is one step. Equal hashes mean equal contents.
- Sync: import ids stand for receipts, which are taken to differ in their first 31 hex
  digits; idempotency keys do not collide. Workers start at any time, several on one draft if
  the queue delivers twice, and each reads statuses, claims and commits in separate steps. A
  commit stores what the code assigned, except a status equal to the one read since the last
  commit. A request of a user and the reset at start-up are one step each.
  YNAB answers a create with a conflict while a live transaction on the account has the
  import id, and may do so for a deleted one. What a listing returns, and which transaction
  matches by amount, date and payee, is free.
- Remote splits: YNAB applies split rows by id, adds rows without one and keeps splits no row
  names; an empty list deletes all splits, and a category that is sent replaces the old one.
- Duplicates: in a run one request's database work up to a commit is one step; a sync request
  and its write back after a failed enqueue are two.

## Model

| member | source | states |
|---|---|---|
| FireTheorems.EveryRunReplaysToLiveWeeks | apps/server/backend/app/services/game.py:639-723 | after any run of fires, awards and douses, replaying the log from nothing gives the live flames and burnt flags of every week |
| FireTheorems.LaterEventsNeverChangeEarlierReplay | apps/server/backend/app/services/game.py:693-697 | although replay looks forced-douse keys up in the whole log, nothing appended later changes how earlier events replay |
| FireTheorems.EveryRunRecomputesWater | apps/server/backend/app/services/correctness.py:478-534 | water is earned minus spent, stays within capacity, and equals what the log recomputes to, counters included |
| FireTheorems.EveryRunConservesFlames | apps/server/backend/app/services/correctness.py:145-317 | effective fires are the flames now active plus those doused by hand plus those cleared by burns |
| FireTheorems.EveryRunCoversTheBoard | apps/server/backend/app/services/correctness.py:166-317 | the flames on unburnt weeks never exceed the water capacity, and a burnt week has none |
| FireTheorems.BurntForever | apps/server/backend/app/services/correctness.py:146-164 | a burnt week stays burnt with zero flames through every later run |
| FireTheorems.DryBoardNeverGrows | apps/server/backend/app/services/correctness.py:257-317 | without water no add_fire call raises the total: each burn takes at least the flame just landed |
| FireTheorems.RepeatedAddFireChangesNothing | apps/server/backend/app/services/correctness.py:129-317 | a retry of add_fire after any other operations changes no flame, water, counter or burnt flag; at most it adds audit events |
| FireTheorems.RunExtends | apps/server/backend/app/services/correctness.py:26-46 | runs only append to the log, never douse an old fire late, and never unburn a week |
| FirePhases.AddFireInPhases | apps/server/backend/app/services/correctness.py:145-317 | a fresh add_fire of any number of units, as far as the water goes: the flames it covers land at no cost, each further one takes exactly one droplet, no other row changes, and the log grows by that many events |
| FirePhases.CoveredFlamesLand | apps/server/backend/app/services/correctness.py:166-190 | with water for all of them, incoming flames only land |
| FirePhases.UncoveredFlameTakesOneDroplet | apps/server/backend/app/services/correctness.py:192-255 | on a full board with water a flame takes one droplet and changes no row |
| FirePhases.DryFlameBurnsOneWeek | apps/server/backend/app/services/correctness.py:257-317 | on a dry board a flame lands and exactly one week burns: the one with the most flames then, the earliest on a tie |
| FirePhases.BurntWeekOnlyRecords | apps/server/backend/app/services/correctness.py:146-164 | the fire of a burnt week is recorded and changes nothing else |
| FirePhases.FreshAwardFills | apps/server/backend/app/services/correctness.py:328-358 | a fresh award adds its units up to the capacity, and what it adds is what was earned |
| FirePhases.FreshDouseSpends | apps/server/backend/app/services/correctness.py:361-457 | a fresh douse spends the most that the units, the water and the flames in reach allow, and those flames are gone |
| FireRuns.RunKeeps | apps/server/backend/app/services/correctness.py:95-457 | counters, rows, unique and derived keys, replay, recompute and conservation are kept by every run from any good board |
| FireEconomy.WorstWeek | apps/server/backend/app/services/correctness.py:280-285 | the victim is an unburnt week with the most flames, the earliest on a tie |
| FireEconomy.TotalAfterUpdate | apps/server/backend/app/services/correctness.py:460-466 | writing one row moves the board total by that row's change and nothing else |
| FireReplay.ReplayFrame | apps/server/backend/app/services/game.py:693-699 | replay depends on the key set only through the forced-douse lookups it makes |
| FireReplay.ReplayWeekFireEvents | apps/server/backend/app/services/game.py:678-723 | the replay loop computes the replayed week rows |
| FireReplay.RecomputeCorrectnessState | apps/server/backend/app/services/correctness.py:514-527 | the recompute loop computes the water tally of the log |
| GameBoards.GameBoard.AddFire | apps/server/backend/app/services/correctness.py:95-325 | the new state is the specified one, every invariant holds, and the reported counts are the water spent, fires and burns the log gained |
| GameBoards.GameBoard.AddOneFire | apps/server/backend/app/services/correctness.py:145-317 | one unit takes the specified branch: burnt week, covered, auto-douse or burn |
| GameBoards.GameBoard.AwardWater | apps/server/backend/app/services/correctness.py:328-358 | water rises by the returned amount, capped at capacity, once per key |
| GameBoards.GameBoard.SpendWaterToExtinguish | apps/server/backend/app/services/correctness.py:361-457 | the specified douse, with water falling by the returned amount, once per key |
| GameBoards.GameBoard.RecordEvent | apps/server/backend/app/services/correctness.py:26-46 | an event is appended unless its key is taken |
| GameBoards.GameBoard.GetTotalActiveFlames | apps/server/backend/app/services/correctness.py:460-466 | the total over unburnt weeks |
| GameBoards.GameBoard.BurnWorst | apps/server/backend/app/services/correctness.py:257-317 | the flame lands, then the worst week burns; a repeated key does neither |
| WeeklyStreaks.ScanFindsLongestRuns | apps/server/backend/app/services/game.py:280-316 | the scan returns the longest clean suffix and the longest clean run of counted weeks |
| WeeklyStreaks.LongestAreUnique | apps/server/backend/app/services/game.py:244-258 | those two numbers are determined by the weeks |
| WeeklyStreaks.StreakIsLongestCleanRuns | apps/server/backend/app/services/game.py:240-316 | the streak, without the scan: over the completed weeks that have an unshredded receipt, in order, the longest all-green and fireless stretch up to the last and at all |
| WeeklyStreaks.RegradedByAge | apps/server/backend/app/services/game.py:68-74 | regrading changes nothing but grades: green up to one threshold, yellow up to the other, then brown |
| WeeklyStreaks.ShreddingNeverLowers | apps/server/backend/app/services/game.py:775-820 | shredding a yellow or brown receipt lowers neither number |
| WeeklyStreaks.RaisingThresholdsNeverLowers | apps/server/backend/app/services/game.py:68-74 | raising both timeliness thresholds lowers neither number |
| WeeklyStreaks.DousingNeverLowers | apps/server/backend/app/services/correctness.py:386-429 | a manual douse lowers neither number |
| WeeklyStreaks.AddingFiresNeverRaises | apps/server/backend/app/services/correctness.py:145-317 | an add_fire call raises neither number |
| WeeklyStreaks.DeriveWeeklyStreak | apps/server/backend/app/services/game.py:240-316 | the method computes the streak of the specification |
| WeeklyStreaks.JudgeWeek | apps/server/backend/app/services/game.py:288-307 | a week counts when a receipt in it is unshredded, and is clean when all those are green and it is quiet |
| SkipPasses.EveryRunKeepsTheLedger | apps/server/backend/app/services/game.py:319-400 | earned is the number of pass events, balance is earned minus spent and never negative, and no key pays twice |
| SkipPasses.AtMostOneTokenEach | apps/server/backend/app/services/game.py:796-818 | each receipt costs at most one token over every run |
| SkipPasses.ShredChangesExactly | apps/server/backend/app/services/game.py:762-820 | a spend changes the forest exactly for an unshredded yellow or brown receipt of the window, with a token left and the cap not reached; it shreds that receipt only, and takes one token exactly when it was never paid for |
| SkipPasses.ShreddedWasPaid | apps/server/backend/app/services/game.py:796-820 | over every run a shredded receipt was paid for |
| SkipPasses.EveryRunKeepsTheCap | apps/server/backend/app/services/game.py:785-792 | over every run no day spends more tokens than the cap |
| SkipPasses.SpendingNeverLowers | apps/server/backend/app/services/game.py:762-820 | no spend in any run lowers the current or the longest streak |
| SkipPasses.ReevaluationAddsNothing | apps/server/backend/app/services/game.py:383-398 | evaluating again adds nothing |
| SkipPasses.FirstEvaluationAwardsEveryRun | apps/server/backend/app/services/game.py:358-400 | on an empty log one evaluation awards, over the maximal clean runs, length divided by threshold rounded down |
| SkipPasses.NextPassIsTheNextMultiple | apps/server/backend/app/services/game.py:873-876 | the countdown is positive, ends on a multiple of the threshold, and no smaller one does |
| SkipPasses.PassBook.EvaluatePasses | apps/server/backend/app/services/game.py:319-400 | the method's new state is the specified evaluation |
| SkipPasses.PassBook.SpendShredToken | apps/server/backend/app/services/game.py:762-820 | outcome and new state of every branch; a refusal changes nothing |
| Apportionment.LargestRemainderIsUnique | apps/server/backend/app/services/allocation_workspace.py:311-318 | the largest-remainder specification determines every share |
| Apportionment.ShareIsFloorOrCeiling | apps/server/backend/app/services/allocation_workspace.py:311-318 | every share is the floor or the ceiling of its exact quota |
| Apportionment.WholeQuotaIsExact | apps/server/backend/app/services/allocation_workspace.py:311-318 | a whole quota is given exactly |
| Apportionment.ZeroWeightGetsNothing | apps/server/backend/app/services/allocation_workspace.py:303-318 | a zero weight gets nothing while some weight is positive |
| Apportionment.HeavierNeverGetsLess | apps/server/backend/app/services/allocation_workspace.py:314-317 | a heavier lane, or an equal and earlier one, never gets less |
| Apportionment.CentsAreProportional | apps/server/backend/app/services/allocation_workspace.py:295-319 | on its own weights: shares sum to the target, each is less than a unit from its part, heavier or earlier never less, zero for zero; even shares when all weights are zero |
| Apportionment.SignsDoNotMatter | apps/server/backend/app/services/allocation_workspace.py:303-304 | the cent allocator takes the size of a weight only |
| Apportionment.MilliunitsAreProportional | apps/server/backend/app/services/category_resolution.py:61-83 | the same for the milliunit allocator, where missing and negative weights count for nothing |
| Apportionment.LargestRemainderAllocation | apps/server/backend/app/services/allocation_workspace.py:295-319 | the cent allocator meets the specification, zeros for a target that is not positive, equal weights when all are zero |
| Apportionment.DistributeMilliunits | apps/server/backend/app/services/category_resolution.py:61-83 | the milliunit allocator meets the same specification and fails exactly on a negative total with lanes |
| Apportionment.AllocatorsAgree | apps/server/backend/app/services/category_resolution.py:61-83 | on the same target and weights both allocators give the same shares |
| Apportionment.StableDescending | apps/server/backend/app/services/allocation_workspace.py:314-315 | the serving order is a permutation, descending and stable |
| MoneyPath.ToMilliunitsIsSigned | apps/server/shared/receipt_shared/money.py:6-16 | the sign is the flag's and the size the amount's |
| MoneyPath.ValidateMoney | apps/server/backend/app/services/validation.py:54-70 | no money error exactly when rows are usable, the total is positive and splits sum to it; the milliunit conversion's error exactly for usable splits within a cent of a negative total |
| MoneyPath.BuildTransaction | apps/server/backend/app/services/ynab.py:520-602 | succeeds exactly on buildable payloads, with the built amounts, categories and memos |
| MoneyPath.BuiltSays | apps/server/backend/app/services/ynab.py:520-602 | the account is the payload's or else the default one, and allowed; amounts carry the direction; categories are allowed, and rows keep theirs and their memos |
| MoneyPath.ValidMoneyBuilds | apps/server/backend/app/services/ynab.py:546-599 | what passes the validator is built, sums exactly, and every sub-amount is signed like the total |
| Recompute.ExactOrWarned | apps/server/backend/app/services/allocation_workspace.py:360-400 | for a total that is not negative the lanes get exactly the total, or there is one pin warning, never both: the excess one exactly above the total, the shortfall one with exactly what is missing |
| Recompute.RecomputePayload | apps/server/backend/app/services/allocation_workspace.py:322-437 | amounts, warnings, split rows in index order with their memos, and the single-category and no-lane branches |
| Recompute.DivideTotal | apps/server/backend/app/services/allocation_workspace.py:357-404 | pins are kept, the rest is apportioned, and the warnings are those of the pins |
| Recompute.LaneTotals | apps/server/backend/app/services/allocation_workspace.py:335-352 | each lane weighs the sum of its items with discounts subtracted, floored at zero |
| LaneItems.LaneTotalIsCost | apps/server/backend/app/services/allocation_workspace.py:335-346 | a lane weighs the sum over the items on it, missing amounts for nothing, discounts subtracted |
| LaneItems.MovingMovesTheCost | apps/server/backend/app/services/allocation_workspace.py:339-346 | moving an item moves exactly its amount from one lane to the other |
| LaneItems.LanesGetTheirItemsPart | apps/server/backend/app/services/allocation_workspace.py:357-404 | without kept pins every lane gets its items' part of the total to the cent, and even parts when nothing has a cost |
| LaneItems.UnpinnedGetTheirItemsPart | apps/server/backend/app/services/allocation_workspace.py:360-398 | with kept pins the unpinned lanes share what the pins leave in the same way |
| LaneItems.RowsInLaneOrder | apps/server/backend/app/services/allocation_workspace.py:405-424 | row i is that of split lane i: its category, its amount, and the memo the payload had there; the top-level category goes |
| LaneItems.SplitsFollowTheirItems | apps/server/backend/app/services/allocation_workspace.py:322-437 | each split of the next payload is less than a cent from the total times its items' cost over all lanes' cost |
| LaneItems.CentsAreNearest | apps/server/backend/app/services/allocation_workspace.py:357-357 | amounts are rounded to the nearest cent, half a cent away from zero |
| Recompute.RecomputedSplitsAreExact | apps/server/backend/app/services/allocation_workspace.py:322-437 | split amounts sum to the total in cents exactly when there is no pin warning |
| Recompute.RecomputeThenValidate | apps/server/backend/app/services/validation.py:54-70 | with a positive total, usable lanes and no warning, the result passes the money checks exactly when the total is whole cents |
| Recompute.HalfCentIsRefused | apps/server/backend/app/services/allocation_workspace.py:355-404 | 10.005 over one lane without pins: nothing is warned of, and the validator refuses the 10.01 the lane gets |
| Recompute.RecomputeThenBuild | apps/server/backend/app/services/ynab.py:546-599 | and is then built: exact, and signed like the total |
| Recompute.MaterializeArrangement | apps/server/backend/app/services/category_resolution.py:86-120 | usable exactly for known categories, amounts re-divided to the exact milliunit, an error exactly on a negative total |
| Recompute.MaterializedProportions | apps/server/backend/app/services/category_resolution.py:86-120 | its splits are in proportion to the learned weights that are there and positive, even when there is none |
| Recompute.MaterializedPasses | apps/server/backend/app/services/category_resolution.py:107-113 | a materialized split over a positive total passes the money checks |
| PullPush.PullPushKeepsMoney | apps/server/backend/app/services/reconciliation.py:126-172 | pull then push gives amount and split amounts back exactly when the splits add up to the amount |
| PullPush.UnbalancedIsNotBuilt | apps/server/backend/app/services/reconciliation.py:126-172 | a concrete transaction whose adopted payload is never built |
| PullPush.OppositeSplitTurnsRound | apps/server/backend/app/services/reconciliation.py:126-172 | a concrete transaction whose adopted payload is built with its split's sign turned round |
| PullPush.AdoptedPassesExactly | apps/server/backend/app/services/reconciliation.py:215-227 | an adopted payload passes the money checks exactly when the amount is not zero, the splits have categories and their sizes sum; balanced splits always sum |
| PullPush.PulledAmounts | apps/server/backend/app/services/reconciliation.py:146-171 | every split comes back with its amount, category and memo |
| PushBack.PullPushSettles | apps/server/backend/app/services/reconciliation.py:55-99 | after the pull is pushed back, the next reconciliation sees no drift exactly when every active split carried an id and no lone split sits under a foreign top-level category |
| PushBack.PushedBackIsUnchanged | apps/server/backend/app/services/ynab.py:435-469 | pushing back what was pulled changes nothing in YNAB when every active split has an id |
| PushBack.PushGrowsByNameless | apps/server/backend/app/services/ynab.py:452-467 | the active splits grow by exactly those that carried no id |
| PushBack.NamelessSplitDrifts | apps/server/backend/app/services/ynab.py:455-459 | a concrete transaction that does not drift before the push, is doubled by it, drifts afterwards, and cannot be built from the next pull |
| PushBack.LoneSplitKeepsDrifting | apps/server/backend/app/services/reconciliation.py:63-73 | a concrete transaction that the push leaves unchanged and that drifts after every pull and push |
| PullPush.MixedIsNotAdopted | apps/server/backend/app/services/reconciliation.py:133-145 | inflows beside outflows leave the payload unchanged |
| PullPush.DriftMeans | apps/server/backend/app/services/reconciliation.py:55-99 | drift is another amount, with several splits other amounts or categories in any order, without splits another category |
| SubtransactionMerge.MergeSubtransactions | apps/server/backend/app/services/ynab.py:452-467 | the two loops build the specified rows |
| SubtransactionMerge.BuildUpdate | apps/server/backend/app/services/ynab.py:435-469 | split rows for a split payload, an empty list to clear the splits for a single category, otherwise none |
| SubtransactionMerge.UpdateLeavesDesiredAndNameless | apps/server/backend/app/services/ynab.py:435-469 | for any lengths, the active splits afterwards are the desired ones plus those that carried no id |
| SubtransactionMerge.MergeMatchesExactly | apps/server/backend/app/services/ynab.py:472-482 | the structure check after the update of a built payload succeeds exactly when it has no splits or every active split carried an id |
| SubtransactionMerge.SingleStructureMeans | apps/server/backend/app/services/ynab.py:472-482 | for a single category the structure check asks for no active split and the payload's category |
| SubtransactionMerge.NamelessSplitSurvives | apps/server/backend/app/services/ynab.py:455-459 | one nameless split, and every payload with splits fails the check |
| MemoMarker.StripUndoesAppend | apps/server/backend/app/services/ynab.py:234-247 | stripping undoes appending for every memo without a marker opening |
| MemoMarker.AppendTwice | apps/server/backend/app/services/ynab.py:234-241 | appending twice is appending once, for every memo and id |
| MemoMarker.AppendedIsTrimmed | apps/server/backend/app/services/ynab.py:234-241 | the appended memo contains the marker and has no outer white space |
| MemoMarker.MarkerNamesOneReceipt | apps/server/backend/app/services/ynab.py:230-231 | on a memo without openings the appended marker is found for one receipt only |
| DeliveryRecords.BackoffMonotone | edge/pi-outbox-shipper/shipper/state.py:28-32 | a later attempt never waits for less, and never longer than the limit |
| DeliveryRecords.BackoffDoubles | edge/pi-outbox-shipper/shipper/state.py:28-32 | until a cap is reached the wait doubles |
| DeliveryRecords.BackoffEnds | edge/pi-outbox-shipper/shipper/state.py:114-152 | the first wait is the initial delay, the last 2^20 times it, both up to the limit |
| DeliveryRecords.FailuresAreCounted | edge/pi-outbox-shipper/shipper/state.py:114-175 | a failure counts one attempt, being sent none |
| DeliveryRecords.RetryWaits | edge/pi-outbox-shipper/shipper/state.py:114-186 | a failed file is due exactly from the end of its backoff, a sent one never |
| DeliveryRecords.DeliveryStateStore.EnsureRecord | edge/pi-outbox-shipper/shipper/state.py:75-90 | a record exists and an existing one is unchanged |
| DeliveryRecords.DeliveryStateStore.MarkRetry | edge/pi-outbox-shipper/shipper/state.py:114-152 | one more attempt, due after the backoff, other names untouched |
| DeliveryRecords.DeliveryStateStore.MarkSent | edge/pi-outbox-shipper/shipper/state.py:154-175 | sent with no retry time, attempts kept |
| DeliveryRecords.DeliveryStateStore.DueForSend | edge/pi-outbox-shipper/shipper/state.py:177-186 | due exactly when not sent and not waiting |
| EdgeTheorems.LeavesOutboxOnlyAfterDelivery | edge/pi-outbox-shipper/shipper/sender.py:77-140 | a file leaves the outbox, or is recorded as sent, only after its whole content was in incoming |
| EdgeTheorems.DeliveredIsNeverReplacedOrPartial | edge/pi-outbox-shipper/shipper/sender.py:160-168 | whatever is under a delivered name in incoming, now or later, is the whole enqueued file |
| EdgeTheorems.EveryFileIsAccountedFor | edge/pi-outbox-shipper/shipper/watcher.py:143-172 | every enqueued file waits whole in the outbox or in incoming, or was taken in and is live unless a user deleted it, softly or by confirming a duplicate; with an archive it is kept there |
| EdgeTheorems.OneReceiptPerContent | apps/server/backend/app/services/ingestion.py:109-152 | however often a file is redelivered, one content has at most one receipt row |
| EdgeTheorems.RedeliveryAddsNothing | apps/server/backend/app/services/ingestion.py:119-129 | ingesting a live content changes no receipt; otherwise one new live receipt results |
| EdgeTheorems.SentIsNotAbsorbing | edge/pi-outbox-shipper/shipper/sender.py:102-119 | a cleanup that fails after the sent mark puts the file up for another send |
| EdgeTheorems.DeliveryCanAlwaysComplete | edge/pi-outbox-shipper/shipper/sender.py:48-111 | from every reachable state a restart and an undisturbed pass get a file out of the outbox |
| EdgeDelivery.RunKeeps | edge/pi-outbox-shipper/shipper/sender.py:77-140 | files, staging, marks, receipts and archive invariants survive every run with failures and crashes |
| OutboxSender.RsyncSender.SendOne | edge/pi-outbox-shipper/shipper/sender.py:77-126 | is a run of the protocol; succeeds exactly when no needed command fails, and is then delivered, marked and removed; a failure is one more attempt with its backoff |
| OutboxSender.RsyncSender.Attempt | edge/pi-outbox-shipper/shipper/sender.py:80-101 | gets to the end exactly when no command it needs fails, and copies nothing when the file is seen at the other end |
| OutboxSender.RsyncSender.SendAvailable | edge/pi-outbox-shipper/shipper/sender.py:48-75 | every listed file is tried exactly when due, with the stated effect of its turn; the counts are the turns', and after a full pass nothing listed is left to do now |
| StabilityScan.IngestionScanner.ScanOnce | apps/server/backend/app/services/ingestion.py:45-98 | every path follows the stability machine, and exactly the due ones are handed on |
| StabilityScan.TakenWasStable | apps/server/backend/app/services/ingestion.py:59-85 | a file is taken only after one size in every scan since one that is old enough, in as many aged scans as asked for |
| StabilityScan.SteadyIsTaken | apps/server/backend/app/services/ingestion.py:59-85 | a file that keeps its size through enough aged scans is taken by then |
| YnabTheorems.EveryRunKeepsOnePerAccount | apps/server/backend/app/services/ynab.py:617-669 | all through any run an account holds at most one live transaction per import id exactly when no step makes a colliding move; where YNAB refuses those, always |
| YnabTheorems.StepKeepsOneExactly | apps/server/backend/app/services/ynab.py:672-882 | whatever YNAB does, a step keeps that exactly when it does not move a transaction beside another of its receipt |
| YnabTheorems.OnePerAccountUnlessDoubled | apps/server/backend/app/services/ynab.py:1136-1346 | so does every run without such a move |
| YnabLedger.CreateKeepsOne | apps/server/shared/receipt_shared/ynab_client.py:100-109 | a create keeps one transaction per account exactly when no live one conflicts |
| YnabLedger.PutKeepsOne | apps/server/backend/app/services/ynab.py:718-733 | an update keeps it exactly when the account holds no other of the same receipt |
| YnabLedger.MovingCanDouble | apps/server/backend/app/services/ynab.py:1312-1321 | forced creates on two accounts and an update that moves one make two on one account |
| YnabTheorems.EveryCreatedIdWasTheReceipts | apps/server/backend/app/services/ynab.py:640-669 | every stored created id was written by the last commit of one worker, and named a live transaction with the receipt's import id or marker at a moment between that worker's claim and that commit |
| YnabTheorems.SyncedMeansSomeSuccess | apps/server/backend/app/services/ynab.py:960-977 | all through any run a synced receipt has a successful sync row exactly when no commit takes the last one from under a receipt it leaves synced |
| YnabTheorems.SyncedUnlessStale | apps/server/backend/app/services/ynab.py:960-977 | so it is in every run whose workers commit only on statuses nobody changed since they were read |
| YnabReceipts.StepKeepsSyncedExactly | apps/server/backend/app/services/ynab.py:1225-1240 | every step of workers, users and the reset keeps it exactly when it is not such a commit |
| YnabReceipts.OnlyStaleReadsLose | apps/server/backend/app/services/ynab.py:1225-1240 | such a commit comes from a worker that read a status somebody else has changed since |
| YnabScenarios.StaleReadLosesSuccess | apps/server/backend/app/services/ynab.py:1185-1240 | two workers on one draft read it as syncing and failed, one syncs, the other claims: a reachable synced receipt without a success |
| YnabTheorems.StepKeepsTransactions | apps/server/backend/app/services/ynab.py:485-517 | workers never delete a transaction and nobody changes an import id |
| YnabTheorems.ImportIdsAreForever | apps/server/backend/app/services/ynab.py:439-440 | over a whole run a transaction keeps its import id |
| YnabTheorems.RetriedCreateFindsTheFirst | apps/server/backend/app/services/ynab.py:1312-1321 | a create after a crash or by force adds nothing while the first transaction lives, and its conflict resolves only to carriers of the receipt |
| YnabScenarios.UnguardedRunsCanDouble | apps/server/backend/app/services/ynab.py:1305-1321 | unless YNAB refuses moves, two forced syncs on two accounts and an update that moves back end with two live transactions of one receipt on one account |
| YnabScenarios.ForcedCreateSucceeds | apps/server/backend/app/services/ynab.py:867-882 | undisturbed, a forced sync creates one transaction, stores its id in a successful row and leaves the receipt synced |
| YnabScenarios.UpdateSyncMoves | apps/server/backend/app/services/ynab.py:672-735 | undisturbed, a sync after a success updates the transaction in place and moves it to the draft's account |
| YnabOutcomes.VerifiedWritesNothing | apps/server/backend/app/services/ynab.py:1276-1293 | a claimed worker whose row names a live transaction writes nothing to YNAB after verifying |
| YnabOutcomes.RepeatedSyncEndsWithIt | apps/server/backend/app/services/ynab.py:1276-1293 | a repeated sync of a created transaction ends with it: YNAB unchanged, row a success that names it, receipt synced |
| YnabOutcomes.GoneIsForgotten | apps/server/backend/app/services/ynab.py:1294-1302 | a created transaction that is gone is forgotten, even by a sync that then fails |
| YnabOutcomes.SyncEnds | apps/server/backend/app/services/ynab.py:960-996 | the ends of a sync in row and receipt: synced, to review, failed, or a dry run without ids; nothing else is touched |
| YnabOutcomes.DeletedIsNotRecreated | apps/server/backend/app/services/ynab.py:737-750 | a synced transaction the user deleted is not made again; the receipt goes to review |
| YnabOutcomes.NoCreateAfterSuccess | apps/server/backend/app/services/ynab.py:1305-1321 | a worker that found an earlier success and is not forced never creates and never matches |
| YnabOutcomes.StartFindsTheSuccess | apps/server/backend/app/services/ynab.py:1158-1166 | a worker finds an earlier success exactly when a row of the receipt is one, and takes its created or else matched transaction |
| YnabOutcomes.FreshRowsAreSkipped | apps/server/backend/app/services/ynab.py:1199-1223 | a young running row can only be left, any other may be taken |
| YnabOutcomes.ClaimKeepsOthersOut | apps/server/backend/app/services/ynab.py:1225-1240 | after a claim no other worker takes the row before the timeout |
| YnabOutcomes.RestartResetsTheStuck | apps/server/backend/app/main.py:29-85 | the reset fails rows running too long and reopens receipts syncing too long, and nothing else |
| YnabOutcomes.CreatedSays | apps/server/backend/app/services/ynab.py:640-669 | a created transaction is on the draft's account with the receipt's import id and marker |
| YnabOutcomes.UpdatedSays | apps/server/backend/app/services/ynab.py:672-882 | an update moves to the draft's account and marks; over user data it only marks |
| YnabOutcomes.LostCreateIsUnknown | apps/server/backend/app/services/ynab.py:640-669 | a create whose answer is lost has made the transaction; the failing sync stores no id |
| YnabOutcomes.DraftDecides | apps/server/backend/app/api/receipts.py:1078-1160 | a changed draft is never left synced, a duplicate goes to review |
| YnabOutcomes.RestoredToSynced | apps/server/backend/app/api/receipts.py:1612-1683 | a receipt is restored to synced exactly over a success whose structure YNAB took |
| YnabRuns.RunKeeps | apps/server/backend/app/services/ynab.py:1136-1346 | the protocol's invariant survives every interleaving |
| YnabRuns.ClaimsKeeps | apps/server/backend/app/services/ynab.py:1225-1240 | claiming or taking over a row keeps the invariant, whatever statuses the commit leaves unwritten |
| YnabRuns.SettleKeeps | apps/server/backend/app/services/ynab.py:960-996 | so does the last commit of a worker |
| YnabReceipts.ClaimKeepsSyncedExactly | apps/server/backend/app/services/ynab.py:1225-1240 | the claim leaves a synced receipt without a success exactly when its status write is left out, the row is overwritten, and no other row is a success |
| YnabReceipts.SettleKeepsSyncedExactly | apps/server/backend/app/services/ynab.py:960-996 | the last commit of a worker does so exactly when the statuses it leaves are a synced receipt over an unsuccessful row, and no other row is a success |
| YnabRuns.RestartKeeps | apps/server/backend/app/main.py:29-85 | the reset at start-up keeps the invariant |
| DuplicateGraph.ReceiptTable.ApplySemanticDuplicateState | apps/server/backend/app/services/duplicates.py:133-278 | the table afterwards is the specified one, a pointer is set exactly with the review status, and the report counts the matches and says when they are only near |
| DuplicateGraph.ReceiptTable.Candidates | apps/server/backend/app/services/duplicates.py:153-225 | the live matches not under review, by signature or else by payee, date and total, first ingested first |
| DuplicateGraph.CheckedPoints | apps/server/backend/app/services/duplicates.py:231-266 | the target is the first candidate of the same kind, and the only one |
| DuplicateGraph.CheckedIs | apps/server/backend/app/services/duplicates.py:133-278 | under review with a pointer to the first live twin of the same kind, exactly when there is one and this signature is not overridden; else the pointer goes and only the review status is taken back; a stale override is dropped |
| DuplicateGraph.MatchesOfAre | apps/server/backend/app/services/duplicates.py:153-225 | the matches are the live twins of either kind, or without a time of day those of the same payee, date and total |
| DuplicateRuns.RequestsNeverCycle | apps/server/backend/app/api/receipts.py:1078-1160 | draft saves, overrides, sync requests and deletes make no cycle, and a pointer means duplicate review, unless a request whose enqueue failed writes over a pointer |
| DuplicateRuns.PointersNeverCycle | apps/server/backend/app/api/receipts.py:1612-1683 | no run makes a cycle in which neither a worker nor a failed enqueue writes a status over a pointer |
| DuplicateRuns.StepKeepsReviewExactly | apps/server/backend/app/services/ynab.py:966-975 | exactly a blind status write over a pointer, a worker's or a failed enqueue's, breaks the rule that a pointer means duplicate review; any other step keeps the graph free of cycles |
| DuplicateRuns.ReviewIsKeptExactly | apps/server/backend/app/services/duplicates.py:231-266 | a pointer means duplicate review all through a run exactly when no step of it writes a status over a pointer |
| DuplicateRuns.RaceMakesACycle | apps/server/backend/app/services/ynab.py:966-975 | a race, for any two different complete payloads and any blind status write, that ends in a cycle of two |
| DuplicateRuns.LostRequestMakesACycle | apps/server/backend/app/api/receipts.py:1765-1797 | draft saves and one sync request whose enqueue fails end in a cycle, without a worker |
| DuplicateRuns.PointingClosesCycleExactly | apps/server/backend/app/services/duplicates.py:255-266 | whatever the check had seen, setting a pointer closes a cycle exactly when its target leads back by then |
| DuplicateRuns.StepKeepsNoCycleExactly | apps/server/backend/app/services/duplicates.py:203-278 | every step, reviewed pointers or not, keeps the graph free of cycles exactly when the pointer it leaves its receipt with did not lead back to it |
| DuplicateRuns.RunsCycleExactly | apps/server/backend/app/services/duplicates.py:203-278 | a run has no cycle all through exactly when no step of it points back |
| DuplicateRuns.SavesAtOnceMakeACycle | apps/server/backend/app/services/duplicates.py:203-278 | two equal drafts checked on the same table and then both stored point at each other |
| DuplicateRuns.CheckedEdge | apps/server/backend/app/services/duplicates.py:203-278 | a new pointer leads to another receipt that has none |
| DuplicateRuns.OneNewEdgeKeepsNoCycle | apps/server/backend/app/models.py:43-47 | one edge to a receipt without a pointer closes no cycle |
| DuplicateRuns.PointersNeverDangle | apps/server/backend/app/models.py:43-47 | over every run, deletes included, a pointer leads to a receipt that is there |
| DuplicateRuns.OverrideLasts | apps/server/backend/app/services/duplicates.py:189-201 | an override holds whatever happens to other receipts, until the receipt has another complete signature |
| DuplicateRuns.DraftReopens | apps/server/backend/app/api/receipts.py:1078-1160 | a changed draft reopens a settled receipt, a valid one a failed extraction, and an invalid one is no duplicate |
| DuplicateRuns.RequestClaims | apps/server/backend/app/api/receipts.py:1700-1785 | past the draft's own gates, a sync is claimed exactly for a live receipt without a duplicate to review |
| WorkspaceReconcile.ReconcileWorkspace | apps/server/backend/app/services/allocation_workspace.py:193-292 | the loops compute the specified lanes, assignments and warnings |
| WorkspaceReconcile.Reassign | apps/server/frontend/src/lib/allocation-workspace.ts:123-147 | the backend's loops give the assignments of the frontend's filter, map and push |
| WorkspaceReconcile.ReconcileTwice | apps/server/backend/app/services/allocation_workspace.py:193-292 | reconciling twice is reconciling once: assignments, lanes with pins, warnings |
| WorkspaceReconcile.LanesOfDraft | apps/server/backend/app/services/allocation_workspace.py:193-292 | one lane per split with its category, or the main one, and the unassigned lane last; new lanes are pinned to the draft's amounts |
| WorkspaceReconcile.PinsSurvive | apps/server/backend/app/services/allocation_workspace.py:211-249 | a split lane keeps its pin, the main lane only while it is the total to the cent, the unassigned lane has none |
| WorkspaceReconcile.StaleOncePerChange | apps/server/backend/app/services/allocation_workspace.py:279-292 | one stale warning for every change of the twin, other warnings kept |
| WorkspaceReconcile.ReconciledFits | apps/server/backend/app/services/allocation_workspace.py:262-277 | afterwards every item is assigned, and every assignment is of an item and on an expected lane |
| WorkspaceReconcile.SingleSplitSingle | apps/server/backend/app/services/allocation_workspace.py:251-260 | single to split to single restores every assignment |
| WorkspaceReconcile.SplitSingleSplit | apps/server/backend/app/services/allocation_workspace.py:251-260 | split to single to split keeps the first split's items and unassigns the rest: none moves to another split |
| WorkspaceReconcile.MoveStaysReconciled | apps/server/frontend/src/lib/allocation-workspace.ts:176-191 | moving items to an expected lane survives the next reconcile, and moves nothing else |
| WorkspaceReconcile.ReconciledRecomputeIsExact | apps/server/backend/app/api/receipts.py:1555-1565 | reconcile then recompute gives one row per split, exact unless a pin warning says otherwise |
| YearCompletion.CompletesToLatestPast | apps/server/backend/app/services/date_resolution.py:55-66 | the completed date is the latest with that month and day not after ingest; none exactly when no such date exists |
| YearCompletion.AlwaysCompletes | apps/server/backend/app/services/date_resolution.py:55-66 | from year 9 on every month and day that exist in some year are completed |
| YearCompletion.NineYearsAreNeeded | apps/server/backend/app/services/date_resolution.py:55-66 | across 1900 the last 29 February is eight years back, and a scan one year shorter finds none |
| YearCompletion.CalendarIs | apps/server/backend/app/services/date_resolution.py:48-52 | the calendar of the years 1 to 9999, by the first day of every month and the 400-year cycle |

## Left out

- The pass balance after a rebuild: the code zeroes the earned count and keeps the old events, so the balance is not preserved and nothing is claimed about it.
- The legacy global douse without a week: modelled only as far as it touches water and its own counter.
- The debug seed and its event floors: state written by hand.
- Time zones and daylight saving: weeks are indices.
- Binary floating point and 28-digit rounding: amounts and weights are exact.
- MoneyPath.ValidateMoney: the money checks only; required fields, categories and accounts belong to the contract parser and the reference checks.
- MoneyPath.BuildTransaction: payee, date, top-level memo, flags and import id are not part of the built value; the memo marker and the import id are modelled on their own.
- The first assignment of a new workspace: a greedy heuristic without a promise to prove; the reconcile lemmas start from any existing workspace.
- Recompute.DivideTotal: lane ids are distinct, which the workspace type itself does not enforce; both callers build them so (api/receipts.py:1555-1565 by reconciling, services/payee_memory.py:185-248 by numbering).
- Recompute.RecomputePayload: lane ids are distinct as above; versions and timestamps of the workspace are not modelled.
- DuplicateGraph.ReceiptTable.ApplySemanticDuplicateState: the wording of the status reasons and notes.
- PushBack.PullPushSettles: the top-level category YNAB keeps on a split transaction is an input, not predicted.
- Matching by amount, date and payee: which transaction matches is free, so two receipts may match the same one.
- Mutual exclusion of workers on rows that failed or were dry runs: the claim guards only running rows.
- DuplicateRuns.RequestClaims: the gates of a sync request on payee, date and twin confirmation come before it and are not modelled.
- YnabTheorems.SyncedMeansSomeSuccess: status writes of extraction and reconciliation are outside the protocol.
- DuplicateRuns.PointersNeverCycle: the same, and the guard on successful syncs in soft deletes is left out, which allows more steps.
- Bookkeeping after a sync: gamification, card and payee memory run after the final commit and cannot fail it.
- A crash inside the ingestion of one file, between the move and the commit: treated as one step, since the code gives no recovery there.
- The inbox watcher's own stability check and file naming: names are taken to be new.
- Reading a date from free text and its confidence marks: only the completion of the year has a property of its own.
- The AI gateway, prompts and extraction, HTTP routes, queues, SQL, ssh and rsync command lines, and the user interface.
