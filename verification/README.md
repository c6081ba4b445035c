# Verified models of the client's core

This project models the parts of the desktop proxy client (Go backend, Vue frontend) whose behaviour is hard to see from one
function at a time, and proves what they keep over whole runs. There is one module per component.

| modules | what they model |
|---|---|
| `SudokuGrid`, `SudokuMasks`, `SudokuSolver`, `SudokuGenerator` (with `Arith`, `Bits`) | the puzzle engine: bit masks kept in step with a mutable board, the fewest-candidates search, bounded solution counting, carving |
| `Shuffling`, `SudokuPaths` | the random source and the shuffle; which grids and puzzles the engine arrives at with which draws, and that it can arrive at every one |
| `SudokuGame`, `SudokuConflicts` | the game: undo/redo history, notes, hints, the solved mark, the conflict map |
| `LinuxRoutes`, `RoutePolicy`, `RouteRecovery`, `RouteRetries`, `TunHelper` | the privileged tunnel helper on Linux: shell batches over the machine's routing state, where packets go afterwards, lines that fail unnoticed, the crash journal, every step a possible crash |
| `StartStop`, `ProxySession`, `TunClient` | concurrent starts and stops, the session state under tunnel events, the request/reply link to the helper |
| `SystemProxy`, `AppJournal` | the macOS system proxy and the app's own crash journal |
| `Traffic`, `UsageHistory`, `TrafficChart` | the direct/proxy traffic split, the per-day history, the chart's monotone curve |
| `NodeNames`, `LineWriter` | outbound names and the way back to nodes; splitting a byte stream into lines |
| `Options`, `Strings` | shared helpers |

Conventions. A board is a sequence of `size * size` integers, 0 for blank, where `size` is any square `k * k` with
`k * k <= 30` (so that `1 << size` fits a 32-bit mask); the application offers 4 and 9. The random source is
any stream of draws. Failures, timeouts and cancellations are inputs of each operation, about which nothing is assumed, so that
its outcome is stated exactly. Concurrency is modelled as interleaved steps (`StartStop`, `TunClient`) or as
interference between the statements of an operation (`ProxySession`). `trail` fields list every state that a crash
could expose.

Some intended properties do not hold of the code on all inputs. Each item names lemmas with failing cases, then the
ones with the exact condition:

- After a win, undo leaves an unsolved game that takes no digits and no hints: `SudokuGame.UndoAfterSolvedLocksTheGame`,
  reached as in `SudokuGame.LockIsReachable`; condition `SudokuGame.UnsolvedGameIsOpenIff`. A redo while the next game is
  being generated leaves even that next game locked: `SudokuGame.LateRedoLocksTheNewGame`; condition
  `SudokuGame.NewGameIsOpenIff`.
- Switching the tunnel on while it is already running can end with a tunnel that is flagged as running but not wanted:
  `ProxySession.SwitchingOnARunningTunnelCanLoseTheRequest`; condition `ProxySession.ApplyTunKeepsRunningIff`.
- A teardown that reports success may have skipped lines, because every one of them is masked; the helper then stops
  the tunnel process and drops its journal all the same: `RouteRecovery.SkippedRuleStays`,
  `RouteRecovery.SkippedCopyLosesTheBackup`; conditions `RouteRecovery.SkippingMattersIff` for one run,
  `RouteRetries.RunsLeadThereIff` for retries, and `TunHelper.StepMovesIff` for every step of a whole life. If plans fit
  the machine and no line with work to do is skipped, nothing is lost in any life (`TunHelper.Lifetime`).
- Teardown removes what was there before setup (`LinuxRoutes.OwnRuleIsTornDown`) and cannot bring back a `resolv.conf`
  that was overwritten after its backup had failed (`LinuxRoutes.UnbackedOverwriteStays`); condition
  `RouteRecovery.SetupThenTeardownIff`. A second teardown deletes a second equal firewall rule
  (`LinuxRoutes.SecondTeardownDeletesAgain`); condition `RouteRetries.SecondRunChangesNothingIff`.
- A captured macOS proxy entry that is enabled with an empty server or an impossible port comes back enabled and
  pointing at the app (`SystemProxy.StuckEntryPointsAtTheApp`), one that pointed at the app before the run comes back
  switched off (`SystemProxy.OwnEntryIsSwitchedOff`), and a set that stops right after switching automatic configuration
  off leaves it off for good (`SystemProxy.AutoStaysOff`); conditions `SystemProxy.RoundTripIff` and
  `SystemProxy.SetPrefixUndoneIff`.
- A node whose ID is `@balance` is read back as its own ID, which selects the group instead:
  `NodeNames.NodeWithGroupIDIsNotSelected`; condition `NodeNames.ReadingSelectsSame`. (Reading inverts naming for every
  node; the empty ID just reads like "not found".)
- How a stream is cut into writes matters as soon as some line is, once trimmed, more than one byte over 64 KiB:
  `LineWriter.LongLineCanBreak`; condition `LineWriter.CutsDoNotMatterIffShort`.

## Model

| member | source | states |
|---|---|---|
| SudokuGrid.FillingsComplete | frontend/src/sudoku/engine.ts:153-194 | the finite set that "number of solutions" counts over contains every board with digits in range, and nothing else |
| SudokuGrid.CompletionsExact | frontend/src/sudoku/engine.ts:153-194 | a grid is a completion of a board iff it is full, in range, clash-free and keeps every clue |
| SudokuGrid.CompletionsWithValue | frontend/src/sudoku/engine.ts:183-189 | the completions after filling a blank with v are exactly the completions that have v there |
| SudokuGrid.CompletionsMonotone | frontend/src/sudoku/engine.ts:216-226 | removing clues only enlarges the set of completions |
| SudokuGrid.CompletionsUseCandidates | frontend/src/sudoku/engine.ts:87-93 | every completion puts one of a blank's candidates there, so a blank without candidates has none |
| SudokuGrid.CandidateKeepsConsistent | frontend/src/sudoku/engine.ts:143-144 | placing a candidate in a blank causes no clash |
| SudokuGrid.FullBoardIsItsOnlyCompletion | frontend/src/sudoku/engine.ts:178-181 | a full clash-free board has exactly one completion, itself |
| SudokuGrid.CellInUnits | frontend/src/sudoku/engine.ts:74-76 | the row, column and box of the cell at row r and column c, for every size |
| Bits.DropLowestDropsOne | frontend/src/sudoku/engine.ts:41 | `v & (v - 1)` removes the lowest member of a nonempty mask and nothing else |
| Bits.PopCount | frontend/src/sudoku/engine.ts:37-45 | the loop counts the members of a mask |
| Bits.MaskToValues | frontend/src/sudoku/engine.ts:47-53 | the listed values are exactly the mask's members from 1 to size, in increasing order |
| Bits.SetThenClear | frontend/src/sudoku/engine.ts:101-114 | clearing a bit that was clear before it was set gives the old mask back |
| Bits.HasFull | frontend/src/sudoku/engine.ts:88 | the full mask holds exactly the digits 1 to size |
| Bits.HasToggle | frontend/src/components/SudokuGame.vue:195-197 | toggling a note changes that digit's membership and no other |
| SudokuMasks.ExactAfterPlace | frontend/src/sudoku/engine.ts:95-104 | if bit v of a unit's mask is set iff some cell of the unit holds v, this still holds for every unit and value after placing a digit |
| SudokuMasks.ExactAfterAppend | frontend/src/sudoku/engine.ts:69-83 | the same as the initial masks grow cell by cell |
| SudokuMasks.Masks.CandidateMaskExact | frontend/src/sudoku/engine.ts:87-93 | with exact masks, the candidate mask of a blank is the set of digits that none of its peers holds |
| SudokuSolver.InitMasks | frontend/src/sudoku/engine.ts:61-85 | null iff some value is out of range or two peers clash; otherwise all three mask arrays are exact |
| SudokuSolver.Place | frontend/src/sudoku/engine.ts:95-104 | the new board and the three new mask arrays |
| SudokuSolver.Unplace | frontend/src/sudoku/engine.ts:106-115 | the new board and the three new mask arrays |
| SudokuSolver.UnplaceUndoesPlace | frontend/src/sudoku/engine.ts:185-187 | for a candidate of a blank, unplace after place restores every mask |
| SudokuSolver.ChooseCell | frontend/src/sudoku/engine.ts:163-181 | reports a blank without candidates, or that the board is full, or the first blank with the fewest candidates (with the early stop at one) together with its exact candidates |
| SudokuSolver.BelowNext | frontend/src/sudoku/engine.ts:183-189 | the completions split disjointly over the values of the chosen cell |
| SudokuSolver.SolutionCounter.Search | frontend/src/sudoku/engine.ts:160-190 | adds exactly the number of completions, capped at the limit, and restores board and masks on every exit |
| SudokuSolver.CountSolutions | frontend/src/sudoku/engine.ts:153-194 | min(limit, number of completions) for every board and limit, malformed boards included; the board is not touched |
| SudokuSolver.OnlyConsistentBoardsComplete | frontend/src/sudoku/engine.ts:156-157 | a board with a clash or a value out of range has no completion, so answering 0 is right |
| Shuffling.Random.RandInt | frontend/src/sudoku/engine.ts:16-25 | the next draw reduced below the bound; 0, and no draw, for a bound that is not positive |
| Shuffling.ShuffleInPlace | frontend/src/sudoku/engine.ts:27-35 | the array is, draw for draw, the shuffle of what it was; the draws taken are one fewer than the elements |
| Shuffling.ShuffleIsPermutation | frontend/src/sudoku/engine.ts:27-35 | whatever is drawn, a shuffle is a permutation |
| Shuffling.EveryOrderIsPossible | frontend/src/sudoku/engine.ts:27-35 | every permutation comes out of some draws, none of them larger than the number of elements |
| SudokuSolver.BranchValues | frontend/src/sudoku/engine.ts:140-141 | the candidates, each once, in increasing order or in exactly the order the shuffle gives them |
| SudokuSolver.SolveSearch | frontend/src/sudoku/engine.ts:122-148 | true: the board is now a completion of what it was; false: there is none, and board and masks are as before; if the randomized first choices lead to a full grid, that is the grid and their draws are the ones used |
| SudokuSolver.SomeBranchCompletes | frontend/src/sudoku/engine.ts:142-147 | if every candidate fails, the board has no completion, whatever the order tried |
| SudokuSolver.SolveOne | frontend/src/sudoku/engine.ts:117-151 | null iff there is no completion; otherwise a completion, namely the one the randomized first choices lead to if they lead to one; the board is filled or left alone accordingly |
| SudokuPaths.EverySolutionIsPossible | frontend/src/sudoku/engine.ts:117-151 | whichever completion a board has, with some draws the randomized search arrives there |
| SudokuGenerator.EmptyBoardCompletes | frontend/src/sudoku/engine.ts:208-210 | for every k, the empty k²×k² board has a completion, so solving it never fails |
| SudokuGenerator.StaysNecessary | frontend/src/sudoku/engine.ts:222-226 | a clue whose removal was rejected stays necessary however many further clues are removed |
| SudokuGenerator.SolutionStays | frontend/src/sudoku/engine.ts:220-223 | blanking a clue keeps the solution among the completions, and as the only one iff the count is 1 |
| SudokuGenerator.TryBlank | frontend/src/sudoku/engine.ts:218-226 | the clue is blanked and the solution still unique, or it is back and necessary |
| SudokuGenerator.Carve | frontend/src/sudoku/engine.ts:212-227 | the solution stays the only completion; exactly `removed` cells are blank; short of the target the puzzle is irreducible; whichever first cells of the shuffled order, up to the target, can all go together are blank |
| SudokuGenerator.ShuffledIndices | frontend/src/sudoku/engine.ts:214 | every cell index exactly once, in exactly the order the shuffle gives them |
| SudokuGenerator.CluesAndBlanks | frontend/src/sudoku/engine.ts:201-202 | clues and blanks add up to the number of cells, so removed cells and clue targets agree |
| SudokuGenerator.Attempt | frontend/src/sudoku/engine.ts:208-227 | one attempt always delivers a uniquely solvable, correctly carved puzzle, following its draws: the grid of the first choices, carved in shuffled order |
| SudokuGenerator.BestAttempt | frontend/src/sudoku/engine.ts:204-240 | at most six attempts, all well carved, none but the last reaching the target; the result is the first that removed the most |
| SudokuGenerator.Generate | frontend/src/sudoku/engine.ts:196-241 | the puzzle has exactly one completion, the returned solution; it has the target number of clues, or more and is then irreducible; it is the first of the attempts behind it that removed the most |
| SudokuGenerator.EveryPuzzleCanComeOut | frontend/src/sudoku/engine.ts:208-227 | whichever puzzle has one completion and the asked number of blanks, or fewer blanks and no clue to spare, some draws make it the result of an attempt |
| SudokuGenerator.EveryPuzzleCanBeDelivered | frontend/src/sudoku/engine.ts:196-241 | whichever puzzle of an offered size has one completion and exactly the clues asked for, some draws make it the one delivered |
| SudokuGenerator.ClueTargets | frontend/src/sudoku/engine.ts:1-14 | the clue targets by size and difficulty, and the sizes offered |
| SudokuGame.ReplayFits | frontend/src/components/SudokuGame.vue:113-126 | replaying an honest history on a puzzle leaves clues alone, digits legal and filled cells without notes |
| SudokuGame.StepBack | frontend/src/components/SudokuGame.vue:128-133 | undo leads to the puzzle with one action fewer replayed |
| SudokuGame.StepForward | frontend/src/components/SudokuGame.vue:135-140 | redo leads to the puzzle with one action more replayed |
| SudokuGame.DoKeepsSound | frontend/src/components/SudokuGame.vue:113-126 | pushing and applying an honest action, dropping the redo tail, keeps the invariant |
| SudokuGame.EnterKeepsSound | frontend/src/components/SudokuGame.vue:188-212 | typing, erasing and noting keep the invariant |
| SudokuGame.HintKeepsSound | frontend/src/components/SudokuGame.vue:237-261 | a hint keeps the invariant |
| SudokuGame.HappensKeepsSound | frontend/src/components/SudokuGame.vue:128-289 | every event keeps the invariant, and only a new game changes puzzle and solution |
| SudokuGame.EveryReachableGameIsSound | frontend/src/components/SudokuGame.vue:113-289 | in every state of every run, cells and notes are the puzzle with the first historyPtr actions applied, clues are untouched, digits legal, filled cells without notes |
| SudokuGame.UndoThenRedo | frontend/src/components/SudokuGame.vue:128-140 | undo then redo is the identity |
| SudokuGame.RedoThenUndo | frontend/src/components/SudokuGame.vue:128-140 | redo then undo is the identity |
| SudokuGame.UndoAllGivesThePuzzle | frontend/src/components/SudokuGame.vue:128-133 | undoing everything gives the bare puzzle back |
| SudokuGame.RedoRevertsUndo | frontend/src/components/SudokuGame.vue:128-140 | after any number of undos, as many redos give the same game |
| SudokuGame.SolvedIffFullAndClashFree | frontend/src/components/SudokuGame.vue:102-108 | equality with the stored solution is the same as a full board without a clash |
| SudokuGame.HintPoolIsRight | frontend/src/components/SudokuGame.vue:239-249 | a hint is about a wrong cell, and none is left exactly when the game is solved |
| SudokuGame.HintCorrectsOneCell | frontend/src/components/SudokuGame.vue:251-257 | a hint corrects exactly the cell it picks |
| SudokuGame.HintStepLowersDistance | frontend/src/components/SudokuGame.vue:237-261 | each hint lowers the number of wrong cells by one |
| SudokuGame.HintPossibleUntilSolved | frontend/src/components/SudokuGame.vue:248-249 | until the game is solved there is a hint to give |
| SudokuGame.HintsFinish | frontend/src/components/SudokuGame.vue:237-261 | hints alone solve the game after exactly as many hints as there were wrong cells, however they choose |
| SudokuGame.UndoAfterSolvedLocksTheGame | frontend/src/components/SudokuGame.vue:128-133 | after a win and one undo, digits and hints do nothing although the game is not solved; redo still works |
| SudokuGame.DigitIsRecorded | frontend/src/components/SudokuGame.vue:178-212 | a digit typed into a cell is recorded in the history exactly if the cell can be edited |
| SudokuGame.DigitInOpenCell | frontend/src/components/SudokuGame.vue:188-222 | what a digit or the eraser does to an editable cell: with notes mode on and the cell blank, that digit's note flips; otherwise the digit becomes the value, the digit already there and the eraser clear the cell, and its notes go; no other cell or note changes |
| SudokuGame.DigitInClosedCell | frontend/src/components/SudokuGame.vue:189 | a cell that cannot be edited takes nothing |
| SudokuGame.EditableIff | frontend/src/components/SudokuGame.vue:178 | in a sound game a cell can be edited iff it is no clue, the cells are not the solution, the mark is not set and no game is being generated |
| SudokuGame.ResetResult | frontend/src/components/SudokuGame.vue:224-235 | a reset gives cells equal to the puzzle, no notes, no history and no mark; only while generating nothing happens |
| SudokuGame.HintsFillFirst | frontend/src/components/SudokuGame.vue:239-249 | a hint may be about a cell iff it is wrong and, if it is filled, no cell is empty |
| SudokuGame.HintResult | frontend/src/components/SudokuGame.vue:251-257 | a hint writes the solution's digit into its cell, clears the notes there and touches nothing else |
| SudokuGame.MarkedIff | frontend/src/components/SudokuGame.vue:371-375 | after the watcher the mark is set iff it was or the cells are the solution; nothing else changes |
| SudokuGame.AskedGame | frontend/src/components/SudokuGame.vue:263-268 | asking for a game clears the mark and waits, unless one is already being generated |
| SudokuGame.DeliveredGame | frontend/src/components/SudokuGame.vue:272-288 | a delivered game is the bare new puzzle, without notes or history, and keeps the mark |
| SudokuGame.UnsolvedGameIsOpenIff | frontend/src/components/SudokuGame.vue:178-261 | an unsolved game takes some digit, and takes some hint, iff the solved mark is not set and no game is being generated |
| SudokuGame.LockIsReachable | frontend/src/components/SudokuGame.vue:128-133 | from any playable game with one wrong cell: hint, notice, undo, and the unsolved game carries the solved mark |
| SudokuGame.NewGameIsOpenIff | frontend/src/components/SudokuGame.vue:263-289 | a delivered game can be played iff the solved mark was not set while it was being generated |
| SudokuGame.LateRedoLocksTheNewGame | frontend/src/components/SudokuGame.vue:371-375 | a redo of the winning move before the new game arrives leaves the new game locked |
| SudokuGame.Game.constructor | frontend/src/components/SudokuGame.vue:272-288 | a first game satisfies the invariant |
| SudokuGame.Game.NewGameAsked | frontend/src/components/SudokuGame.vue:263-268 | the state while a game is being generated; refused while one already is |
| SudokuGame.Game.NewGameReady | frontend/src/components/SudokuGame.vue:272-288 | the state once it is generated: everything new except the solved mark |
| SudokuGame.Game.IsSolved | frontend/src/components/SudokuGame.vue:102-108 | true iff the cells equal the solution |
| SudokuGame.Game.PushAction | frontend/src/components/SudokuGame.vue:113-119 | the redo tail is cut, the action appended, the pointer at the end |
| SudokuGame.Game.ApplyAction | frontend/src/components/SudokuGame.vue:121-126 | the cell and its notes, in the given direction, and nothing else |
| SudokuGame.Game.Undo | frontend/src/components/SudokuGame.vue:128-133 | the new state is the one whose redo is the old state; nothing happens at the start of the history |
| SudokuGame.Game.Redo | frontend/src/components/SudokuGame.vue:135-140 | the new state is the one whose undo is the old state; nothing happens at the end of the history |
| SudokuGame.Game.CanEdit | frontend/src/components/SudokuGame.vue:178 | clues, and solved or generating games, cannot be edited |
| SudokuGame.Game.SetCellValue | frontend/src/components/SudokuGame.vue:188-212 | the state after a digit: a toggled note, a written, replaced or erased digit, or nothing |
| SudokuGame.Game.ResetPuzzle | frontend/src/components/SudokuGame.vue:224-235 | the bare puzzle with an empty history, refused while generating |
| SudokuGame.Game.Hint | frontend/src/components/SudokuGame.vue:237-261 | one hint step from the pool, or nothing when there is none to give |
| SudokuGame.Game.SolvedWatcher | frontend/src/components/SudokuGame.vue:371-375 | the solved mark is set when the game is solved and stays otherwise |
| SudokuConflicts.MarkDup | frontend/src/components/SudokuGame.vue:62-75 | adds marks for exactly the cells of the list that share a nonzero value with another cell of the list |
| SudokuConflicts.RowIndices | frontend/src/components/SudokuGame.vue:78 | lists exactly the cells of the row, each once |
| SudokuConflicts.ColIndices | frontend/src/components/SudokuGame.vue:81 | lists exactly the cells of the column, each once |
| SudokuConflicts.BoxIndices | frontend/src/components/SudokuGame.vue:87-94 | lists exactly the cells of the box, each once |
| SudokuConflicts.ConflictMap | frontend/src/components/SudokuGame.vue:58-100 | a cell is marked iff a distinct peer holds its nonzero value |
| SudokuConflicts.NoClashIffNothingMarked | frontend/src/components/SudokuGame.vue:58-100 | a board is clash-free iff no cell is marked |
| SudokuConflicts.SolvedIffFullAndUnmarked | frontend/src/components/SudokuGame.vue:58-108 | in every reachable game, solved means full with nothing marked |
| LinuxRoutes.BuildSetup | internal/core/routes.go:59-192 | the command list and the recovery record, or a refusal; what they do is in the `RoutePolicy` rows |
| LinuxRoutes.BuildTeardown | internal/core/routes.go:255-309 | the command list built from a record |
| RoutePolicy.RefusedIff | internal/core/routes.go:124-160 | setup is refused iff `ip` is missing, or iptables when DNS is to go to the local proxy |
| RoutePolicy.RecordIsComplete | internal/core/routes.go:131-177 | the record names every server, the source address, the DNS mode and address, and 1053 for the local proxy |
| RoutePolicy.WholeSetupResult | internal/core/routes.go:131-192 | on any machine, a setup whose lines all take effect leaves exactly the rules (prefs 5, 8, 10, 20), the route, the firewall rules, the resolver and the backup written out in `AfterSetup` |
| RoutePolicy.SetupRoutesTraffic | internal/core/routes.go:131-192 | after it, with room for the tunnel, every packet leaves by the tunnel device, except those marked by the core, to a server or from the source address, which are looked up in the main table |
| RoutePolicy.SetupResolvesNames | internal/core/routes.go:142-184 | after it, the link or resolv.conf answers with the asked name server, DNS to the local host is redirected to port 1053 when asked for, and QUIC is dropped when asked for and possible |
| RoutePolicy.InstalledIffTrafficLeaves | internal/core/routes.go:205-237 | whichever setup lines failed unnoticed: if the check passes, all traffic that does not bypass the tunnel leaves by it; on a machine that did not know the tunnel, only if it passes |
| RoutePolicy.WholeTeardownResult | internal/core/routes.go:255-311 | on any machine, a complete teardown takes away exactly the rules of pref 5, 8, 10 and 20 written out, the tunnel's default routes, one firewall rule each, and the name server |
| LinuxRoutes.SetupIsCovered | internal/core/routes.go:131-192 | every setup line adds only things the record's teardown removes |
| LinuxRoutes.TeardownIsCovered | internal/core/routes.go:255-309 | every teardown line is about the record, and the backup is removed only right after it was copied back |
| LinuxRoutes.BackupComesFirst | internal/core/routes.go:175-182 | no backup is ever taken of an overwritten resolv.conf |
| LinuxRoutes.OwnRuleIsTornDown | internal/core/routes.go:303-308 | the failing case on a machine that had the tunnel's rule before: it is gone after teardown |
| LinuxRoutes.UnbackedOverwriteStays | internal/core/routes.go:179-180 | the failing case without a backup: resolv.conf stays overwritten |
| LinuxRoutes.SecondTeardownDeletesAgain | internal/core/routes.go:265-269 | the failing case of a repeated teardown: each deletes one of two equal firewall rules |
| RouteRecovery.TeardownIsMasked | internal/core/routes.go:255-309 | every teardown line is masked, so a run that reports success may have skipped any of them |
| RouteRecovery.SkippingMattersIff | internal/core/routes.go:255-311 | from any system, a teardown that skips lines does what a complete one does iff every skipped line had nothing to do or was done by an equal line |
| RouteRecovery.HomeIffNothingMissed | internal/core/routes.go:255-311 | from wherever a complete teardown leads home, one with skipped lines gets home iff nothing was missed |
| RouteRecovery.SetupThenTeardownIff | internal/core/routes.go:131-311 | setup cut anywhere with failing lines, then a teardown with skipped lines: on a clean machine with its backup, home iff nothing was missed; with nothing missed, home iff the machine was clean with its backup |
| RouteRecovery.SkippedRuleStays | internal/core/routes.go:305 | the failing case for a route: the tunnel's rule stays |
| RouteRecovery.SkippedCopyLosesTheBackup | internal/core/routes.go:279 | the failing case for the resolver: the backup is gone and resolv.conf still overwritten |
| RouteRecovery.CleanIff | internal/core/routes.go:255-311 | a machine is clean for a record iff tearing it down would change nothing |
| RouteRecovery.SetupLineMovesIff | internal/core/routes.go:131-192 | on any machine, a setup line that takes effect leaves where a complete teardown leads as it was, iff it loses no backup and no unbacked resolv.conf |
| RouteRecovery.TeardownLineMovesIff | internal/core/routes.go:255-309 | the same for a teardown line, iff it drops no backup not copied back and no one of several equal firewall rules |
| RouteRecovery.RetryLeadsThereIff | internal/core/helper_server.go:467-476 | after a teardown cut anywhere with any lines skipped, a complete one leads where it would have led in the first place iff neither of these was lost on the way |
| RouteRetries.RunsLeadThereIff | internal/core/helper_server.go:467-476 | after any number of runs, each cut anywhere and skipping any lines, a complete teardown leads where it would have led in the first place iff no run lost anything |
| RouteRetries.RunsTearDown | internal/core/helper_server.go:467-476 | cut runs and then one that reports success: if the cut ones lost nothing, all is undone iff the last missed nothing; if that missed nothing, iff they lost nothing |
| RouteRetries.SecondRunChangesNothingIff | internal/core/routes.go:255-311 | after a teardown that missed nothing, another run, cut anywhere and skipping any lines, changes nothing iff it deletes no firewall rule that was there several times |
| RouteRetries.IdleIsClean | internal/core/routes.go:255-309 | once no teardown line has anything left to do, the machine is clean |
| RouteRetries.NextLineIsSafe | internal/core/routes.go:279 | the line that removes the backup loses nothing while every line before it has nothing left to do |
| RouteRetries.SetupDnsOrder | internal/core/routes.go:175-182 | the backup of resolv.conf is taken right before it is overwritten, and nothing touched either file before |
| RouteRetries.NextSetupLineIsSafe | internal/core/routes.go:131-192 | a setup line loses nothing as long as the backup was not skipped |
| TunHelper.StepMovesIff | internal/core/helper_server.go:264-554 | a step of the machine or the journal changes where recovery leads iff it is a loss: recording a plan the machine already holds part of, losing a backup, deleting one of several equal firewall rules, or dropping the journal while something it records is installed |
| TunHelper.RecoveryLeadsBack | internal/core/helper_server.go:521-554 | between two points of a run without a loss, recovery leads to the same machine |
| TunHelper.CleanEnd | internal/core/helper_server.go:458-498 | a run that ends without a journal and without a loss ends on the machine recovery led to |
| TunHelper.KeptLeadsHome | internal/core/helper_server.go:521-554 | every point of a life without a loss leads back to the machine as it was in the beginning |
| TunHelper.HomeAtTheEnd | internal/core/helper_server.go:458-498 | a life with fitting plans and no work skipped that ends without a journal ends on that machine |
| TunHelper.World.RunLine | internal/core/routes.go:199 | a line runs only while the journal on disk has the record it is about |
| TunHelper.World.SkipLine | internal/core/routes.go:133-204 | a line that fails unnoticed is masked and recorded, and changes nothing |
| TunHelper.World.SaveJournal | internal/core/helper_server.go:500-519 | a record on disk is never replaced by another one |
| TunHelper.World.RemoveJournal | internal/core/helper_server.go:495 | the journal goes, the machine stays as it is |
| TunHelper.World.Mark | internal/core/helper_server.go:341-346 | the tunnel process and the helper come and go without touching machine or journal |
| TunHelper.Helper.SaveState | internal/core/helper_server.go:500-519 | the journal on disk has exactly the session's record |
| TunHelper.Helper.TeardownRoutes | internal/core/routes.go:255-311 | a run skips any lines unnoticed and may be cut anywhere; one that reports success did what a complete one does iff it missed nothing, and leaves the machine clean when no work was skipped and plans fitted |
| TunHelper.Helper.RunSetupBatch | internal/core/routes.go:199-203 | a run gets to the cut or to the first failing line that aborts; before that only masked lines fail |
| TunHelper.LuckySetupWorks | internal/core/routes.go:194-253 | when every line takes effect on a machine with room, setup succeeds and leaves exactly `AfterSetup` |
| TunHelper.Helper.SetupRoutesLinux | internal/core/routes.go:194-253 | the record is on disk before the first line; success iff the batch goes through and the tunnel's rule and route are seen in time, and the machine is then exactly what the lines made of it |
| TunHelper.Helper.TryTeardown | internal/core/helper_server.go:467-476 | up to three runs with the flags of each; if the last reports success, all is undone under the exact conditions of `RouteRetries.RunsTearDown`, and always when no work was skipped and plans fitted |
| TunHelper.Helper.TeardownLocked | internal/core/helper_server.go:458-498 | no run reports success: session, process and journal stay; otherwise all three are gone; either way the machine is what the runs' flags made of it, undone under their exact conditions, and home when no work was skipped and plans fitted |
| TunHelper.Helper.RecoverStale | internal/core/helper_server.go:521-554 | the same for a dead helper's journal; a living helper's is left alone |
| TunHelper.Helper.BringUp | internal/core/helper_server.go:297-396 | succeeds iff every stage does; wherever it fails, session and journal still agree |
| TunHelper.Helper.UpFresh | internal/core/helper_server.go:276-294 | without a journal, up succeeds iff every stage does, and the new session is then running with everything recorded |
| TunHelper.Helper.Up | internal/core/helper_server.go:264-295 | success iff no session runs, leftovers could be undone and every stage works; then a new session with the tunnel's rule and route installed, the machine exactly what the lines made of it, and a watcher; a running session is not touched |
| TunHelper.Helper.WatcherSelects | internal/core/helper_server.go:437-441 | a watcher wakes only if its hev is gone and ends only if its stop channel is closed |
| TunHelper.Helper.WatchHev | internal/core/helper_server.go:442-453 | a woken watcher tears down its own session only, with the same guarantees, and does nothing if that is no longer the current one |
| TunHelper.Helper.Crash | internal/core/helper_server.go:521-554 | a killed helper leaves machine and journal as they are |
| TunHelper.Helper.HevExits | internal/core/helper_server.go:434-438 | the tunnel process dies without touching machine or journal |
| TunHelper.Happen | internal/core/helper_server.go:264-554 | every event keeps helper and journal in agreement and only extends the life |
| TunHelper.Lifetime | internal/core/helper_server.go:264-554 | over any sequence of requests, process deaths, current and past watchers, kills and relaunches, on any machine: every step changes where recovery leads iff it is a loss; and if every plan fits the machine and no teardown line or backup with work to do was skipped, there is no loss and every single point leads home |
| StartStop.StepKeepsInv | internal/core/lifecycle.go:16-95 | lock ownership, sequence numbers, "all but the newest are cancelled" and "stops win" are kept by every step |
| StartStop.ReleaseClearsOnlyItsOwn | internal/core/lifecycle.go:26-33 | a release clears the stored cancel function iff it is its own |
| StartStop.ContextCheckIff | internal/core/lifecycle.go:50-52 | a start gets past its context check iff it has not been cancelled, and otherwise gives up |
| StartStop.CancelledBy | internal/core/lifecycle.go:16-42 | a start is cancelled exactly by a newer start or a stop while its cancel function is the stored one, or by its own release |
| StartStop.SessionAfter | internal/core/lifecycle.go:45-95 | which steps set the session, which end it, and that no other changes it |
| StartStop.OtherCallsStay | internal/core/lifecycle.go:16-95 | a step is about one call, and every other start and stop stays where it is |
| StartStop.NewStart | internal/core/lifecycle.go:16-25 | a new start is not cancelled and is the stored one; every unfinished earlier start is cancelled by then |
| StartStop.RunKeepsInv | internal/core/lifecycle.go:16-95 | the invariant holds in every state of every interleaving |
| StartStop.EarlierNeverChanges | internal/core/lifecycle.go:36-42 | which starts a stop has to beat is fixed when it cancels |
| StartStop.StopBeatsEarlierStarts | internal/core/lifecycle.go:89-95 | once a stop has returned, no start begun before its cancel owns the session, works on it or gets past its context check, ever |
| StartStop.LaterStartSurvivesStop | internal/core/lifecycle.go:16-42 | a start begun after a stop's cancel is not cancelled by it and is not among the starts the stop has to beat |
| StartStop.UncancelledStartComesUp | internal/core/lifecycle.go:45-87 | a start that is not cancelled, with the lock free and no session, can take all its steps and ends with the session its own |
| StartStop.FailingStartLeavesNothing | internal/core/lifecycle.go:67-85 | a start whose bring-up fails leaves no session and gives the lock back |
| StartStop.StopEndsSession | internal/core/lifecycle.go:89-95 | a stop that has cancelled, with the lock free, can take all its steps and ends the session |
| StartStop.LaterStartComesUp | internal/core/lifecycle.go:16-95 | a start begun after a stop's cancel comes up once that stop has returned |
| StartStop.HolderCanGoOn | internal/core/lifecycle.go:45-95 | in every state of every run, whoever has the lock can take a step towards giving it back |
| StartStop.CallsCanGoOn | internal/core/lifecycle.go:45-95 | with the lock free, every call that is not done can go on |
| ProxySession.ApplyTunKeepsRunningIff | internal/core/lifecycle.go:299-319 | the live switch keeps a running session consistent, however the tunnel fares, iff it is not asked for a tunnel already running |
| ProxySession.SwitchingOnARunningTunnelCanLoseTheRequest | internal/core/backend_config_nodes.go:67-76 | the failing case: running but no longer wanted |
| ProxySession.Backend.TunEvents | internal/core/lifecycle.go:355-367 | events only ever clear the running flag, and each clearing has a recovery coming |
| ProxySession.Backend.EventLooks | internal/core/lifecycle.go:360-362 | an event goes on iff the tunnel is flagged as running |
| ProxySession.Backend.EventQueues | internal/core/lifecycle.go:365 | an event that cleared the flag queues one recovery |
| ProxySession.Backend.TunUpLocked | internal/core/lifecycle.go:274-284 | success means a running tunnel, or a loss with its recovery coming |
| ProxySession.Backend.TunDownLocked | internal/core/lifecycle.go:288-294 | the tunnel is not running, whatever events fall in between |
| ProxySession.Backend.ApplyTunLocked | internal/core/lifecycle.go:299-319 | which outcome a switch has and the state after it, a late refusal for want of rights included; a running tunnel is left unwanted iff it was running, was asked for again and that failed |
| ProxySession.Backend.TeardownLocked | internal/core/lifecycle.go:429-463 | from any state the session ends fully stopped, whatever events fall in between |
| ProxySession.Backend.StopProxy | internal/core/lifecycle.go:89-95 | a stopped session |
| ProxySession.Backend.BringUpLocked | internal/core/lifecycle.go:128-198 | success iff every stage works, and then fully running with the tunnel requested as asked |
| ProxySession.StartLuck.HowItFails | internal/core/lifecycle.go:67-85 | a failed start wants rights iff the tunnel was refused for want of them; otherwise it is cancelled iff a check or the context says so |
| ProxySession.Backend.StartFresh | internal/core/lifecycle.go:62-86 | without a core running, everything comes up as asked or nothing is left |
| ProxySession.Backend.StartProxy | internal/core/lifecycle.go:45-87 | which outcome a start has, stage by stage, and for each outcome the session left behind; never anything between stopped and running |
| ProxySession.Backend.ApplyTunLive | internal/core/backend_config_nodes.go:67-76 | nothing unless running; otherwise the switch |
| ProxySession.Backend.ReapplyTun | internal/core/lifecycle.go:339-353 | a rebuilt tunnel or a stopped session; nothing when no tunnel is running |
| ProxySession.Backend.RecoverTun | internal/core/lifecycle.go:371-387 | a lost tunnel is brought back or the session stops; otherwise nothing |
| ProxySession.Backend.SuperviseKernel | internal/core/lifecycle.go:465-481 | a dead core stops its own session only |
| ProxySession.Lifetime | internal/core/lifecycle.go:45-481 | over any requests, whenever the lock is free the session is fully stopped or running, a wanted tunnel that is down has a recovery coming, and a running tunnel is wanted as long as no failed live switch has slipped |
| TunClient.StepKeepsInv | internal/core/tun.go:183-287 | IDs tell calls apart, at most one live connection, pending and delivered calls have empty channels, no call is forgotten |
| TunClient.DeliverHitsEmptyChannel | internal/core/tun.go:206-212 | a reply is sent only into an empty open channel, so the send neither blocks nor hits a closed channel |
| TunClient.CleanupSparesLaterCalls | internal/core/tun.go:214-225 | losing a connection closes only empty channels of calls on that or an older connection, and leaves no unanswered call waiting |
| TunClient.RunKeepsInv | internal/core/tun.go:183-287 | the invariant holds in every state of every interleaving |
| TunClient.ReplyReachesOnlyItsCall | internal/core/tun.go:194-287 | a reply reaches only the call that issued its ID |
| TunClient.OutcomeIsFinal | internal/core/tun.go:271-286 | each call has at most one outcome |
| TunClient.CallMovesBy | internal/core/tun.go:255-287 | for each step, how a call moves on: answered exactly by taking the reply its channel holds, disconnected by seeing it closed, timed out by giving up; no other step moves it, and a channel is filled only by a delivery and closed only by a cleanup |
| TunClient.WaitingEndsBy | internal/core/tun.go:271-286 | the step that ends a waiting call answers it with r iff it took r from the channel, and disconnects it iff it saw the channel closed |
| TunClient.EndsTellThroughout | internal/core/tun.go:271-286 | over every run, a call that ended with a reply has it in its channel, and one that ended disconnected has a closed one |
| TunClient.WaitingCanEnd | internal/core/tun.go:271-286 | a waiting call that holds a reply can end with it, one whose channel is closed can end disconnected, and any can time out and is then pending no more |
| TunClient.RegisterResult | internal/core/tun.go:256-261 | a call gets an ID no other call has, is pending under it, and its channel is empty |
| TunClient.RequestGoesOut | internal/core/tun.go:267-271 | a registered call's request can go out on its connection, and the call then waits |
| TunClient.FailedSendEnds | internal/core/tun.go:267-270 | a failed send ends the call and it is pending no more |
| TunClient.ReplyAnswersCall | internal/core/tun.go:206-212 | the reply to a pending waiting call, read from a connection, is delivered to that call and can answer it |
| TunClient.UnknownReplyIsDropped | internal/core/tun.go:207-212 | a reply to no pending call changes nothing |
| TunClient.AttachResult | internal/core/tun.go:183-192 | a new connection is the attached one and is read from |
| TunClient.LostConnectionEndsCalls | internal/core/tun.go:214-225 | a lost connection is detached, and every waiting call with an empty channel can then end as disconnected |
| TunClient.CallCanBeAnswered | internal/core/tun.go:194-287 | a new call on the attached connection can go all the way to its answer |
| TunClient.ChannelIsWrittenOnce | internal/core/tun.go:206-223 | a channel is sent to or closed once, never both |
| TunClient.RepliesStayOnTheirConnection | internal/core/tun.go:194-287 | with a helper that answers only what is on the wire, even before the send has returned, no call is answered from another connection, across reconnects |
| SystemProxy.LocalIff | internal/core/system_proxy.go:100-110 | an address is the app's iff its port is and its host, freed of white space and brackets, is a local name in any case |
| SystemProxy.LocalSpellings | internal/core/system_proxy.go:105-107 | spellings that count |
| SystemProxy.OtherSpellings | internal/core/system_proxy.go:105-109 | spellings that do not |
| SystemProxy.CapturedResult | internal/core/system_proxy_darwin.go:26-32 | a snapshot is the settings as they are, but for entries that pointed at the app, which are blank in it |
| SystemProxy.RestoreResult | internal/core/system_proxy_darwin.go:83-120 | the settings a restore leaves, entry by entry |
| SystemProxy.RestoredEntryOursIff | internal/core/system_proxy_darwin.go:93-101 | an entry still points at the app after a restore iff it did and the captured entry was enabled without a usable address |
| SystemProxy.RecoveryClears | internal/core/system_proxy_darwin.go:83-120 | entries the user changed are left alone, and nothing points at the app except in that case |
| SystemProxy.UniqueResult | internal/core/system_proxy_util.go:5-21 | the list holds the trimmed nonempty entries asked for and nothing else, in front what was there, none twice up to case |
| SystemProxy.BypassHas | internal/core/system_proxy_darwin.go:57 | the bypass list has the local names and all of the user's entries, none twice |
| SystemProxy.SetResult | internal/core/system_proxy_darwin.go:51-64 | the settings after every prefix of the steps of a set |
| SystemProxy.SetPrefixUndoneIff | internal/core/system_proxy_darwin.go:15-120 | capture, any prefix of a set, restore: automatic configuration comes back unless the set stopped right after switching it off with nothing pointing at the app; the bypass list always does; the entries' effect does iff none pointed at the app before and none reached was stuck |
| SystemProxy.RoundTripIff | internal/core/system_proxy_darwin.go:15-120 | an uninterrupted round gives back automatic configuration and bypass list, and what every entry meant before the run iff none was stuck and none pointed at the app |
| SystemProxy.StuckEntryPointsAtTheApp | internal/core/system_proxy_darwin.go:97-100 | the failing case of a stuck entry |
| SystemProxy.OwnEntryIsSwitchedOff | internal/core/system_proxy_darwin.go:27-32 | the failing case of an entry that pointed at the app before |
| SystemProxy.AutoStaysOff | internal/core/system_proxy_darwin.go:105-115 | the failing case of a set that stopped after its first step |
| AppJournal.RemoveChild | internal/core/journal.go:86-94 | every record of the name is gone, and no other |
| AppJournal.WithoutOfConcat | internal/core/journal.go:86-94 | records stay in order: what stays of two lists one after the other is what stays of both |
| AppJournal.WithoutCounts | internal/core/journal.go:86-94 | a record with another name stays as often as it was listed |
| AppJournal.Journal.Persist | internal/core/journal.go:46-60 | the file holds the contents, and does not exist when there is nothing to undo |
| AppJournal.FileKeptIff | internal/core/journal.go:46-60 | the file is there iff a snapshot or a child is recorded, and holds all of it |
| AppJournal.Journal.SetSystemProxy | internal/core/lifecycle.go:208-229 | the snapshot is replaced and on disk, the children stay |
| AppJournal.Journal.SetChild | internal/core/journal.go:77-84 | one record under the name, or none for pid 0; other records and the snapshot stay |
| AppJournal.RestoreAll | internal/core/system_proxy_darwin.go:83-120 | exactly which entries still point at the app; changed entries and unlisted services stay; each service listed once becomes its own restore |
| AppJournal.RecoverStaleJournal | internal/core/journal.go:111-144 | nothing while the owner lives; otherwise the settings are restored and the file goes |
| AppJournal.App.constructor | internal/core/journal.go:41-43 | a first launch on any machine satisfies the invariant |
| AppJournal.App.Relaunch | internal/core/journal.go:111-144 | a launch after a crash at any covered point: the restore's exact result, and only leftovers still point at the app |
| AppJournal.App.Capture | internal/core/system_proxy_darwin.go:15-37 | one snapshot per service, without the app's own leftovers |
| AppJournal.App.ApplySystemProxy | internal/core/lifecycle.go:200-216 | the snapshot is on disk before the first setting changes; each service gets exactly its steps up to the first that fails, and wherever that is everything that points at the app is covered |
| AppJournal.StepsAre | internal/core/system_proxy_darwin.go:59-63 | as many steps take effect on a service as do not fail before |
| AppJournal.App.SetService | internal/core/system_proxy_darwin.go:46-65 | the given number of steps takes effect on that service and nothing on others, covered at every step |
| AppJournal.App.RestoreSystemProxy | internal/core/lifecycle.go:218-232 | the restore's exact result first, then the snapshot leaves the journal |
| AppJournal.App.SetChild | internal/core/journal.go:77-84 | recording children keeps the invariant |
| AppJournal.App.UserChanges | internal/core/system_proxy.go:89-98 | the user may change entries at any time without breaking it |
| AppJournal.App.CrashAndRecover | internal/core/journal.go:111-144 | a kill at any point, followed by a launch: the restore's exact result, only leftovers still point at the app, no journal |
| Traffic.OnePollBalances | internal/core/stats.go:200-225 | what a poll adds, plus what was listed before, is what is listed now plus what ended |
| Traffic.OverlapBothWays | internal/core/stats.go:208-212 | matching new connections to old ones or old to new gives the same sum |
| Traffic.IntervalTotalSnoc | internal/core/stats.go:200-225 | one more poll extends the sum over listing intervals by exactly the accumulated deltas |
| Traffic.NewPollBalances | internal/core/stats.go:200-225 | the same for both directions and both sides at once |
| Traffic.SplitPoll | internal/core/stats.go:205-225 | what each side gains from one poll, the counters remembered, the direct connections counted |
| Traffic.SideGains | internal/core/stats.go:209-224 | a connection adds its deltas to its own side and nothing to the other |
| Traffic.DirectionIs | internal/core/stats.go:138-151 | a chain is direct iff it is empty or the first of its hops to say DIRECT or REJECT, in any case, says DIRECT; reject iff it says REJECT; proxy iff it is not empty and none says either |
| Traffic.SideIs | internal/core/stats.go:138-151 | a connection is on the direct side iff its chain is empty or DIRECT is the first keyword in it |
| Traffic.DirectConnsAre | internal/core/stats.go:214-233 | the direct connections counted are exactly those |
| Traffic.TrafficAcc.constructor | internal/core/stats.go:64-76 | an accumulator that has seen nothing |
| Traffic.TrafficAcc.Reset | internal/core/stats.go:78-87 | back to having seen nothing |
| Traffic.TrafficAcc.AccumulateConnections | internal/core/stats.go:200-233 | direct plus proxy totals are the sum, over each connection's listing intervals, of its last counter; per side too while connections keep their side; dirConns is the number of connections without a chain or with DIRECT as first keyword |
| UsageHistory.AddUsageToDay | internal/core/usage_history.go:50-72 | today grows by the delta or appears with it, other days stay, totals grow by the delta, days stay balanced and distinct |
| UsageHistory.TrimUsageDays | internal/core/usage_history.go:74-80 | exactly the newest days are kept; kept and dropped days are a permutation of the old ones, so no byte is lost or doubled |
| UsageHistory.SortByDate | internal/core/usage_history.go:78 | a sorted permutation |
| UsageHistory.TotalOfPermutation | internal/core/usage_history.go:78-79 | totals do not depend on the order of days |
| UsageHistory.DistinctDatesPermuted | internal/core/usage_history.go:78-79 | a permutation of days with distinct dates has distinct dates |
| UsageHistory.ReadingAdvances | internal/core/stats.go:89-94 | one more reading extends the counter's total, across restarts, by exactly the counter delta |
| Arith.Portion | internal/core/stats.go:96-121 | the direct part of a delta, rounded down, is at most the delta |
| UsageHistory.AddAndTrim | internal/core/stats.go:252-257 | at most 120 days, totals conserved with what was dropped, days balanced, days other than today unchanged or dropped |
| UsageHistory.UsageTracker.constructor | internal/core/stats.go:246-250 | the loaded days, trimmed |
| UsageHistory.UsageTracker.Reset | internal/core/stats.go:78-87 | counts as a reading of zero |
| UsageHistory.Tick | internal/core/stats.go:106-122 | a tick's delta is balanced, holds exactly what the counters grew by, and its direct part is the direct share of that, rounded down |
| UsageHistory.UsageTracker.OnTraffic | internal/core/stats.go:103-123 | kept plus dropped usage is always the loaded usage plus the readings' total, and grows field by field by the tick's delta; every day keeps tx = directTx + proxyTx; other days stay |
| TrafficChart.TangentFitsBothSlopes | frontend/src/components/TrafficChart.vue:54-57 | an interior tangent has the sign of both neighbouring slopes, or is 0, and at most 3 times either |
| TrafficChart.TangentIsHarmonicMean | frontend/src/components/TrafficChart.vue:54-57 | an interior tangent is 0 at a turning point and otherwise the weighted harmonic mean of the two slopes |
| TrafficChart.TangentOfStraightLine | frontend/src/components/TrafficChart.vue:54-57 | between equal slopes it is that slope |
| TrafficChart.MonotonePath | frontend/src/components/TrafficChart.vue:44-65 | one piece between each pair of neighbours, with the Hermite control points of their tangents |
| TrafficChart.Tangents | frontend/src/components/TrafficChart.vue:48-58 | widths and tangents at every point |
| TrafficChart.TangentsFit | frontend/src/components/TrafficChart.vue:48-58 | both end tangents of every piece, outer ones included, fit the piece's slope |
| TrafficChart.XIsEven | frontend/src/components/TrafficChart.vue:60-62 | x runs evenly along a piece, so the curve is the graph of a function |
| TrafficChart.PiecesJoinSmoothly | frontend/src/components/TrafficChart.vue:60-62 | neighbouring pieces meet with the same tangent |
| TrafficChart.RisingSegment | frontend/src/components/TrafficChart.vue:60-62 | a cubic whose end tangents are between 0 and 3 times its slope rises throughout |
| TrafficChart.PieceIsMonotone | frontend/src/components/TrafficChart.vue:43-65 | between two data points the curve rises or falls all the way with them |
| TrafficChart.NoOvershoot | frontend/src/components/TrafficChart.vue:43-65 | the curve passes through the data and never leaves the range of neighbouring values |
| Strings.TrimResult | internal/core/runtime_config.go:73 | trimming keeps a stretch of the string, drops only what is to be dropped, and leaves none of it at the ends |
| Strings.TrimOf | internal/core/runtime_config.go:73 | whatever is to be dropped around a string that neither begins nor ends with it comes off, and nothing else |
| NodeNames.AtoiOfItoa | internal/core/runtime_config.go:79 | decimal spelling can be read back, so different suffixes differ |
| NodeNames.CandidatesDiffer | internal/core/runtime_config.go:77-80 | the names tried for one node are all different |
| NodeNames.TriedCount | internal/core/runtime_config.go:77-80 | as many different names have been tried as steps were made |
| NodeNames.UniqueName | internal/core/runtime_config.go:77-80 | the first free candidate, within one step per taken name |
| NodeNames.NodeProxyNames | internal/core/runtime_config.go:69-85 | each node gets the first candidate free among the reserved names and the names before it, a repeated ID keeps its last name; the table is injective and avoids reserved names |
| NodeNames.NamesAreUnique | internal/core/runtime_config.go:69-85 | no two nodes share a name, and none has a reserved one |
| NodeNames.FreeNameIsKept | internal/core/runtime_config.go:69-85 | a node keeps its trimmed name if that is not reserved and no node before it has it |
| NodeNames.NamelessNodeHasItsID | internal/core/runtime_config.go:73-76 | a node without a name is called by its ID if that is free |
| NodeNames.TakenNameIsNumbered | internal/core/runtime_config.go:77-80 | a name that is taken or reserved becomes the name with `#2` if that is free |
| NodeNames.NoGroupNames | internal/core/runtime_config.go:69-85 | no node is called DIRECT, REJECT, PROXY, GLOBAL or Balance |
| NodeNames.NamesOfFour | internal/core/runtime_config.go:69-85 | the names of two equally named nodes, one named like a group and one without a name |
| NodeNames.TableIsClean | internal/core/runtime_config.go:69-85 | the table is injective and avoids reserved names, repeated IDs included |
| NodeNames.NamingIsDetermined | internal/core/runtime_config.go:69-85 | two namings of the same nodes agree name by name |
| NodeNames.TableIsDetermined | internal/core/runtime_config.go:69-85 | the description leaves no choice: two tables for the same nodes are equal |
| NodeNames.NodeIDForOutbound | internal/core/ctl_sync.go:70-83 | the node of a name, in whatever order the table is searched |
| NodeNames.OutboundInvertsNaming | internal/core/ctl_sync.go:70-83 | whatever the nodes, repeated and empty IDs included, a node's outbound name leads back to that node |
| NodeNames.NodeWithGroupIDIsNotSelected | internal/core/kernel.go:190-199 | the failing case of selecting what was read: a node with the group's ID |
| NodeNames.SelectionReadsBack | internal/core/kernel.go:186-200 | what was selected is what is read back, nodes and the balance group alike |
| NodeNames.ReadingSelectsSame | internal/core/kernel.go:190-199 | selecting what was read asks for the same outbound iff the name is known and the node does not bear the group's ID |
| LineWriter.Writer.constructor | internal/core/process.go:14-18 | nothing buffered, nothing emitted |
| LineWriter.Writer.Emit | internal/core/process.go:52-60 | the piece without trailing carriage returns, if there is anything left and anyone to tell |
| LineWriter.Writer.Write | internal/core/process.go:22-41 | the loop does what splitting buffer and chunk at every newline at once would; the buffer never holds a newline nor more than 64 KiB |
| LineWriter.Writer.Flush | internal/core/process.go:43-50 | the rest is emitted and the buffer empty |
| LineWriter.SplitOfConcat | internal/core/process.go:25-33 | splitting a stream cut in two joins the pieces next to the cut |
| LineWriter.RejoinSplit | internal/core/process.go:25-33 | splitting loses nothing: the pieces, with byte 10 between them, are the stream |
| LineWriter.SplitRejoined | internal/core/process.go:25-33 | and it splits at every byte 10 and nowhere else |
| LineWriter.LineIs | internal/core/process.go:52-60 | a line comes out without the bytes 13 at its end, and not at all if there is nothing else |
| LineWriter.WriteKeepsAhead | internal/core/process.go:22-41 | after each write the emitted lines are level with the stream, or ahead by one line that only carriage returns can follow |
| LineWriter.BufferHoldsNoNL | internal/core/process.go:22-41 | over any sequence of writes the buffer holds no newline and at most 64 KiB |
| LineWriter.ShortLinesComeOutWhole | internal/core/process.go:22-60 | if no line is, once trimmed, more than 64 KiB + 1 bytes long, writes and a flush emit exactly the stream's lines, however it was cut |
| LineWriter.OneWriteIsExact | internal/core/process.go:22-60 | a stream written at once comes out right whatever its lines |
| LineWriter.LongLineCanBreak | internal/core/process.go:34-36 | any longer line has a cut that changes the output |
| LineWriter.CutsDoNotMatterIffShort | internal/core/process.go:22-60 | cutting never matters iff no line is longer than that |

## Left out

- Interface: rendering, translation, styles, clock, selection, keyboard and drag handling, changing the size of a running game, and reading cells before the first game exists.
- Engine: the throw for sizes that are not squares, and the generator's null branch and final throw, which `SudokuGenerator.EmptyBoardCompletes` shows unreachable for the offered sizes; sizes over 30, where the 32-bit masks overflow.
- Random source: draws are natural numbers of any size, the source's are 32 bits wide, or a fraction where there is no `crypto`; those that `SudokuGenerator.EveryPuzzleCanComeOut` gives are at most the number of cells. How likely each draw is is not modelled.
- SudokuSolver.SolveOne: which of several completions comes out is stated when the first choices lead to one, not after a branch had to be given up.
- SudokuGame.Game.SolvedWatcher: may run at any time, while the component runs it only when solvedness changes; every run of the component is among the modelled ones.
- Routes: the macOS and Windows halves, and commands whose effect is not undone by design (`rp_filter` sysctls do nothing to the modelled state). IP rules and routes are sets, firewall chains are sequences; a line that fails changes nothing.
- RoutePolicy.SetupRoutesTraffic: packets are IPv4 and carry mark, source and destination; rules match on one of these. The local table in front of all rules and the contents of the main table are not modelled.
- Routes: server lists arrive as `uniqueStrings` left them, and addresses trimmed.
- Helper: split DNS, wake repair, health-check probes, installing binaries and the shutdown of its goroutines are steps that may fail; unreadable journals and failed journal writes (which the helper only logs) are not modelled.
- TunHelper.World.Mark: has no safety condition for stopping the tunnel process, because the helper also stops it after a teardown that skipped lines; what that costs is in `TunHelper.StepMovesIff`.
- Session: log lines, password prompts beyond their outcome, the system-proxy flag, network repair, debounced restarts (a stop followed by a start) and settings other than the tunnel switch. Nothing is said about whether a tunnel flagged as running is alive, because an exit event that arrives before the flag is set is dropped.
- TunClient: message IDs do not wrap around; requests' contents, pings and the launch of the helper are not modelled (a ping is a call).
- System proxy: `networksetup` calls are taken to succeed in a restore; in a set any of them may fail. Services are handled one after another, not in parallel. Journal recovery also removes the file when a restore failed, and removes an unreadable file; such runs are left out. Lower case is that of ASCII letters, which is exact for the local host names.
- System proxy on Linux and Windows: they depend on the output formats of external tools.
- Traffic: letters outside ASCII whose capital is not ASCII stay as they are in upper case, which is exact for DIRECT and REJECT; rates per second, wrap-around of 64-bit totals, and rounding of the shares as floating-point numbers (they are exact here); polls list each connection once.
- Usage history: reading and writing the file; dates are day numbers ordered like their spelling; the library sort is an insertion sort.
- TrafficChart.MonotonePath: exact reals, no rounding to one decimal; scaling to the canvas and the area path are not modelled.
- Names: `k.names` of a running core is the table of `NodeNames.NodeProxyNames`; configuration files are not modelled.
- LineWriter: `onLine` callbacks are a list; process supervision is not modelled.
