# CodeTrial: verified models of its state machines and algorithms

This project models nine parts of CodeTrial, a service that runs spoken coding interviews, and proves
what each part is for. The parts are independent; each is a module of its own.

- **The continuity-gap table** (`GapTable`, `GapHistory`, `GapSpent`, `GapExplore`, `GapRows`). A table of rows decides how the session reacts
  to a loss of the candidate's speech. `Machine` is driven only by the table, which is arbitrary here.
  `validate` and `explore` are the program that checks a table. The main result is that the finite
  exploration speaks for every run of any length: it succeeds exactly when no admissible run breaks an
  invariant, and its two sets are exactly the lines that such runs select. Whatever the table says, a run
  that completes never passes a cap and sends requests only from OPEN or DUE while nobody speaks. What one
  more event does is also stated from the run and its history alone, with no reference to the machine.
- **The permit protocol** (`Permit`, `PermitProtocol`, `PermitProgress`, `PermitStory`). A launcher grants each scripted action at most
  once over one-shot connections that lose requests and replies, to workers that crash, from a ledger
  that outlives the launcher. Every interleaving is a list of steps of one transition function. Beside
  safety: a new worker that is left undisturbed gets an action dispatched exactly when it may still start.
- **Process ownership** (`OwnedTree`). The repeated sweep over the process table ends in the least set
  that the membership rules allow, whatever order the table is walked in: exactly the processes with a line of
  descent from one that is owned in its own right.
- **The change-id chain** (`HashChain`). A forward verifier that accepts exactly the histories that can be
  labelled, a backward shortcut that finds the labels, and a repair whose result the verifier accepts. Hashes, trailers, merges and the style check are arbitrary
  functions; the one assumption is that a stamp reads back.
- **Interview state** (`ChangedCharacters`, `EvidenceLog`, `InterviewerDelivery`, `DeliveryHistory`,
  `TimerLine`). An optimal edit count, an eviction rule that loses no phase, the state that decides which
  interviewer lines a reader may see, every field of it read off what happened, and a clock sentence that can be removed from any text it was added to.
- **Delivery** (`CivilDate`, `Upload`, `UploadOutcome`, with `Decimal`). Civil dates for every day number, and
  a resumable upload against an arbitrary server: what it does, how it ends, and exactly when it succeeds.
- **Quadratic weighted kappa** (`Qwk`). The counting loop equals sums over pairs, and Cauchy-Schwarz bounds
  the statistic.
- **Room admission** (`Dispatch`). Lock-protected steps in any interleaving.
- **Owed time** (`OwedTime`). Interval union, the exposure of a verified clock, and the totals of a report.
- **Usage beside events** (`UsageLedger`). A reader and a consumer over a bounded channel, with a ledger
  beside it.

Objects whose methods update fields are classes; each method's contract gives its whole new state as a
function of the old one, and the theorems are about those functions. Loops the programs run are loops here,
proved against a specification that does not mention the loop.

## What the code does where its own text says something else

- `explore` says it goes breadth-first (`scripts/check-gap-state.py:309`), but it takes the newest entry of
  its queue (line 328), so it goes depth-first. The result does not depend on the order.
- In a total table every row is selected by some combination, so the second loop of `validate` (lines 196-198)
  never adds a problem of its own: `GapExplore.TotalTablesHaveNoDeadRow`.
- `unreachable` speaks of rows but decides by line number (lines 363-373), and the five rows that a `*` line
  expands to share one line, so one selected copy hides four that no run selects. The table of the twelve
  lines `* | event | - | = | noop` passes `check` though 48 of its 60 rows are never selected:
  `GapRows.StarTablePassesWithDeadRows`. The list is exactly the rows no run selects if and only if none of
  them shares its line with a selected row (`GapRows.ListIsExactUnlessHidden`), which always holds for a table
  whose rows have lines of their own, that is, one without `*` lines (`GapRows.OwnLinesAreExact`).
- `_replay` restores grants and faults but neither a drain nor a close, so after a restart the service is
  open again exactly when its ledger shows no fault: `PermitProtocol.RestartReopensUnlessFaulted`. The
  statements about draining and closing are for one launcher instance; those about faults are for all.
- A worker's guard decides whether it is dead by the truth of an error text (`interview-run-budget.py:740`).
  An empty text would leave it alive. No reply of the service can cause that:
  `PermitProtocol.DenialsNameAReason`.
- `rfc3339` promises RFC 3339 for every instant, but the text has the date-time form of section 5.6 exactly
  from -62,167,219,200 to 253,402,300,799 seconds, years 0 to 9999. One second later the year has five digits:
  `CivilDate.Rfc3339RoundTrip` and `CivilDate.YearTenThousand`.
- `merged_length` is called the length of the union. An interval that ends before it starts and that no earlier
  interval reaches counts negatively. `OwedTime.MergedLength` states the exact condition, `Harmless`, and
  `OwedTime.BackwardStandsAlone` the smallest input outside it; the report only passes intervals that run
  forward.

## Model

| member | source | states |
|---|---|---|
| GapTable.MatchFrom | scripts/check-gap-state.py:170-177 | every index returned names a row that matches, at or after the start |
| GapTable.MatchFromFindsAll | scripts/check-gap-state.py:170-177 | and every row that matches is returned |
| GapTable.Machine.constructor | scripts/check-gap-state.py:208-219 | a new machine is the initial state |
| GapTable.Machine.Clone | scripts/check-gap-state.py:221-225 | a clone is a fresh object with the same table and state |
| GapTable.Machine.ApplyAction | scripts/check-gap-state.py:270-305 | the fields and the verdict after one action, invariant breaks included |
| GapTable.Machine.StepEvent | scripts/check-gap-state.py:227-268 | one event gives the specified state and outcome, also when it raises part way through |
| GapTable.Machine.FireRow | scripts/check-gap-state.py:250-268 | the step once exactly one row matches |
| GapTable.Replay | scripts/check-gap-state.py:376-387 | replaying a list gives the run's result: completed, stopped at an impossible event, or broken |
| GapTable.FailureIsFinal | scripts/check-gap-state.py:376-387 | a run that raises once raises the same however it goes on |
| GapTable.ApplyKeeps | scripts/check-gap-state.py:270-305 | an action that does not raise keeps both caps and the agreement of counters with history, and a request is sent only in quiet, from OPEN or DUE |
| GapTable.StepKeeps | scripts/check-gap-state.py:227-268 | a completed step keeps debt owed exactly outside CLEAR, the caps and the counters, and records itself |
| GapTable.CompletedRunIsSafe | scripts/check-gap-state.py:227-305 | for every table and every completed run: committed requests within the session cap, sends of the current episode within its cap, every request sent from OPEN or DUE into SENDING while neither side was speaking |
| GapHistory.GuardsAreReadings | scripts/check-gap-state.py:229-246 | each guard the machine reads is what it means: an id already voiced, the last busy and candidate edge, commits and sends counted in the history against the caps, a loss marked late and not dealt with since |
| GapHistory.ActionTallies | scripts/check-gap-state.py:270-305 | an action raises exactly when it is out of order after the actions before it: a send in noise, from elsewhere, with nothing owed or past its cap, a commit outside SENDING or past its cap, a settlement without post-request evidence, an ending with no gap |
| GapHistory.FieldsAreReadOff | scripts/check-gap-state.py:208-268 | after every completed run each field is a reading of the run and its history |
| GapHistory.RunGoesOnExactly | scripts/check-gap-state.py:227-305 | one event more completes exactly when one row alone fits the readings and all its actions are in order, and adds that row's entry; it stops exactly when the one fitting row is invalid, naming its line; otherwise it fails |
| GapExplore.Validate | scripts/check-gap-state.py:179-202 | no problem exactly when each of the 5 x 12 x 128 combinations selects one row and each row is selected by one |
| GapExplore.TotalByCells | scripts/check-gap-state.py:184-195 | totality over all states, events and guards is totality of the scanned cells |
| GapExplore.TotalTablesHaveNoDeadRow | scripts/check-gap-state.py:196-198 | in a total table every row is selected by some combination |
| GapExplore.StepAlike | scripts/check-gap-state.py:319-323 | the exploration's key is exact: two machines alike up to ids and history end the same event alike, with the same row and the same error |
| GapExplore.NextNameIsFresh | scripts/check-gap-state.py:338-340 | an invented id is new to the machine that gets it |
| GapExplore.ExtendRun | scripts/check-gap-state.py:341-346 | one more step from a machine that a run reaches is what the longer run does |
| GapExplore.VariantsAreAll | scripts/check-gap-state.py:330-334 | the variants tried for an event stand for every admissible input of it |
| GapExplore.TryVariant | scripts/check-gap-state.py:336-345 | one trial leaves the base machine alone and is a step of an admissible input of the right kind |
| GapExplore.Trial | scripts/check-gap-state.py:336-346 | a trial that breaks shows a breaking run; any other covers all inputs like it and finds only what some run shows |
| GapExplore.Record | scripts/check-gap-state.py:341-349 | recording a trial keeps the worklist invariant, and grows the queue only with a new key |
| GapExplore.ExpandEvent | scripts/check-gap-state.py:329-349 | after an event is expanded every admissible input of it is covered |
| GapExplore.ExpandBase | scripts/check-gap-state.py:328-349 | after a machine is expanded its key needs nothing more |
| GapExplore.KeyIsListed | scripts/check-gap-state.py:319-323 | the caps make the key space finite, which is why the worklist ends |
| GapExplore.RunsAreAccounted | scripts/check-gap-state.py:308-350 | a closed set of expanded keys accounts for every admissible run of any length |
| GapExplore.Explore | scripts/check-gap-state.py:308-350 | ends; succeeds exactly when no admissible run breaks an invariant; then its two sets are exactly the lines that admissible runs reach and are stopped at |
| GapExplore.Unreachable | scripts/check-gap-state.py:353-373 | exactly the rows, not defensive, whose line no admissible run selects |
| GapExplore.Check | scripts/check-gap-state.py:488-503 | the command passes exactly total tables that no admissible run breaks and whose every row, unless defensive, has its line selected by a run |
| GapRows.RowShowsItsLine | scripts/check-gap-state.py:341-346 | a run that selects a row selects its line |
| GapRows.LineIsSelectedByItsRows | scripts/check-gap-state.py:363-373 | a line is selected exactly when one of its rows is |
| GapRows.ListIsExactUnlessHidden | scripts/check-gap-state.py:363-373 | the list is exactly the rows no run selects, defensive ones apart, if and only if none of them shares its line with a selected row |
| GapRows.OwnLinesAreExact | scripts/check-gap-state.py:158-168 | so it is for every table whose rows have lines of their own |
| GapRows.CheckIsExactWithOwnLines | scripts/check-gap-state.py:488-503 | and then the command passes exactly total tables that no run breaks and whose every row, unless defensive, is selected by a run |
| GapRows.StarTablePassesWithDeadRows | scripts/check-gap-state.py:158-168 | the input on which lines and rows differ: the command passes, 48 of 60 rows are never selected, none is listed |
| GapSpent.RunsAreUnspent | docs/turn-timing.md:402-405 | in a table whose rows go back to waiting only with an attempt left or by starting over, as the documented one's do, every completed run that waits has an attempt left |
| GapSpent.SpentRowsAreDead | docs/turn-timing.md:402-405 | so a row that asks for a spent attempt while waiting or clear fits after no run: the exempt rows cannot be reached because spending the last attempt ends the gap |
| Permit.ValidateActions | scripts/interview-run-budget.py:281-307 | no error exactly for a non-empty list of distinct plain ids without the final action, with the join action, and a ceiling one above its length |
| Permit.PermitService.constructor | scripts/interview-run-budget.py:406-458 | a service starts as the replay of its ledger |
| Permit.PermitService.StartDrain | scripts/interview-run-budget.py:471-476 | drains an open instance and records it; otherwise changes nothing |
| Permit.PermitService.CloseDown | scripts/interview-run-budget.py:478-483 | closes an instance once and records it |
| Permit.PermitService.FaultNow | scripts/interview-run-budget.py:491-502 | the first fault is kept, every fault is recorded, an open instance drains, the reply is a denial |
| Permit.PermitService.CheckJoin | scripts/interview-run-budget.py:557-573 | the loop over the pinned binaries gives the first fault in order |
| Permit.PermitService.DecideAsk | scripts/interview-run-budget.py:536-582 | state, ledger and reply of a permit request, in the order its checks are made |
| Permit.PermitService.DecideRequest | scripts/interview-run-budget.py:509-582 | state, ledger and reply of any request |
| Permit.RestartKeepsGrantsAndFaults | scripts/interview-run-budget.py:443-458 | a replay keeps every grant and the presence of a fault, is never closed, and is open exactly without a fault |
| PermitProtocol.GrantsAreNumbered | scripts/interview-run-budget.py:541-582 | on a well-kept ledger the grants are numbered 1 to n in order, n is within the ceiling, and actions are allowed and distinct |
| PermitProtocol.DecideIsSound | scripts/interview-run-budget.py:509-582 | every decision keeps the ledger well kept, moves phases only onward, and changes the grants by exactly what its reply says |
| PermitProtocol.DecidePermitIsSound | scripts/interview-run-budget.py:541-582 | the same for a permit request whose shape and identity were accepted |
| PermitProtocol.RestartIsSound | scripts/interview-run-budget.py:443-458 | a restart from a sound service's ledger is sound and has the same grants |
| PermitProtocol.CeilingLeavesRoom | scripts/interview-run-budget.py:302-307 | under a valid ceiling an allowed ungranted action always has a number left |
| PermitProtocol.JoinFaultsExactly | scripts/interview-run-budget.py:557-573 | no join fault exactly when every pinned binary is unchanged and hashed in time |
| PermitProtocol.ListedActionIsGrantedExactly | scripts/interview-run-budget.py:541-582 | a listed action asked for in turn is granted exactly when ungranted, in an open instance, before the deadline, with a passing join check |
| PermitProtocol.FinalIsGrantedUntilClosed | scripts/interview-run-budget.py:541-582 | the unspent final action with the right number is granted exactly until the instance closes |
| PermitProtocol.FinalIsAlwaysAvailable | scripts/interview-run-budget.py:397-582 | and so in every reachable world |
| PermitProtocol.DeadlineStopsNewWork | scripts/interview-run-budget.py:543-556 | after a permit decision made past the deadline the instance is not open, and only the final action was permitted |
| PermitProtocol.DenialsNameAReason | scripts/interview-run-budget.py:491-573 | every denial carries a non-empty reason |
| PermitProtocol.WorkerGuard.constructor | scripts/interview-run-budget.py:704-716 | a guard is ready with the next number exactly after a usable count |
| PermitProtocol.WorkerGuard.Permit | scripts/interview-run-budget.py:738-752 | granted exactly for a live guard whose reply matches its own request; any other end records its error, and a dead guard stays dead |
| PermitProtocol.ServeKeepsOneHolder | scripts/interview-run-budget.py:509-582 | serving a request gives a right to an action to at most one holder |
| PermitProtocol.ReceiveKeepsOneHolder | scripts/interview-run-budget.py:662-752 | hearing a reply moves that right from the wire to the guard |
| PermitProtocol.DispatchKeepsOneHolder | scripts/interview-run-budget.py:754-757 | dispatching spends it |
| PermitProtocol.StepKeepsInv | scripts/interview-run-budget.py:397-757 | every step of workers, launcher or network keeps one holder per granted action |
| PermitProtocol.RunKeepsInv | scripts/interview-run-budget.py:397-757 | so does every run, and the ledger only grows |
| PermitProtocol.AtMostOnce | scripts/interview-run-budget.py:397-757 | over every interleaving with losses, crashes and restarts no action is dispatched twice, each dispatched one has a durable grant, and the ledger's grants are 1 to n, distinct, allowed, within the ceiling |
| PermitProtocol.FaultIsForever | scripts/interview-run-budget.py:443-502 | after a fault only the final action is ever granted, at most once, restarts included |
| PermitProtocol.DrainAndCloseHold | scripts/interview-run-budget.py:471-556 | within one instance: once not open at most one more grant, the final action's; once closed none |
| PermitProtocol.DeadlineHolds | scripts/interview-run-budget.py:543-556 | if every decision is made past the deadline, the only new grant is the final action's, at most once, restarts included |
| PermitProtocol.RestartReopensUnlessFaulted | scripts/interview-run-budget.py:443-458 | a restarted instance is open exactly when the ledger shows no fault |
| PermitProgress.StatusTellsTheCount | scripts/interview-run-budget.py:522-529 | in every reachable world a status request changes nothing and is answered with the phase and the number of grants on the ledger |
| PermitProgress.JoinerIsReady | scripts/interview-run-budget.py:704-716 | a worker that joins and hears its count is ready for the next number, and nothing else has changed |
| PermitProgress.AskedIsDone | scripts/interview-run-budget.py:731-757 | a ready worker's action is granted, recorded and dispatched exactly when it may still be started; otherwise its guard is dead and nothing is dispatched |
| PermitProgress.NewWorkerGetsItDone | scripts/interview-run-budget.py:397-757 | so for a new worker of the run in every reachable world: a listed ungranted action in an open instance on time past a passing join check, or the final action until the close |
| PermitProgress.WholeRunGetsDone | scripts/interview-run-budget.py:302-307 | one worker, on time and undisturbed, does every listed action in any order and then the final one, which spends the ceiling exactly |
| PermitStory.JoinNamesTheFirst | scripts/interview-run-budget.py:565-573 | a refused join names the first binary that does not pass, and how |
| PermitStory.DecisionIsRecorded | scripts/interview-run-budget.py:491-582 | every request: a wrong one (malformed, another run's, an action unknown, granted before or out of turn, a changed binary) is denied for that reason and recorded as a fault; one that only comes too late is denied with the phase and is no fault; a permit records its grant; pings and status requests change nothing |
| PermitStory.InstanceIsTold | scripts/interview-run-budget.py:441-502 | from any restart on, the ledger tells the instance's phase, the reason of its first drain or fault or of its close, and the fault it keeps: the last one found, else its own first; a drain is recorded only while open, a close once |
| PermitStory.StoppedRunStays | scripts/interview-run-budget.py:471-556 | from any reachable world, once the run is closed nothing is granted in that instance, once drained at most the final action |
| PermitStory.WrongRequestStopsWork | scripts/interview-run-budget.py:491-582 | from any reachable world, one wrong request from anything ends all work but the final action for good, restarts included |
| PermitStory.GivenUpStaysDead | scripts/interview-run-budget.py:731-782 | a worker that gives up before it holds a permit never has that guard back |
| OwnedTree.OwnedTree.Sweep | scripts/interview-run-budget.py:889-902 | one pass stays inside every closed superset, adds only processes of the table with their own start, and reports a change exactly when it made one |
| OwnedTree.OwnedTree.Refresh | scripts/interview-run-budget.py:877-903 | ends with the least set that holds the surviving owned processes and the root enrolled once and is closed under the rules, for any order of the table; these are exactly the processes with a line of descent |
| OwnedTree.OwnedIsTheFamily | scripts/interview-run-budget.py:879-902 | a process is owned exactly if a line of children leads to it from a survivor, the root at first sight, a member of the root's group or an adopted orphan |
| OwnedTree.OwnedTree.Alive | scripts/interview-run-budget.py:905-911 | in ascending order, exactly the owned processes that still run with the start time recorded and are not zombies |
| OwnedTree.LeastIsUnique | scripts/interview-run-budget.py:877-903 | there is only one such set, so the order of the walk does not matter |
| OwnedTree.StrangerIsNotOwned | scripts/interview-run-budget.py:879-887 | a process no rule brings in and whose start differs from the one recorded is not owned: a recycled PID is dropped |
| HashChain.VerifyOne | scripts/hashchain.py:256-276 | one commit: its link, or the reason it is refused |
| HashChain.Verify | scripts/hashchain.py:237-277 | accepts exactly the related histories that can be labelled (seed at the anchor, clean two-parent merges under their own label, every other commit under its parent's label and carrying its own unless a bot's) and leaves the labels; otherwise names the first commit that cannot be, and why |
| HashChain.LabelsAreLinks | scripts/hashchain.py:255-274 | there is at most one labelling |
| HashChain.ShortcutFindsTheLabel | scripts/hashchain.py:280-303 | the backward link of every commit of a labelled history is its label |
| HashChain.Link | scripts/hashchain.py:280-303 | the loop and the unwinding give the backward link, or nothing where it raises |
| HashChain.ShortcutAgrees | scripts/hashchain.py:257-303 | on an accepted history, with any merges, hooked commits and bot runs, the backward link of every commit is the one the verifier computed |
| HashChain.RestampOne | scripts/hashchain.py:527-548 | a commit keeps its identity exactly while still valid, and fails only for a message that must be fixed |
| HashChain.RestampNext | scripts/hashchain.py:520-549 | one pass of the loop moves on with the kept beginning and the count right, or stops with a reason that rules a repair out |
| HashChain.Restamp | scripts/hashchain.py:516-549 | the loop succeeds exactly for a linear suffix whose commits past the longest valid beginning are a bot's or well styled, and then yields the rewritten chain and the number restamped |
| HashChain.ChainKeepsTrees | scripts/hashchain.py:442-466 | the rewritten suffix is linear above the same boundary with the same trees in order |
| HashChain.LongestValidPrefixIsKept | scripts/hashchain.py:526-548 | the commits of the longest valid beginning are unchanged and every later one is new |
| HashChain.RepairIsAccepted | scripts/hashchain.py:497-564 | above an accepted boundary the rewritten history is accepted |
| HashChain.ChainRepairs | scripts/hashchain.py:442-466 | a rewritten commit keeps its tree, author and bot mark, loses its signature, and gains one stamp, its own link, unless it is a bot's; every commit that is not a bot's then carries its own link |
| HashChain.KeptIsLongestSound | scripts/hashchain.py:526-536 | the beginning kept is the longest whose commits are a bot's or carry exactly their own link |
| HashChain.NewestMergeIsNewest | scripts/hashchain.py:505-512 | the boundary is the newest merge of the first-parent line above the anchor, if there is one |
| HashChain.Rechain | scripts/hashchain.py:497-564 | when it succeeds and when not, each exactly and with the first commit that stands in the way; on success the new tip is accepted, the suffix is linear above the boundary, each commit is repaired as above, the longest valid beginning keeps its commits, and the branch moves only if something was restamped |
| HashChain.SecondRunIsIdle | scripts/hashchain.py:516-549 | rewriting a rewritten suffix changes nothing |
| HashChain.SecondRunRestampsNothing | scripts/hashchain.py:497-564 | a second run finds the same boundary, is given exactly the first run's commits and restamps none |
| ChangedCharacters.LcsIsUpperBound | src/agent.rs:1684-1695 | no common subsequence is longer than the recurrence says |
| ChangedCharacters.LcsIsAttained | src/agent.rs:1684-1695 | some common subsequence is that long |
| ChangedCharacters.LcsIsLongest | src/agent.rs:1648-1695 | the recurrence is the maximum over all common subsequences |
| ChangedCharacters.TrimPrefix | src/agent.rs:1655-1660 | a shared prefix counts in full, so cutting it off loses nothing |
| ChangedCharacters.TrimSuffix | src/agent.rs:1661-1670 | neither does cutting off a shared suffix |
| ChangedCharacters.TrimmedIsTrimmed | src/agent.rs:1655-1670 | what trimming leaves is both inputs without one common prefix and one common suffix, and neither begins nor ends alike |
| ChangedCharacters.TrimmedCounts | src/agent.rs:1655-1695 | both counts are the same for the trimmed and the whole inputs |
| ChangedCharacters.Trim | src/agent.rs:1655-1670 | the two scans leave the inputs without their longest common prefix and then suffix |
| ChangedCharacters.FillRow | src/agent.rs:1684-1692 | one row of the table from the row above it, in place |
| ChangedCharacters.TableLcs | src/agent.rs:1681-1694 | the two swapped rows end with the length of a longest common subsequence |
| ChangedCharacters.ChangedCharacters | src/agent.rs:1654-1695 | no answer exactly when the trimmed table is over the bound; otherwise what lies outside a longest common subsequence of the whole inputs |
| EvidenceLog.Log.IsExpendable | src/agent.rs:1562-1570 | a row can go exactly when another covers its phase, with an observation if it is one |
| EvidenceLog.Log.EvictOne | src/agent.rs:1554-1573 | removes the oldest expendable row, or the first if there is none |
| EvidenceLog.Log.Append | src/agent/framework.rs:238-258 | appends, evicting first exactly at the cap |
| EvidenceLog.SomeRowIsExpendable | src/agent.rs:1548-1553 | among more than ten rows one is expendable, so the fallback never runs under the cap |
| EvidenceLog.CoverageNeedsASpare | src/agent.rs:1555-1570 | losing a row keeps the phases present and the phases observed exactly when the row is expendable |
| EvidenceLog.EvictionKeepsCoverage | src/agent.rs:1554-1573 | an eviction keeps coverage exactly when some row is expendable, and always above ten rows |
| EvidenceLog.LogCoversHistory | src/agent/framework.rs:238-264 | however many rows were ever appended, the log stays within its cap, covers the same phases and observed phases as all of them, and ends with the newest |
| EvidenceLog.OldestHarmlessGoes | src/agent.rs:1554-1573 | the row given up is the oldest whose loss costs no coverage, or the first if every row matters |
| EvidenceLog.LogKeepsOrder | src/agent/framework.rs:238-258 | the log is what is left of the history in its order: all of it up to 64 rows, 64 rows from there on |
| InterviewerDelivery.Delivery.AudioQueued | src/agent.rs:877-897 | the whole state after audio |
| InterviewerDelivery.Delivery.TranscriptLine | src/agent.rs:849-858 | the whole state after a fragment, with audio that waited for it |
| InterviewerDelivery.Delivery.PruneQueue | src/agent.rs:901-903 | keeps exactly what has not finished playing, in order |
| InterviewerDelivery.Delivery.Completed | src/agent.rs:908-915 | the whole state after a completion |
| InterviewerDelivery.Delivery.Replaced | src/agent.rs:919-923 | the whole state after a replaced socket |
| InterviewerDelivery.Delivery.Cancelled | src/agent.rs:928-950 | the whole state after a cut |
| InterviewerDelivery.StepKeepsInv | src/agent.rs:848-950 | every operation keeps: an open window's current line is marked, waiting audio excludes a current line and a window until next audio, only a marked line of an open window is extendable, queued lines are distinct |
| InterviewerDelivery.StepIsOnward | src/agent.rs:860-870 | marks only grow, and a line that takes no more words never takes any again |
| InterviewerDelivery.RunIsSound | src/livekit/session.rs:1062-1078 | both over every run whose fragments go only to accepted lines |
| InterviewerDelivery.WindowIsHistory | src/agent.rs:824-834 | which window is open is decided by the history alone: a generation cut with no completion or replacement since, or a playout cut outside one with no audio, replacement or generation cut since |
| InterviewerDelivery.StepMovesWindow | src/agent.rs:848-950 | each operation opens and closes exactly the windows it should; late words move none |
| InterviewerDelivery.WindowsSeparateText | src/agent.rs:849-866 | words in an open window land on a marked line, words outside every window on an unmarked one |
| InterviewerDelivery.AudioPlaysExactly | src/agent.rs:877-897 | audio plays for the open line if it still takes words and otherwise waits; no other line's end changes |
| InterviewerDelivery.CancelMarksExactly | src/agent.rs:925-938 | a cut marks exactly the lines still playing, and the current one if something was cut |
| InterviewerDelivery.OmittedStaysOmitted | src/agent.rs:952-971 | a marked line is omitted for every later reader, an unmarked one is shown word for word |
| DeliveryHistory.QueueIsHistory | src/agent.rs:849-903 | over every run: a line plays until an end exactly if that is the last audio it was given, while open or waiting for its first words, with no cut since and nothing forgotten since that had ended; completions and replacements leave the queue alone |
| DeliveryHistory.CutMarksByHistory | src/agent.rs:925-938 | over every run: a cut adds exactly the lines that still play by the history and, if anything was cut, the line then open |
| DeliveryHistory.AcceptedByHistory | src/agent.rs:860-866 | over every run: a line takes words exactly if nothing marked it, or words of a window still open went to it last |
| DeliveryHistory.StateIsHistory | src/agent.rs:775-950 | over every run every field is a reading of what happened |
| TimerLine.ParseOfText | src/agent.rs:1838-1841 | the rendering of a 64-bit integer parses back |
| TimerLine.LastOccurrence | src/agent.rs:1826 | a prefix with no later start is the one `rsplit_once` splits at |
| TimerLine.FinalClockIsLast | src/agent.rs:1818-1826 | the stamped clock is the last one, whatever the text before it |
| TimerLine.UnstampInvertsStamp | src/agent.rs:1825-1863 | removing the clock undoes adding it, for every text, forged clocks included |
| TimerLine.StampedIsUnstamped | src/agent.rs:1825-1846 | the same for either separator |
| TimerLine.OnlyAFinalClockIsRemoved | src/agent.rs:1825-1846 | a text changes exactly when it ends in one canonical clock after a separator |
| TimerLine.CanonicalMinutes | src/agent.rs:1838-1841 | the parse-and-render check accepts exactly canonical 64-bit integers: no plus sign, no leading zero, no minus zero |
| TimerLine.RemovedByText | src/agent.rs:1825-1846 | so what is removed is exactly a separator, the prefix, a canonical integer and the suffix at the very end |
| CivilDate.YearOfEraIsRight | src/delivery.rs:535-538 | the year formula names the year of the era that the day lies in |
| CivilDate.MonthDayIsRight | src/delivery.rs:539-545 | the month and day formulas agree with the calendar's month lengths |
| CivilDate.CivilFromDaysIsRight | src/delivery.rs:530-546 | for every integer day: a date of the proleptic Gregorian calendar, and the one that many days from 1970-01-01 |
| CivilDate.EveryDateIsFound | src/delivery.rs:530-546 | every date is found again from its day number |
| CivilDate.DaysAreOrdered | src/delivery.rs:530-546 | earlier dates have smaller day numbers |
| CivilDate.TomorrowIsNext | src/delivery.rs:530-546 | the calendar's next date has the next day number |
| CivilDate.ConsecutiveDays | src/delivery.rs:530-546 | consecutive days give consecutive dates |
| CivilDate.DayZero | src/delivery.rs:530-531 | day zero is 1970-01-01 |
| CivilDate.FourDigitYears | src/delivery.rs:547-548 | the year has at most four digits and no sign exactly from day -719,528 to day 2,932,896 |
| CivilDate.Rfc3339RoundTrip | src/delivery.rs:526-553 | the text has the date-time form of section 5.6 of RFC 3339 exactly for instants from -62,167,219,200 to 253,402,300,799, and then reads back as the instant |
| CivilDate.YearTenThousand | src/delivery.rs:526-553 | at 253,402,300,800 the date is January 1 of year 10000 and the text is not of that form |
| Decimal.RoundTrip | src/delivery.rs:547-552 | a rendered number reads back |
| Decimal.Canonical | src/agent.rs:1838-1841 | a digit string without a leading zero is the rendering of its value |
| Upload.StoredBytesReadsBack | src/delivery.rs:772-797 | a readable range is read as what it reports, exactly when that fits the object |
| Upload.Transfer | src/delivery.rs:581-671 | the loop puts the specified chunks and ends with the specified result, by the measure (budget, bytes left) |
| Upload.LoopIsBounded | src/delivery.rs:39-46 | against any server the number of chunks is bounded by the budget and the size |
| Upload.HonestLoop | src/delivery.rs:584-671 | against a session that keeps what it holds and never reports more, no chunk starts past what it holds, what it holds is always the object's own beginning, and a reported file is the whole object under the id it named |
| Upload.MadeIsTheObject | src/delivery.rs:556-671 | the file an attempt's session makes, once a chunk fills it and whether or not the answer arrives, is the object, and a reported id is that file's |
| Upload.LostAnswerIsFound | src/delivery.rs:562-569 | an attempt that fills its session without learning of it is answered by the next attempt's search, with a file that is the object |
| Upload.RunKeepsOneCopy | src/delivery.rs:562-671 | one more attempt keeps at most one file, equal to the object, and what it reports is that file; it uploads only after a search that worked and found nothing |
| Upload.OneFileAndItIsTheObject | src/delivery.rs:556-671 | over any sequence of attempts on sessions that lose nothing: at most one file, equal to the staged object, never changing, and every attempt that reports a delivery, found or uploaded, reports it |
| UploadOutcome.LoopIsAccounted | src/delivery.rs:581-671 | against every server: no chunk past the deadline or without token and bytes, each starts where the turn before says, at most the budget of turns spend a retry and one more ends it, and the result is the one the last turn calls for |
| UploadOutcome.UploadSucceedsExactly | src/delivery.rs:589-669 | with a session that answers, the upload reports its file exactly when the session comes to hold the whole object before it has faltered more often than the budget |
| UploadOutcome.EveryByteIsPut | src/delivery.rs:598-611 | a successful upload has put every byte |
| UploadOutcome.HealthyUploadTiles | src/delivery.rs:584-641 | with a session that takes every chunk whole, it succeeds on any budget, none included, and its chunks tile the object in order |
| UploadOutcome.ServedAttemptDelivers | src/delivery.rs:556-671 | a first attempt whose session serves it and loses nothing leaves one file, the object, and reports it |
| Qwk.Band | scripts/calibrate-framework.py:51-54 | a valid score's band holds it |
| Qwk.BandIsUnique | scripts/calibrate-framework.py:23-54 | and no other band does |
| Qwk.Tally | scripts/calibrate-framework.py:60-66 | the loop counts every pair in its cell and every score in its band |
| Qwk.WeightedObserved | scripts/calibrate-framework.py:67-69 | the weighted sum of the matrix, in sixteenths |
| Qwk.WeightedExpected | scripts/calibrate-framework.py:70-74 | the weighted sum of the product counts, over the number of pairs |
| Qwk.ObservedIsDistance | scripts/calibrate-framework.py:67-69 | the sum over the matrix is the sum of squared band distances over the pairs |
| Qwk.ExpectedIsCross | scripts/calibrate-framework.py:70-74 | the sum over the counts is the sum of squared band distances over all pairings |
| Qwk.CauchySchwarz | scripts/calibrate-framework.py:67-77 | n times the sum of squares is at least the square of the sum |
| Qwk.DistanceAtMostTwiceCross | scripts/calibrate-framework.py:67-77 | observed disagreement is at most twice the expected one |
| Qwk.KappaIsSound | scripts/calibrate-framework.py:75-77 | kappa lies in [-1, 1], is 1 exactly when all bands agree, is symmetric, and a zero expected disagreement means perfect agreement, so the 0.0 fallback has no input |
| Qwk.Qwk | scripts/calibrate-framework.py:57-77 | nothing exactly for unpaired or empty lists, otherwise the kappa of the bands with its bounds |
| Dispatch.LocalDispatcher.Reserve | src/dispatch.rs:342-407 | state and answer of a reservation, in the order its checks are made |
| Dispatch.LocalDispatcher.Release | src/dispatch.rs:173-187 | state and answer of a release |
| Dispatch.LocalDispatcher.Join | src/dispatch.rs:437-451 | state and answer of a join, given a start for the slot's room |
| Dispatch.LocalDispatcher.Finish | src/dispatch.rs:453-459 | the whole state once the assessment is over |
| Dispatch.LocalDispatcher.Drop | src/dispatch.rs:462-472 | the whole state once the slot is dropped |
| Dispatch.LocalDispatcher.CloseAdmission | src/dispatch.rs:132-137 | closes admission and nothing else |
| Dispatch.LocalDispatcher.Idle | src/dispatch.rs:121-126 | idle exactly when no room is live |
| Dispatch.IdleIsNoSlots | src/dispatch.rs:121-126 | and that is exactly when no slot is outstanding |
| Dispatch.StepKeepsInv | src/dispatch.rs:121-472 | every critical section keeps live rooms, starts and slots in one-to-one correspondence, guest rooms with guest slots, both caps, and the log's exclusions |
| Dispatch.RunKeepsInv | src/dispatch.rs:121-472 | so does every interleaving: no start both joins and is released, and only its own candidate releases it |
| Dispatch.PairedCount | src/dispatch.rs:17-27 | there are as many starts as slots and as many guest rooms as guest slots |
| Dispatch.AdmittedExactlyUnderTheCaps | src/dispatch.rs:342-407 | a room is admitted exactly when no slot holds it, admission is open, and the outstanding slots leave room under both caps |
| Dispatch.ReserveAnswersExactly | src/dispatch.rs:342-407 | the answer to every reservation by what has happened: a held room is finalizing once released, in use if either side is a guest, existing until its assessment finished; a free one closed, full, guest-full or new; only a new one changes anything, and it records the asker |
| Dispatch.HistoryDecidesTheRace | src/dispatch.rs:36-45 | a release succeeds exactly for the candidate of a start that neither joined nor was released, a join exactly for one not released |
| Dispatch.JoinNeverPanics | src/dispatch.rs:440-446 | a slot still held always finds its start, so the `expect` never fires |
| Dispatch.RaceHasOneWinner | src/dispatch.rs:36-45 | of a racing release and join exactly the first succeeds |
| Dispatch.ClosedAndIdleStaysSo | src/dispatch.rs:121-137 | once closed and idle, it stays idle under every later run |
| Dispatch.InterviewComesAndGoes | src/dispatch.rs:342-472 | in every reachable world, an interview admitted, joined, finished and dropped leaves the dispatcher as it found it |
| Dispatch.FirstIsAdmitted | src/dispatch.rs:14-34 | a new dispatcher admits any room, if it may run one |
| Dispatch.ClosingIsFinal | src/dispatch.rs:132-137 | after the close every request for a free room is answered as closed, whatever happened in between |
| Dispatch.ClosedOnlyShrinks | src/dispatch.rs:25-26 | once closed, slots only leave |
| OwedTime.MergedLength | scripts/analyze-latency.py:781-793 | for any list in any order, backward intervals included: never more than the size of the union, and equal to it exactly when every backward interval is reached by an earlier one |
| OwedTime.Absorb | scripts/analyze-latency.py:786-792 | one pass of the loop keeps that for the intervals so far, with what `reach` means |
| OwedTime.HarmlessInAnyOrder | scripts/analyze-latency.py:785-793 | the condition does not depend on the order |
| OwedTime.BackwardStandsAlone | scripts/analyze-latency.py:786-789 | the smallest list outside it, whose union is empty |
| OwedTime.UnionOfSame | scripts/analyze-latency.py:781-793 | the union depends on the intervals only, not on their order |
| OwedTime.UnionAtMostSum | scripts/analyze-latency.py:1114-1115 | never more than the summed gaps |
| OwedTime.UnionWithinExposure | scripts/analyze-latency.py:781-793 | never more than a clock from zero past every end |
| OwedTime.OwedGapIsSound | scripts/analyze-latency.py:796-868 | start, end, its source, state, reason and length of a gap: earliest owed start, first capture, else latest terminal record, else the run's end; a length, never negative, exactly for known ends in order |
| OwedTime.ClockExposure | scripts/analyze-latency.py:748-778 | an exposure exactly for a verified clock, equal to its latest reading or the latest record on it; otherwise the first reason that applies |
| OwedTime.Observations.Observe | scripts/analyze-latency.py:1201-1204 | moves one scope's reading forward and leaves the others |
| OwedTime.Observations.ObserveEnds | scripts/analyze-latency.py:1091-1098 | the readings after the pass over all rows |
| OwedTime.ObservedIsLatest | scripts/analyze-latency.py:1091-1098 | a scope's reading afterwards is the latest of the one before and its own rows' ends |
| OwedTime.SummedAddsUp | scripts/analyze-latency.py:1115 | the summed gaps are additive over lists, with a gap's length on each |
| OwedTime.IntervalsAddUp | scripts/analyze-latency.py:1065-1082 | a scope's intervals are additive over rows |
| OwedTime.OneRow | scripts/analyze-latency.py:1065-1082 | and of a single row they are its known gap as it is, if it is of the scope, else nothing |
| OwedTime.IntervalsAreTheGaps | scripts/analyze-latency.py:1065-1082 | they hold exactly the instants at which a reply of the scope was owed, one for each known gap |
| OwedTime.ScopeLine | scripts/analyze-latency.py:1100-1120 | a line counts the replies owed and those with an unknown gap; owed time is the number of instants at which one was owed, at most the summed gaps, and within the exposure of a verified scope if no gap starts before zero |
| OwedTime.TotalsAddUp | scripts/analyze-latency.py:1121-1123 | the totals are additive over lines and count a line exactly if its clock is verified |
| OwedTime.ReportScopes | scripts/analyze-latency.py:1051-1123 | the same for every line of the report, and for the totals over the verified scopes |
| UsageLedger.FrameAnnouncesOnce | src/gemini.rs:1722-1846 | a frame announces its usage once if it has any, and not at all otherwise |
| UsageLedger.UsageComesFirst | src/gemini.rs:1788-1808 | and ahead of its own interruption and completion |
| UsageLedger.FrameYields | src/gemini.rs:1722-1846 | a frame yields everything it carries exactly once, its parts in their order, ranked: voice activity, the candidate's words (after the completion in an interrupting frame), parts, output words, usage, interruption, completion, tool calls, the closing notice |
| UsageLedger.ChannelKeepsOrder | src/gemini.rs:957-985 | over every run, what was read is a beginning of the events of the frames read, and until the reader ends, read plus queued plus unsent is exactly those events |
| UsageLedger.FrameGetsThrough | src/gemini.rs:951-985 | in a live session with nothing waiting, a frame read and pumped through is read whole, and every usage recorded so far has been taken |
| UsageLedger.RetiringIsFinal | src/livekit/recovery.rs:877-929 | once a session is retired the room handles nothing more of it and takes no more of its usage |
| UsageLedger.StoppedReaderIsSilent | src/livekit/recovery.rs:1109-1118 | once the reader is stopped the room reads at most what was queued by then |
| UsageLedger.StepKeepsInv | src/gemini.rs:382-399 | every step of reader or consumer keeps announcements consecutive, each handled one paired with its own, and taken plus drained plus ledger equal to the recorded |
| UsageLedger.DiscardKeepsInv | src/livekit/recovery.rs:877-929 | so does reading a retired session only to discard its events |
| UsageLedger.NextAnnouncesTheFront | src/gemini.rs:382-389 | in a live session the next announcement is of the front of the ledger, which is never empty |
| UsageLedger.HandledUsageIsPaired | src/gemini.rs:382-389 | over every run: the k-th announcement handled is of the k-th frame read that carries usage, and took that frame's tokens with its completion counted |
| UsageLedger.NothingIsLostOrRepeated | src/gemini.rs:382-399 | over every run, stopped or retired anywhere: what was taken, then drained, then is left is exactly the usage of the frames read, in order |
| UsageLedger.RecordedIsTheFrames | src/gemini.rs:951-956 | a run records exactly the usage of the frames it reads, in order, completions counted |
| UsageLedger.Session.Record | src/gemini.rs:951-956 | the observation goes on the ledger before any event of its frame |
| UsageLedger.Session.TrySend | src/gemini.rs:957-985 | refused exactly when the channel is full |
| UsageLedger.Session.TakeFront | src/gemini.rs:382-389 | takes the front of the ledger |
| UsageLedger.Session.DrainUsage | src/gemini.rs:391-399 | returns everything not yet taken and leaves nothing |
| UsageLedger.Session.HandleNext | src/gemini.rs:382-389 | one turn of the room loop takes an observation exactly for an announcement |

## Left out

- The document around the gap table: finding the block and parsing its lines (`check-gap-state.py` 97-168). A table is arbitrary; only its events are known to be listed ones.
- `classify_turn` and `classify_report` of the same script: independent case rules over reports.
- GapExplore.Explore: speaks for runs that set `post_send` only on `evidence_turn` and carry an id on each `loss_voiced`, as the exploration itself does.
- The rest of the run manifest beyond the action rules, the resource sampler, telemetry, process signalling and the launcher's own loop of the same file.
- PermitProtocol.AtMostOnce: a ledger append is atomic and durable; a torn line, which a replay skips, and a write that fails after the grant is in memory are not modelled. Requests still on the wire survive a launcher restart here, which allows more runs than the sockets do.
- Permit.PermitService.FaultNow: the `on_fault` callback is not modelled.
- Permit.PermitService.DecideRequest: the sorted list in a status reply, the `on_fault` callback and the protocol version field are not modelled; a request with a wrong version is one that does not parse.
- PermitProtocol.WorkerGuard.Permit: the launcher watch and its stop event are one step that kills a waiting guard; reading the environment is left out.
- `base`, `fix`, the commit hooks and the trusted-policy, shallow-clone and graft checks of `hashchain.py`: they read repository configuration.
- HashChain.Verify: works over a history already listed; the trusted-anchor policy, shallow-clone and graft checks come before it.
- HashChain.Rechain: the check for an attached branch, the check that the branch did not move meanwhile is left out, and Git's listing and merging are described by what they list and merge.
- `check_merge` and the trailer parser are arbitrary functions; hash strength is not used.
- `SpeakerTurn`, prompts, markup and whiteboard handling of `src/agent.rs`.
- ChangedCharacters.ChangedCharacters: the table bound is a parameter below the largest machine word; the source sets it to 4,000,000.
- EvidenceLog.Log.Append: the coverage ledger beside the rows and the fields a row carries besides time, phase, kind and summary.
- InterviewerDelivery.Delivery.TranscriptLine: instants are integers and the clock is read by the caller; fragments that open no line are not operations.
- The provider calls of `src/delivery.rs` other than the transfer: tokens, sharing, revoking, deletion and the status notes.
- Upload.OneFileAndItIsTheObject: the object does not change between attempts, an empty object is never uploaded, attempts on one recording do not overlap, the duplicate search is consistent, and a write takes effect before its attempt ends or never.
- Upload.HonestLoop: a session that loses bytes it acknowledged, or one that takes bytes past a gap, is outside its assumption.
- UploadOutcome.UploadSucceedsExactly: for turns that can be made and sessions that answer as the protocol allows; how a transfer ends against any other server is `UploadOutcome.LoopIsAccounted`.
- PermitProgress.NewWorkerGetsItDone: for a worker whose messages are not lost and whom no other request overtakes.
- Qwk.Qwk: reals in place of floats, so rounding is not modelled; a score outside 0 to 100, which an earlier check of the same script rejects, is a precondition.
- OwedTime.OwedGapIsSound: the length in seconds, rounded to three places, is left out.
- OwedTime.ScopeLine: the count of sockets in a line is left out.
- OwedTime.ReportScopes: sockets, episodes, percentiles and the rounding of the summary; the scopes come in as a list of keys instead of being collected and sorted.
- Dispatch.LocalDispatcher.Release: the wake-up it sends to the room task is not modelled.
- Dispatch.LocalDispatcher.Reserve: the interview task that owns a slot, no-show consent and the notification a release sends are not modelled; a slot's identity stands for its notification.
- UsageLedger.Session.TrySend: waiting on a full channel is the absence of a step; the timing counters, the busy window and the resumption handle of the reader are left out.
- Configuration, the web handlers, storage, recording and browser code of the repository.
