# The budget scheduler of cisternd, verified

`cisternd` runs a backlog of tasks in sessions. A session declares a budget, in tokens or as a share of the
vendor's limit, and a time. Whenever a run ends the daemon decides, from what runs before it came to, which
waiting tasks may start and with what ceiling, or stops the session for a stated reason. This project is a
model of that scheduler and of the stores and printed forms beside it, with proofs of what they promise:

- **No over-commitment, and what it takes.** All that was ever reported to a session and the ceilings of its
  runs still to be recorded stay within the declared tokens and three named terms, over every run of the daemon
  whose retries come in time (`Reports`). The terms are what runs went past their ceilings, what the session
  was made to forget, and what decisions made late booked no room for. When a decision about to be made can
  pass the budget is exact, told by how things stand before it (`Overspending`), and each way past the budget,
  an early retry among them, is a run from an empty daemon and an empty ledger, under every policy
  (`Forgetting`, `Untimely`).
- **No idle session, no lost task.** Over every interleaving of lock holds a running session has a task going
  or somebody who owes it a decision (`NoIdle`), and every session ends, however often the vendor turns a run
  away (`Progress`).
- **Truthful stop reasons.** Each is given exactly where what it says is so (`Settling`), and what can come
  between the decision and the stop and leave it true is named (`Reasons`).
- **An exact account of a share of the limit**: no stretch is charged twice, and a window is charged again
  only where it is entered again, by no more than it had reached (`Metering`, `Rates`).
- **Stores that give back what they were given**: a ledger that survives torn writes (`Ledger`), a trace
  paged without loss exactly where no page starts at half a line (`Traces`), and text round trips for
  sessions, backlog and specs (`Stores`, `Holds`, `SpecText`).

## Layout

| files | what they hold |
|---|---|
| `Wrappers`, `Numbers`, `Splitting`, `Decimals`, `Bytes` | results, 32- and 64-bit widths with their wraps and clamps, cutting at a mark, counts as text, files |
| `Spendings`, `Tasks`, `SessionValues` | consumption and budgets, tasks and sessions as values, and what each operation makes of them |
| `Graph`, `Backlogs`, `Closure` | the `after` graph, the backlog as a class, what commands from an empty store reach |
| `Sessions`, `Metering` | the session set as a class, and the accounting of looks at the vendor's limit |
| `Quantiles`, `Sizings`, `Rates`, `Figuring` | quantiles in three-hundredths, sizing, shares of the limit, and both worked out from the ledger's lines |
| `Decisions`, `MoreBudget`, `AtAnyPace` | allowing, and when more budget never starts fewer, where no pace holds back and where one does |
| `Settling`, `FirstInLine`, `Supervising`, `Working` | deciding, one hold, whom it hands something to first, the supervisor, worker and queue as classes |
| `Protocol`, `Steps`, `NoIdle`, `Progress`, `Reasons` | the daemon as a state machine over its lock holds, and what every run of it keeps |
| `Commitments`, `BudgetBound`, `Reports`, `Overspending`, `Outliving` | the budget bound, of what tasks say and of the history, when it can be passed, and tasks that end with their sessions |
| `Precedents` | the ledger a run of the daemon writes and decides by |
| `Episodes`, `OneOut`, `TwoOut`, `Untimely`, `Forgetting` | stretches of runs, and the runs from the daemon's start that break the bounds |
| `Ledger`, `Traces`, `Spellings`, `Stores`, `Holds`, `Specs`, `SpecText` | the stores and the printed forms |

Operations the daemon does in place are class methods, each proved equal to a function of the old state; the
lemmas are about those functions, and `Protocol` is built from the same ones. A step of `Protocol` is one
hold of one store, or one look at the queue, by one thread. What the vendor, the clock, the agent and the
ledger answer are parameters of the step that asked, so a property of every run holds whatever they say. The
runs that show a bound broken are given nothing the daemon could not be: a run ends as a worker ends it, and
every decision's figures are worked out by the policy's own rule from the lines written so far.

A 32-bit counter and a 64-bit sum or product the source leaves unchecked wrap in the model, as they do in a
release build; where a theorem needs one not to, it says so or proves it.

## Where the code does not do what it might be taken to

- What a session has spent is read off what its tasks say at the moment. `record` writes over what a task said
  and `remove` takes it away, so a session forgets what a task reported when that task is removed
  (`Forgetting.ARemovalIsForgotten`), retried in the same session (`Forgetting.ARetryIsForgotten`), or handed
  out again after the vendor turned its run away and before the stop lands
  (`Forgetting.ATurningAwayIsForgotten`). Runs in which reports stand are those `Reports.AllLetReportsStand`
  holds of, and when forgetting does harm is exact: `Overspending.ARunOverspendsExactlyWhere`.
- `settle` reads the session before it takes the hold of the backlog. A stop that lands between leaves a
  decision made for a session that has stopped: `Untimely.ALateDecisionOverCommits` and
  `Untimely.ALateDecisionOutlivesItsSession`. When that does harm is exact:
  `Overspending.RunsCutOffAreHarmfulExactlyWhere` and `Outliving.DecisionsLeaveNothingExactlyWhere`.
- Nothing keeps a person from retrying a task whose worker is still out. That leaves one run to a task
  exactly where it is not done: `Untimely.RetriesKeepOneRunEach`, and it breaks the bound:
  `Untimely.ARunRecordedTwiceOverCommits`. A run of the daemon is timely where neither this nor a late
  decision happens (`Commitments.Timely`).
- A retried task keeps what it consumed, and takes it along to the session it is assigned to next, where it is
  counted though nothing was spent for that session. `BudgetBound.WhatTasksSayStaysWithin` carries that as a
  term of its own.
- `allow` is greedy and passes over what does not fit, so a larger budget may start fewer tasks
  (`Decisions.MoreBudgetMayStartFewer`); when it never does: `MoreBudget.BudgetsNeverStartFewerExactlyWhere`
  where no pace holds back, and `AtAnyPace.NeverFewerToWithinOneToken` where one does.
- The quantile's product is a 64-bit one nobody checks: it rises exactly where the gap is narrow enough,
  `Quantiles.RisesExactlyWhereNarrow`.
- The trace reader steps over a last line that is not finished yet: `Traces.HalfALineIsLost`, and exactly when
  is `Traces.RestsOnALineExactlyWhere`.
- A reading named for another window than the one held is charged whole, so a window entered again is charged
  again: `Metering.ReenteredWindowsAreChargedAgain` and `Metering.AWindowIsChargedTwice`.
- A stop is decided under one hold and lands under another. A registration between makes "all done" untrue:
  `Reasons.ARegistrationLeavesMoreToDo`.

## Model

| member | source | states |
|---|---|---|
| Graph.BoundedWalkDecidesAcyclic | crates/cisternd/src/core/domain/task.rs:880-894 | over distinct numbers and present predecessors, the walk of at most as many steps as there are tasks finds no way back if and only if the `after` graph has a rank that falls along every edge |
| Graph.LongWalkRepeats | crates/cisternd/src/core/domain/task.rs:880-894 | a walk that can take as many steps as there are tasks has met one task twice, which is why that many steps are enough |
| Graph.WalksEnd | crates/cisternd/src/core/domain/task.rs:880-894 | where no bounded walk comes back, every walk from a task on the list ends within that many steps |
| Graph.SplicingStaysWellFormed | crates/cisternd/src/core/domain/task.rs:460-475 | taking any task out and handing its predecessor on leaves numbers distinct, predecessors present and the graph acyclic |
| Graph.RegisteringStaysWellFormed | crates/cisternd/src/core/service/backlog.rs:232-251 | adding a task that names only a present predecessor closes no cycle |
| Graph.BlockedHasARetry | crates/cisternd/src/core/domain/task.rs:671-748 | in a well-formed backlog that is blocked with nothing running there is an ended, not completed task whose retry is a task that may start, so the backlog is no longer blocked |
| Backlogs.Backlog.Add | crates/cisternd/src/core/domain/task.rs:420-458 | the new task is the registered one under the counter's number, put last; the counter moves on by one and wraps at the top of 32 bits |
| Backlogs.Backlog.Remove | crates/cisternd/src/core/domain/task.rs:460-475 | refused and unchanged where the task is missing or not waiting; otherwise the backlog with that task spliced out, well formed if it was, and the number gone |
| Backlogs.Backlog.Assign | crates/cisternd/src/core/domain/task.rs:484-513 | the first waiting task of that number is handed over with its ceiling, session, start, model and one more attempt; nothing else moves; says whether there was one |
| Backlogs.Backlog.WorkArea | crates/cisternd/src/core/domain/task.rs:556-562 | every task of that number gets the work area and no other changes |
| Backlogs.Backlog.Finish | crates/cisternd/src/core/domain/task.rs:598-606 | exactly the running task of that number ends in that state, with that reason and time |
| Backlogs.Backlog.Record | crates/cisternd/src/core/domain/task.rs:623-629 | exactly the task of that number carries the new observation |
| Backlogs.Backlog.Conversed | crates/cisternd/src/core/domain/task.rs:616-620 | the first task of that number carries the conversation |
| Backlogs.Backlog.WaitAgain | crates/cisternd/src/core/domain/task.rs:725-734 | the task goes back to waiting with its reason cleared, whatever state it was in |
| Backlogs.Backlog.WaitsAgain | crates/cisternd/src/core/domain/task.rs:657-686 | a retry goes through exactly for an ended task, clears reason, ceiling and disposition and keeps what it consumed; otherwise the right refusal and no change |
| Backlogs.Backlog.Interrupt | crates/cisternd/src/core/domain/task.rs:762-773 | exactly the tasks running for the session are interrupted, and the answer names exactly those in order |
| Backlogs.Backlog.Restore | crates/cisternd/src/core/domain/task.rs:821-852 | accepts exactly the well-formed backlogs, unchanged, and otherwise reports the first of repeated number, missing predecessor, cycle that applies |
| Backlogs.RepeatedIn | crates/cisternd/src/core/domain/task.rs:854-861 | answers nothing exactly where all numbers are distinct, else the first number met twice |
| Backlogs.AbsentFrom | crates/cisternd/src/core/domain/task.rs:863-878 | answers nothing exactly where every predecessor is there, else the first task naming one that is not |
| Backlogs.CycleIn | crates/cisternd/src/core/domain/task.rs:880-894 | the bounded walk as the loop it is: answers nothing exactly where no task leads back to itself, else the first that does |
| Tasks.WaitingIsWhatMayStart | crates/cisternd/src/core/domain/task.rs:528-540 | the waiting list is exactly the tasks that are pending and have no predecessor or a completed one, each with its model, in registration order |
| Tasks.SomethingRuns | crates/cisternd/src/core/domain/task.rs:751-759 | the count of tasks running for a session is positive if and only if one is |
| Closure.CommandKeepsSound | crates/cisternd/src/core/domain/task.rs:420-475 | every hold of the backlog keeps it one `restore` accepts with the counter above every number, and only a registration moves the counter, by one |
| Closure.ReachableBacklogsAreAccepted | crates/cisternd/src/core/domain/task.rs:821-894 | from an empty store, whatever commands came, the backlog is one `restore` accepts and no number was ever handed out twice, removed ones included |
| Closure.OnlyTheLastNumberWraps | crates/cisternd/src/core/domain/task.rs:420-458 | a registration keeps the counter ahead of every number if and only if it was not at the top of 32 bits |
| Working.Register | crates/cisternd/src/core/service/backlog.rs:232-251 | the task is added exactly where the predecessor it names is there, under one hold; otherwise the missing number is named and nothing changes |
| Working.Worker.End | crates/cisternd/src/core/service/work.rs:278-285 | one hold ends the task, records what it consumed and keeps its conversation together, and answers with the session it was in |
| Working.Worker.TurnAway | crates/cisternd/src/core/service/work.rs:232-255 | one hold records what a turned-away run consumed and puts its task back to waiting, and answers with the session it was in |
| Sessions.Sessions.Open | crates/cisternd/src/core/domain/session.rs:393-418 | refused exactly while one is running, naming it; otherwise a running session under the counter's number, its figure at nought in the unit declared |
| Sessions.Sessions.Stop | crates/cisternd/src/core/domain/session.rs:424-432 | exactly the running session of that number stops with that reason, and afterwards it does not run |
| Sessions.Sessions.Record | crates/cisternd/src/core/domain/session.rs:445-459 | the first session of that number has the figure written down unless it has stopped or the figure was read before the one held, which ends the loop; over distinct numbers that is the one session named, and a set the store accepts stays one |
| Sessions.Sessions.Measured | crates/cisternd/src/core/domain/session.rs:478-539 | the look's effect on the session and its answer are exactly those of the value function the accounting lemmas are about |
| Sessions.Sessions.ResetsAt | crates/cisternd/src/core/domain/session.rs:542-551 | exactly the sessions of that number carry the new window |
| Sessions.Sessions.Restore | crates/cisternd/src/core/domain/session.rs:577-615 | accepts exactly the sets with distinct numbers, one running at most and a reason exactly on each stopped session, and its refusal is true of the set |
| Metering.StretchesChain | crates/cisternd/src/core/domain/session.rs:499-538 | over any looks the pairs charged chain end to end from the reading the session opened on: each `before` is the last accepted look |
| Metering.ChargedAtMostWhatWasConsumed | crates/cisternd/src/core/domain/session.rs:478-539 | the climb over all stretches a session was charged for never exceeds what it consumed, which only rises |
| Metering.NotingAnOldLookChangesNothing | crates/cisternd/src/core/domain/session.rs:445-459 | noting a share read earlier than the one held leaves the session as it is, so looks may be noted late |
| Metering.MeasuredIsTheAccount | crates/cisternd/src/core/domain/session.rs:478-539 | for named readings in window order, the first window at or above the opening reading, consumed is how far the first window rose plus the highest reading of every later one |
| Metering.AnotherWindowAddsAllOfIt | crates/cisternd/src/core/domain/session.rs:478-539 | a reading named for the window held adds how far it rose and one named for any other window adds all of itself, whether or not that window was measured before |
| Metering.ReenteredWindowsAreChargedAgain | crates/cisternd/src/core/domain/session.rs:478-539 | for readings of named windows in order, entered again or not, consumed is exactly what each window reached, less the opening reading, and once more, of every window entered again, the lesser of what it had reached before and what it reaches then, clamped |
| Metering.NothingIsChargedAgainExactlyWhere | crates/cisternd/src/core/domain/session.rs:478-539 | nothing is charged again if and only if no window read at anything is entered again and read at anything |
| Metering.AWindowIsChargedTwice | crates/cisternd/src/core/domain/session.rs:478-539 | two windows taking turns: sixty used and a hundred and ten charged |
| Metering.ArrivalOrderDoesNotMatter | crates/cisternd/src/core/domain/session.rs:478-539 | readings of one window may arrive in any order: the figure is the same |
| Spendings.TotalIsTheClampedSum | crates/cisternd/src/core/domain/consumption.rs:50-78 | adding with saturation per kind and then across kinds gives the exact sum clamped once at the top of 64 bits |
| Quantiles.At | crates/cisternd/src/core/domain/sizing.rs:147-162 | the figure lies between the least and the greatest of the list, every index being in range |
| Quantiles.BetweenStaysBetween | crates/cisternd/src/core/domain/sizing.rs:147-162 | the interpolation stays between its neighbours even where its 64-bit product wraps |
| Quantiles.AtLiesBetweenItsNeighbours | crates/cisternd/src/core/domain/sizing.rs:147-162 | the figure lies between the two order statistics its rank falls between |
| Quantiles.AtRisesWithTheQuantile | crates/cisternd/src/core/domain/sizing.rs:147-162 | while no gap is wide enough to wrap, a higher percentage never gives a lower figure, flooring and all |
| Quantiles.AtRisesWithTheData | crates/cisternd/src/core/domain/sizing.rs:147-162 | while no gap is wide enough to wrap, pointwise larger data never gives a lower figure |
| Quantiles.RisesExactlyWhereNarrow | crates/cisternd/src/core/domain/sizing.rs:147-162 | between two neighbours the reading rises over all three hundred parts if and only if 299 times their gap keeps within 64 bits |
| Quantiles.AWideGapIsNotMonotone | crates/cisternd/src/core/domain/sizing.rs:147-162 | an instance of a wider gap, through the whole quantile: the 50th percentage reads lower than the 29th |
| Quantiles.OneSortedForm | crates/cisternd/src/core/domain/sizing.rs:92-122 | lists with the same entries sort to the same list |
| Sizings.Under | crates/cisternd/src/core/domain/sizing.rs:92-122 | the map built by setting runs apart and sorting holds, for each model, exactly the figure worked out from that model's own runs, and nothing for a model with none |
| Sizings.LedgerOrderDoesNotMatter | crates/cisternd/src/core/domain/sizing.rs:92-122 | ledgers with the same runs in any order give every model the same figure |
| Sizings.AStoppedRunOnlyLifts | crates/cisternd/src/core/domain/sizing.rs:92-122 | one more run stopped at its ceiling never lowers a model's estimate |
| Sizings.BusyIsAtLeastAlone | crates/cisternd/src/core/domain/sizing.rs:92-122 | where the busy percentage is at least the alone one and no gap wraps, the estimate is at least the fallback |
| Sizings.WideningIsBounded | crates/cisternd/src/core/domain/sizing.rs:39-45 | what is allowed is at least the estimate and at most it widened by the whole margin |
| Figuring.Costs | crates/cisternd/src/core/service/supervision.rs:310-332 | from the ledger's lines, every model's figure in the unit declared: tokens as counted, or prices at the ledger's own rate; no figure at all for a share while no line has said both |
| Figuring.Lasting | crates/cisternd/src/core/service/supervision.rs:338-345 | every model's figure for how long its runs took, from the lines whose times read and run forward |
| Figuring.TheOrderRunsEndedInDoesNotMatter | crates/cisternd/src/core/service/supervision.rs:310-345 | ledgers of the same lines in any order say the same of every model, in either unit, rate and all, and of how long runs take |
| Rates.MovedPerMillionth | crates/cisternd/src/core/domain/sizing.rs:260-275 | the loop's two counters are the clamped sums of how far runs moved the limit and of what those runs were priced at |
| Rates.ProratingConserves | crates/cisternd/src/core/service/supervision.rs:310-332 | the runs' shares cost·moved/over come to no more than the movement and, where no product overflows, to more than it less one a run |
| Rates.LedgerMovesNoMoreThanConsumed | crates/cisternd/src/core/service/work.rs:308-325 | whatever looks a session took in whatever order, the movement its ledger lines report is no more than it consumed: no stretch is charged twice |
| Decisions.Allow | crates/cisternd/src/core/domain/supervision.rs:111-135 | the greedy loop, with its early exit and its skips, gives exactly the allowances the lemmas below are about |
| Decisions.GivenInTheOrderTheyWait | crates/cisternd/src/core/domain/supervision.rs:111-135 | allowances are an order-preserving selection of the waiting tasks: exactly those offered something at their turn, each ceiling what was offered and at least 1, together at most what is left less what is booked |
| Decisions.WhatAnOfferPromises | crates/cisternd/src/core/domain/supervision.rs:28-103 | whatever is offered fits the time left and what is free; with others going it is exactly what busy runs took, widened, for a run whose widened length the budget lasts for at the rate it has gone; alone, at least what cheap ones took |
| Decisions.IdleAndNothingGiven | crates/cisternd/src/core/domain/supervision.rs:84-135 | with nothing running, nothing is given if and only if every waiting task is refused on its own |
| MoreBudget.MoreNeverStartsFewerExactlyWhere | crates/cisternd/src/core/domain/supervision.rs:111-135 | giving sizes in turn and passing over what does not fit, more never starts fewer if and only if no size could be passed over for two or more behind it that fit into one less than it |
| MoreBudget.MoreBudgetNeverStartsFewer | crates/cisternd/src/core/domain/supervision.rs:84-135 | under a pacing that holds nothing back, a session with a larger budget never starts fewer tasks where, with something going, no waiting task could crowd two others out, and with nothing going, the first task with a size that fits the clock has none such behind it and what is too little for it starts one at most behind it |
| MoreBudget.BudgetsNeverStartFewerExactlyWhere | crates/cisternd/src/core/domain/supervision.rs:84-135 | and over all budgets that holds if and only if so, idle or busy, while all that is wanted may be declared |
| MoreBudget.NoneCrowdsOutAlone | crates/cisternd/src/core/domain/supervision.rs:84-135 | with nothing going it is enough that no waiting task could crowd two others out |
| AtAnyPace.MoreBudgetNeverStartsFewer | crates/cisternd/src/core/domain/supervision.rs:28-135 | whatever the pacing, the shipped one included, the clock and the rate, idle or busy: a session with a larger budget never starts fewer tasks where none that waits has two smaller ones behind it, though a larger budget lets longer runs go beside others |
| AtAnyPace.SomePaceStartsFewer | crates/cisternd/src/core/domain/supervision.rs:28-135 | where two wait behind a task that are each smaller by more than one token, some lengths of runs and some rate make a session that holds back start fewer tasks out of one token more |
| AtAnyPace.NeverFewerToWithinOneToken | crates/cisternd/src/core/domain/supervision.rs:28-135 | so over all lengths, clocks, rates and pacings the condition on the waiting list is exact to within one token |
| AtAnyPace.SizesThatDoNotFall | crates/cisternd/src/core/domain/supervision.rs:111-135 | none has two smaller ones behind it where the sizes do not fall along the waiting list |
| MoreBudget.WhereOneCrowdsTwoOut | crates/cisternd/src/core/domain/supervision.rs:111-135 | for every waiting task that could, the budget just enough for it and all before it starts fewer than the budget one below |
| MoreBudget.SizesThatDoNotFall | crates/cisternd/src/core/domain/supervision.rs:111-135 | none crowds two out where the wanted sizes do not fall along the waiting list, one model being the usual case |
| Decisions.MoreBudgetMayStartFewer | crates/cisternd/src/core/domain/supervision.rs:111-135 | an instance: a waiting list where three units start one task and two start two |
| Decisions.CarryingOnIsNotIdle | crates/cisternd/src/core/domain/supervision.rs:249-286 | a session that carries on has a task going or starts one, and starts all it allows unless its time is up |
| Settling.StopReasonsAreTrue | crates/cisternd/src/core/domain/supervision.rs:223-286 | each stop reason is reached if and only if what it says holds of the backlog and the figures, and no other reason is ever reached |
| Reasons.ReasonsStayTrue | crates/cisternd/src/core/service/supervision.rs:197-295 | the reason a decision recorded is still true after any run of steps in between none of which is a command, another decision, a cut, or the end or turning away of a run |
| Reasons.ARegistrationLeavesMoreToDo | crates/cisternd/src/core/service/backlog.rs:232-251 | a task registered in between makes it untrue that all is done |
| Settling.TheClockAgreesWithTheDecision | crates/cisternd/src/core/service/supervision.rs:370-390 | for a session out of time with nothing going, the clock's reason is the one a decision would give then if and only if consumption is readable |
| Settling.AssigningHandsOverExactlyThese | crates/cisternd/src/core/service/supervision.rs:224-239 | assigning a list of waiting tasks hands over exactly those, each with its own ceiling, leaves every other as it was, and adds their count and ceilings to what the session has going |
| Settling.SettlingStartsWhatFits | crates/cisternd/src/core/service/supervision.rs:197-242 | a decision that starts hands over the first min(allowed, free hands), each pending with no predecessor or a completed one, within what is free, never takes the session past the hands there are, and leaves something running |
| Supervising.Supervisor.Settle | crates/cisternd/src/core/service/supervision.rs:167-263 | over both stores and any set of sessions: nothing for a session not running; otherwise the figure noted and either the decided tasks handed over and named, or the session stopped for the decided reason and its tasks cut; a set the store accepts stays one |
| Supervising.Supervisor.Stop | crates/cisternd/src/core/service/supervision.rs:275-295 | the session stops with the reason, exactly its running tasks are interrupted in the reason's words, and the answer is exactly those |
| Supervising.Supervisor.StopIfOutOfTime | crates/cisternd/src/core/service/supervision.rs:370-390 | stops exactly the running session that is out of time with nothing going, for the clock's reason, and otherwise changes nothing |
| Supervising.Supervisor.AssignThese | crates/cisternd/src/core/service/supervision.rs:224-239 | the loop over the allowances hands over as many as there are hands, and answers with those still there to assign |
| Supervising.OneDecisionLeavesNothingBehind | crates/cisternd/src/core/service/supervision.rs:167-295 | a decision taken as one step leaves no task running for a stopped session, and its session stopped or with a task running |
| Steps.WhatAStepCarries | crates/cisternd/src/core/service/work.rs:108-137 | at lock-hold granularity a run is carried from the hold that assigns it until it ends or a worker finds it no longer running, however it passes between threads and the queue |
| Steps.SessionsStaySound | crates/cisternd/src/core/domain/session.rs:393-459 | every step keeps session numbers distinct and handed out, one session running at most, and an opening reading on every share |
| Steps.BacklogStaysSound | crates/cisternd/src/core/service/supervision.rs:197-295 | every step of the daemon keeps the backlog one `restore` accepts |
| NoIdle.StepsKeep | crates/cisternd/src/core/service/supervision.rs:167-295 | one step of any thread keeps all of it: sessions sound, every number known, every running task carried, every running session attended |
| NoIdle.NoSessionSitsIdle | crates/cisternd/src/core/service/supervision.rs:167-295 | after any interleaving from the start, a running session has a running task or somebody who owes it a decision or a stop, and every running task is queued, about to be, or in a worker's hands |
| Progress.StepsLeaveLess | crates/cisternd/src/core/service/work.rs:218-328 | every step the daemon takes by itself, a run the vendor turns away among them, lowers a tuple in order of importance: whether a session runs, late decisions still to come, carried runs of sessions that do not run, threads not about to stop the running one, and the work left |
| Progress.EverySessionStops | crates/cisternd/src/core/domain/supervision.rs:271-285 | left to itself from any reachable state, whatever the vendor turns away, the daemon takes boundedly many steps, has boundedly many runs turned away, ends at most as many as were waiting or carried, and where it can go no further no session runs |
| Commitments.StepsKeepOneRunEach | crates/cisternd/src/main.rs:218-252 | while retries come only once a run is no longer carried, a task has at most one run being carried, none while it waits, and stays on the list while it has one |
| Commitments.StepsKeepCarriedRuns | crates/cisternd/src/core/service/supervision.rs:275-295 | under the same retries the carried runs of a session that runs are exactly runs of running tasks |
| BudgetBound.StepsKeepRoomBounded | crates/cisternd/src/core/domain/task.rs:547-553 | whatever order steps come in, late decisions and early retries too, the ceilings of a session's running tasks never pass what it declared, so the unchecked 64-bit sum never wraps |
| BudgetBound.WorkCommitsNoMore | crates/cisternd/src/core/service/work.rs:278-285 | no step but a decision commits a session to more, save by what a recorded run went past its own ceiling |
| BudgetBound.WhatADecisionCommits | crates/cisternd/src/core/service/supervision.rs:197-242 | to the token, whenever it is made, what a decision leaves its session committed to: what it counted and booked, the ceilings of runs cut off but still carried, what it hands out and what those tasks bring along |
| Overspending.RunsCutOffAreHarmfulExactlyWhere | crates/cisternd/src/core/service/supervision.rs:172-242 | for a decision about to be made, late or in time, with something waiting, free and a hand for it: some figures make it commit its session past what was declared and brought if and only if the ceiling of a run cut off is still out |
| Overspending.ForgettingIsHarmfulExactlyWhere | crates/cisternd/src/core/service/supervision.rs:172-242 | there too, some figures take all that was ever reported and all that is outstanding past what was declared if and only if what was forgotten and what runs cut off may still spend is more than what tasks with a run out had told the session |
| BudgetBound.DecidingCommitsWithinWhatIsDeclared | crates/cisternd/src/core/service/supervision.rs:197-242 | a decision, late or in time, leaves its session committed to no more than before or within what it declared and the ceilings of runs cut off but still carried, but for what tasks it took on brought along |
| Reports.BudgetIsNeverOverCommitted | crates/cisternd/src/core/service/supervision.rs:197-242 | over every run from the start whose retries come in time, all that ended and turned-away runs ever reported to a session plus the ceilings of its runs still to be recorded is at most what it declared, plus recorded excess, plus what it was made to forget, plus what late decisions booked no room for |
| Reports.OnlyRunsPastTheirCeilingsOverspend | crates/cisternd/src/core/service/supervision.rs:197-242 | over timely runs where no reporting task of a session still decided for is removed or handed out again while it waits, only what recorded runs went past their own ceilings takes that history past what was declared |
| Reports.WhatStandsIsWhatWasToldLessWhatWasForgotten | crates/cisternd/src/core/domain/task.rs:623-629 | while a session runs, what its tasks with no run out say they consumed is, to the token, all it was ever told less what removals and further runs made it forget |
| Overspending.ARunOverspendsExactlyWhere | crates/cisternd/src/core/service/supervision.rs:172-242 | after any run from the start whose retries come in time, whatever the policy: some figures make the next decision for a running session take its history past what it declared if and only if it was made to forget more than its tasks with a run out had told it; with nothing going, if and only if it was made to forget anything |
| Precedents.AFinishedRunTeaches | crates/cisternd/src/core/service/supervision.rs:310-345 | a ledger of one finished run says its cost and its length of its model, by the policy's own rule, and nothing of any other |
| Precedents.AFailureTeachesNothing | crates/cisternd/src/core/service/supervision.rs:297-345 | the line of a run that neither finished nor was held to its ceiling leaves every figure in tokens as it was |
| Forgetting.ARemovalIsForgotten | crates/cisternd/src/core/domain/task.rs:460-475 | for every policy, a timely run from empty stores and an empty ledger, every decision by that ledger and every ceiling kept: the task whose run went wrong after so much of the budget is put back and removed, and the next decision hands out all that was ever declared |
| Forgetting.ARetryIsForgotten | crates/cisternd/src/core/domain/task.rs:623-629 | likewise with the same task retried in its session, whose second run has nowhere to work: that takes the place of what the first reported |
| Forgetting.ATurningAwayIsForgotten | crates/cisternd/src/core/service/work.rs:232-255 | likewise with nobody asking for anything: of one run that finished and two that its figure lets go, one is turned away after all it was allowed, and handed out again before the stop lands; its report is written over and two more runs go out |
| Forgetting.TheShippedPolicyForgets | crates/cisternd/src/core/domain/policy.rs:159-168 | under the shipped policy: seventy-five spent and a hundred handed out, of a hundred and twenty-five |
| BudgetBound.WhatTasksSayStaysWithin | crates/cisternd/src/core/domain/task.rs:776-786 | of what tasks say at present rather than of the history: counted spending plus ceilings still to be recorded is at most the declared tokens, plus recorded excess, what tasks taken on had reported before, and what late decisions booked no room for, which is nothing over timely runs |
| BudgetBound.WhatIsCountedStaysWithin | crates/cisternd/src/core/domain/task.rs:776-786 | over timely runs where every task was new to being run when assigned, the figure the daemon counts is within what was declared plus what recorded runs went past their own ceilings |
| Untimely.ALateDecisionOverCommits | crates/cisternd/src/core/service/supervision.rs:172-197 | for every policy, a run from empty stores and an empty ledger, every decision by that ledger: one run finishes and two more go out by its figure; the session is read, then stopped, then decided for, and two more go out on top of the one cut off, so three are committed where there was room for two |
| Untimely.TheShippedPolicyOverCommits | crates/cisternd/src/core/domain/policy.rs:159-168 | under the shipped policy: a hundred and seventy-five committed of a hundred and twenty-five |
| Outliving.DecisionsLeaveNothingExactlyWhere | crates/cisternd/src/core/service/supervision.rs:172-197 | where nothing outlives its session yet, a decision leaves it so if and only if the session still runs, or nothing is handed over, or somebody is still about to cut it off |
| Untimely.ALateDecisionOutlivesItsSession | crates/cisternd/src/core/service/supervision.rs:172-197 | for every policy and however much is declared, a run from the start after which a task runs for a stopped session with nobody left to cut it off |
| Outliving.NoTaskOutlivesItsSession | crates/cisternd/src/core/service/supervision.rs:275-295 | over every run whose decisions are made for sessions still running, a running task's session runs or somebody who stopped it is about to cut it off |
| Untimely.RetriesKeepOneRunEach | crates/cisternd/src/core/domain/task.rs:671-686 | a retry keeps one run to a task if and only if no run of it is still carried |
| Untimely.ARunRecordedTwiceOverCommits | crates/cisternd/src/core/service/work.rs:278-285 | for every policy, a run from the start, every decision in time: a task retried while its first run is out is handed out in another session, and what the first run reports is charged to that session on top of all it declared |
| Working.Queue.Add | crates/cisternd/src/platform/work.rs:20-24 | one more at the back |
| Working.Queue.Take | crates/cisternd/src/platform/work.rs:30-41 | the one at the front and the rest in order, or nothing exactly where nothing waits, which is where a worker sleeps |
| Working.Queue.AddEach | crates/cisternd/src/main.rs:219-252 | everything a decision assigned goes on the queue, in order |
| Working.FirstInFirstOut | crates/cisternd/src/platform/work.rs:20-41 | over any calls, what was taken and what is left is what was there and then what was added, in that order: nothing lost, doubled or overtaken |
| Ledger.RunLedger.Unfinished | crates/cisternd/src/adapter/outbound/file/run.rs:158-167 | whether the file is not empty and ends in anything but a newline |
| Ledger.RunLedger.Append | crates/cisternd/src/adapter/outbound/file/run.rs:99-129 | the file grows by the bytes that landed of one buffer: the record and its newline, after a newline where the file ended part way through a line |
| Ledger.RunLedger.ReadAll | crates/cisternd/src/adapter/outbound/file/run.rs:131-148 | exactly the decoded non-blank lines in order |
| Ledger.AnAppendCostsAtMostItsOwnRecord | crates/cisternd/src/adapter/outbound/file/run.rs:99-148 | over any file at all, an append cut at any byte leaves what read before unchanged and adds the run exactly where its record landed whole |
| Ledger.TheLedgerKeepsWhatLanded | crates/cisternd/src/adapter/outbound/file/run.rs:99-148 | after any history of whole and torn appends, `read` gives exactly the runs whose bytes landed, in append order |
| Ledger.BracesKeepTheLaws | crates/cisternd/src/adapter/outbound/file/run.rs:42-76 | the laws asked of the record codec can be kept: a concrete one keeps all of them |
| Traces.PastTheLine | crates/cisternd/src/adapter/outbound/file/trace.rs:69-84 | the loop over whole reads finds the end of the line running past a place, or the end of the file |
| Traces.Read | crates/cisternd/src/adapter/outbound/file/trace.rs:112-156 | one page: the events of the whole lines in one read and the cursor after them, or the line too long for one read stepped over, or the start where nothing was written |
| Traces.EventsInTurn | crates/cisternd/src/adapter/outbound/file/trace.rs:146-156 | the events of one page and then the next are the events of their lines together, so paging lines in order pages events in order |
| Traces.APage | crates/cisternd/src/adapter/outbound/file/trace.rs:112-156 | from a line's start, a read reports exactly the lines it passes that one read can hold and rests on a line's start |
| Traces.RestsOnALineExactlyWhere | crates/cisternd/src/adapter/outbound/file/trace.rs:112-156 | over any file of lines and an unfinished tail, a read from a line's start rests on a line's start if and only if a whole line is ahead or the tail is empty |
| Traces.PagingLosesAndRepeatsNothing | crates/cisternd/src/adapter/outbound/file/trace.rs:112-156 | following the cursor over a file that grows by any bytes at all reports every whole line of at most `AT_MOST` bytes behind it once and in order, skips exactly the longer ones and rests on a line's start, as long as no read starts with only an unfinished line ahead |
| Traces.RestsOnLinesExactlyWhereNoneStartsAtAHalf | crates/cisternd/src/adapter/outbound/file/trace.rs:136-143 | and only so: after every read the cursor rests on a line's start if and only if none starts with only an unfinished line ahead |
| Traces.PagingComesToTheEnd | crates/cisternd/src/adapter/outbound/file/trace.rs:112-156 | following the cursor over a file that stays as it is: after so many reads it is behind as many lines, and after one more than there are whole lines it is at the very end, every line one read can hold reported once and in order, whatever tail there is |
| Traces.ARestIsTheEnd | crates/cisternd/src/adapter/outbound/file/trace.rs:112-156 | a read leaves the cursor where it was if and only if everything is behind it |
| Traces.HalfALineIsLost | crates/cisternd/src/adapter/outbound/file/trace.rs:136-143 | after any lines, an unfinished line that is next to be read is stepped over and never reported, and what is written of it since is read as a line of its own |
| Traces.CursorsReadBack | crates/cisternd/src/adapter/outbound/file/trace.rs:124-162 | a cursor reads back as its place, and cursors sort as text as their places do while twelve digits hold them |
| Spellings.ParseSpan | crates/cisternd/src/core/domain/session.rs:293-308 | the loop over the three units is the reading the round trip is about |
| Spellings.SpanReadsBack | crates/cisternd/src/core/domain/session.rs:293-326 | a span's text reads back as it if and only if it is positive, and nothing else is ever read |
| Spellings.UsageReadsBack | crates/cisternd/src/core/domain/session.rs:247-276 | a usage's text reads back as it if and only if it is a share of 1 to 100 or some tokens, and nothing else is ever read |
| Spellings.NamesReadBack | crates/cisternd/src/core/domain/task.rs:219-276 | every state, disposition and reason name reads back, and only its own spelling reads as it |
| Spellings.IdsReadBack | crates/cisternd/src/core/domain/session.rs:172-188 | a number reads back with or without its prefix |
| Decimals.WrittenReadsBack | crates/cisternd/src/core/service/sessions.rs:15-17 | a count's digits parse back as it if and only if it fits the width |
| Stores.ReadSessions | crates/cisternd/src/core/service/sessions.rs:28-42 | reads exactly the stored sets every value of which reads and which `restore` accepts |
| Stores.ASessionReadsBack | crates/cisternd/src/core/service/sessions.rs:45-129 | a session reads back as itself if and only if its budget may be declared and its figure is in its unit |
| Stores.SessionsReadBack | crates/cisternd/src/core/service/sessions.rs:28-129 | a set of sessions reads back as itself if and only if it is a set and every session in it is storable |
| Stores.ReadBacklog | crates/cisternd/src/core/service/backlog.rs:350-361 | reads exactly the stored backlogs every value of which reads and which `restore` accepts |
| Stores.ATaskReadsBack | crates/cisternd/src/core/service/backlog.rs:409-560 | every task reads back as itself, no attempts kept as none and a count or a reason but never both |
| Stores.BacklogReadsBack | crates/cisternd/src/core/service/backlog.rs:350-503 | a backlog reads back as itself if and only if it is well formed |
| Holds.SessionStore.Change | crates/cisternd/src/core/service/sessions.rs:132-166 | one hold reads, changes and writes back: the store becomes the text of the changed set, or stays as it is where it is unusable or the change refuses |
| Holds.BacklogStore.Change | crates/cisternd/src/core/service/backlog.rs:368-404 | the same for the backlog |
| Holds.EveryStateReadsBack | crates/cisternd/src/core/service/sessions.rs:107-129 | whatever state any interleaving reaches, what is written of it to the two stores reads back as exactly that |
| Specs.Read | crates/cisternd/src/core/domain/spec.rs:260-295 | the loop over lines is the reading the round trip is about |
| Specs.Write | crates/cisternd/src/core/domain/spec.rs:301-319 | the loop over parts is the text the round trip is about |
| SpecText.ReadingUndoesWriting | crates/cisternd/src/core/domain/spec.rs:260-343 | reading what was written gives the same said parts as the author's own and every other part open, if and only if every said part has a clean first line and only lines that go on; something is read if and only if something was said |
| SpecText.WritingAgainWritesTheSame | crates/cisternd/src/core/domain/spec.rs:301-319 | what was read back is written as the same text again |
| SpecText.OpenIsWhatNobodySaid | crates/cisternd/src/core/domain/spec.rs:101-109 | in what was read back, a part is open if and only if nothing had been said of it |
| SpecText.PartsAddAtMostThemselves | crates/cisternd/src/core/domain/spec.rs:260-295 | whatever a spec says, reading its text never gives more than it says, and as much only where all of it is clean |

## Left out

- Reports.BudgetIsNeverOverCommitted: over runs whose retries come in time, since an early one does break it, and for budgets in tokens, since a share is measured by the vendor and not by what tasks report.
- Overspending.RunsCutOffAreHarmfulExactlyWhere: for budgets in tokens, and for a decision with time left, nothing unread, something waiting and free and a hand for it; without one of these a decision hands nothing out and commits its session to no more than it was. The figures it speaks of are any at all.
- MoreBudget.BudgetsNeverStartFewerExactlyWhere: as long as all that is wanted may be declared, a larger sum having no budget to show it with.
- AtAnyPace.NeverFewerToWithinOneToken: over all lengths of runs, rates and clocks at once; between the two halves lie waiting lists with two behind a task that are smaller, one of them by a single token. For one given rate no condition simpler than the decision itself is stated.
- Progress.EverySessionStops: the daemon is left to itself, so registering, removing, retrying, opening and asking to stop are not among the steps the measure falls over.
- Quantiles.AtRisesWithTheQuantile: for lists with no gap past 64 bits over 299, which between two neighbours is exactly where the reading rises.
- Sizings.BusyIsAtLeastAlone: for such lists too, and where the rule's busy percentage is at least its alone one, as the shipped rule's is.
- Closure.ReachableBacklogsAreAccepted: for fewer than 2^32 registrations, after which the counter wraps; the protocol's registering and opening stop short of that number too.
- Traces.PagingLosesAndRepeatsNothing: a read of a regular file is taken to fill its buffer or reach the end, and the file not to grow between two looks one read takes at it.
- Ledger.TheLedgerKeepsWhatLanded: the record codec is any that keeps four laws: one line, not blank, decodes back, and no proper prefix decodes. JSON itself is not part of this model.
- Supervising.Supervisor.Settle: the ledger is read before the hold; what it says arrives as the figures the decision is given, worked out by `Figuring.Costs` and `Figuring.Lasting`.
- Metering.ReenteredWindowsAreChargedAgain: for readings that name their window, and for whole accounts that clamp once at the top of 64 bits; without names a lower reading starts a new window, which the other lemmas of the module cover.
- Outliving.NoTaskOutlivesItsSession: over runs whose decisions come in time, since a late one does leave a task behind.
- Reasons.ReasonsStayTrue: one way over runs, as several steps between may undo one another's effect on a reason.
- Untimely.ALateDecisionOverCommits: the run happens within one second, so that no clock or pace comes into it; the ledger's line is there before anybody decides again.
- Store failures, refusals on the way to a store, and restarts of the daemon within a run of it: each hold succeeds, and only the ledger model has a process that dies.
- The check in `run` that there is anything to assign, and interrupting's own look at the limit: neither guards a step the proofs lean on, so a session may be opened or stopped without them.
- The order in which the daemon ends agents before it cuts tasks, and the agents themselves: an agent's answer is a parameter of the step that ends its run.
- Disposing, tidying, reviewing and showing: short case analyses over one task.
- The drafter, grounding, and what is left to decide of a spec: questions to a model and a repository.
- How a line of a trace is turned into a sentence: taken as any function of the line.
- Configuration keys, display of spending, reports and paging of sessions: printing.
- Sockets, locks, signals, worktrees, git and the command line crate: the operating system's and other programs' behaviour.
