/** A run of the daemon from its start, over empty stores and an empty ledger, to where one run has finished
    and two more are out at once, each allowed what the ledger makes of the first. */
module TwoOut {
  import opened Wrappers
  import opened Numbers
  import opened Spendings
  import opened Tasks
  import opened Graph
  import opened Closure
  import opened SessionValues
  import opened Decisions
  import opened Settling
  import opened Protocol
  import Figuring
  import opened Precedents
  import opened FirstInLine
  import opened Steps
  import opened NoIdle
  import opened Commitments
  import opened BudgetBound
  import opened Reports
  import opened Episodes
  import opened OneOut

  /** The policy; what the first run costs, what each of the next is allowed, and what is declared; and when
      it all happens. */
  datatype Case = Case(policy: Policy, cost: U64, each: U64, declared: U64, now: U64) {
    /** Each is allowed what the ledger makes of the first run, and just enough is declared for that one and
        two more. */
    predicate Fits() {
      each == EachRun(policy.sizing, cost) && declared == cost + 2 * each
    }

    /** The first run, and one more. */
    function Spent(): U64 {
      SatAdd(cost, each)
    }

    function Known(): Figures {
      OneRun(policy.sizing, cost, 0)
    }

    /** The session, however much of it was noted as spent. */
    function Spending(spent: U64): Session {
      Begin().Spending(spent)
    }

    function Standing(ts: seq<Task>, spent: U64, one: Phase, two: Phase, three: Phase, callers: seq<Thread>): World {
      Scene(policy, ts, 6, [Spending(spent)], 2, Threads(one, two, three, callers))
    }

    function Begin(): Beginning {
      Beginning(policy, 5, declared, now)
    }

    function FirstRun(): Task {
      Begin().FirstRun()
    }

    /** The first task, its run finished. */
    function Done(): Task {
      Over(AtWork(FirstRun()), Finishing(cost), now)
    }

    /** A task with a run of it out. */
    function Out(id: TaskId): Task {
      Handed(ATask(id), 1, each, now, None)
    }

    /** Its run had nowhere to work. */
    function Nowhere(id: TaskId): Task {
      Over(Out(id), GETTING_NOWHERE, now)
    }

    function Ledger(): seq<Line> {
      [LineOf(Done(), now)]
    }

    function Reading(spent: U64): Phase {
      Deciding(Spending(spent), A_READING)
    }
  }

  function Five(one: Task, two: Task, three: Task): seq<Task> {
    [one, two, three, ATask(4), ATask(5)]
  }

  lemma {:induction false} ExactOfFive(ts: seq<Task>, session: SessionId)
    requires |ts| == 5
    ensures ExactAmong(ts, session, 5)
         == CountedBy(ts[0], session) + CountedBy(ts[1], session) + CountedBy(ts[2], session)
            + CountedBy(ts[3], session) + CountedBy(ts[4], session)
  {
    assert ExactAmong(ts, session, 1) == CountedBy(ts[0], session);
    assert ExactAmong(ts, session, 2) == ExactAmong(ts, session, 1) + CountedBy(ts[1], session);
    assert ExactAmong(ts, session, 3) == ExactAmong(ts, session, 2) + CountedBy(ts[2], session);
    assert ExactAmong(ts, session, 4) == ExactAmong(ts, session, 3) + CountedBy(ts[3], session);
  }

  // ---------------------------------------------------------------- the ledger

  lemma {:induction false} WhatTheFirstRunLeft(c: Case) returns (line: Line)
    ensures line == LineOf(c.Done(), c.now) && line.outcome.Completed? && line.model == None
    ensures Figuring.InTokensOf(line) == Some(c.cost) && Figuring.LastedOf(line) == Some(0)
  {
    line := WhatFinishingLeaves(AtWork(c.FirstRun()), c.cost, c.now);
  }

  lemma {:induction false} WhatFinishingLeaves(t: Task, tokens: U64, now: U64) returns (line: Line)
    requires t.model == None && t.startedAt == Some(now)
    ensures line == LineOf(Over(t, Finishing(tokens), now), now) && line.outcome.Completed? && line.model == None
    ensures Figuring.InTokensOf(line) == Some(tokens) && Figuring.LastedOf(line) == Some(0)
  {
    line := LineOf(Over(t, Finishing(tokens), now), now);
    assert Consumption(tokens, 0, 0, 0, 0).Tokens() == tokens;
  }

  lemma {:induction false} WhatTheFirstRunTeaches(c: Case)
    ensures ToldBy(c.Known(), c.policy.sizing, Of(c.declared).usage, c.Ledger())
  {
    var line := WhatTheFirstRunLeft(c);
    AFinishedRunTeaches(c.policy.sizing, Of(c.declared).usage, line, c.cost, 0);
  }

  /** A run that had nowhere to work, and one the vendor turned away, teach nothing more. */
  lemma {:induction false} OthersTeachNothing(c: Case, lines: seq<Line>, t: Task)
    requires ToldBy(c.Known(), c.policy.sizing, Of(c.declared).usage, lines) && (t.state.Error? || t.state.Pending?)
    ensures ToldBy(c.Known(), c.policy.sizing, Of(c.declared).usage, lines + [LineOf(t, c.now)])
  {
    AFailureTeachesNothing(c.Known(), c.policy.sizing, Of(c.declared).usage, lines, LineOf(t, c.now));
  }

  /** Nothing of the session running, nothing unread, and so much of what was declared not taken. */
  lemma {:induction false} FreeOfFive(c: Case, one: Task, two: Task, three: Task, spent: U64, free: U64)
    requires one.id == 1 && two.id == 2 && three.id == 3
    requires !one.RunsFor(1) && !two.RunsFor(1) && !three.RunsFor(1)
    requires !one.consumed.Unreadable? && !two.consumed.Unreadable? && !three.consumed.Unreadable?
    requires CountedBy(one, 1) + CountedBy(two, 1) + CountedBy(three, 1) + free == c.declared && free > 0
    ensures HasFree(c.now, Five(one, two, three), c.Spending(spent), free)
  {
    var ts := Five(one, two, three);
    OnesThatNeverRan(ts);
    ExactOfFive(ts, 1);
    assert forall k :: 0 <= k < 3 ==> ts[k] == [one, two, three][k];
  }

  lemma {:induction false} OnesThatNeverRan(ts: seq<Task>)
    requires |ts| == 5 && ts[3] == ATask(4) && ts[4] == ATask(5)
    ensures ts[3].id == 4 && ts[4].id == 5 && CountedBy(ts[3], 1) == 0 && CountedBy(ts[4], 1) == 0
    ensures !ts[3].RunsFor(1) && !ts[4].RunsFor(1) && !ts[3].consumed.Unreadable? && !ts[4].consumed.Unreadable?
  {
  }

  // ---------------------------------------------------------------- it finishes

  function AtWorkOnTheFirst(c: Case): Day {
    Day(c.Standing(Five(AtWork(c.FirstRun()), ATask(2), ATask(3)), 0, Working(1), Idle, Idle, QUEUED), [])
  }

  lemma {:induction false} TheFirstIsOneOfFive(c: Case)
    requires c.declared > 0
    ensures FirstOut(c.Begin(), AtWork(c.FirstRun()), Working(1)) == AtWorkOnTheFirst(c)
  {
    assert Unrun(5)[0 := AtWork(c.FirstRun())] == Five(AtWork(c.FirstRun()), ATask(2), ATask(3));
  }

  function FirstOver(c: Case): Day {
    Day(c.Standing(Five(c.Done(), ATask(2), ATask(3)), 0, c.Reading(0), Idle, Idle, QUEUED), c.Ledger())
  }

  lemma {:induction false} ItFinishes(c: Case)
    requires c.Fits()
    ensures Reaches(AtWorkOnTheFirst(c), [EndsSo(0, Finishing(c.cost), c.now)] + ReadingIt(0), FirstOver(c), 1,
                    Tally(c.cost, 0, 0, 0))
  {
    var d := ItMayFinish(c);
    EndedAndRead(c.now, d, 0, 0, Finishing(c.cost), c.Spending(0), 1);
  }

  lemma {:induction false} ItMayFinish(c: Case) returns (d: Day)
    requires c.Fits()
    ensures d == AtWorkOnTheFirst(c) && EndsThere(d.w, 0, 1, Finishing(c.cost)) && Distinct(d.w.backlog.tasks)
    ensures |d.w.backlog.tasks| == 5 && d.w.backlog.tasks[0].id == 1 && d.w.backlog.tasks[0].RunsFor(1)
    ensures CountOf(Took(c.cost)) == c.cost <= CeilingOf(d.w.backlog.tasks[0])
    ensures Runs(d.w.sessions, 1) && HeldAs(d.w.sessions, 1) == c.Spending(0)
    ensures Over(d.w.backlog.tasks[0], Finishing(c.cost), c.now) == c.Done()
    ensures Day(d.w.Goes(0, c.Reading(0)).Holding(d.w.backlog.tasks[0 := c.Done()]),
                d.lines + [LineOf(c.Done(), c.now)]) == FirstOver(c)
  {
    d := AtWorkOnTheFirst(c);
    assert [] + c.Ledger() == c.Ledger();
  }

  // ---------------------------------------------------------------- two more go out

  function Both(c: Case): seq<Task> {
    Five(c.Done(), c.Out(2), c.Out(3))
  }

  function TwoStarted(c: Case, spent: U64, at: Phase, one: Phase, two: Phase): Day {
    Day(c.Standing(Both(c), spent, at, one, two, QUEUED), c.Ledger())
  }

  lemma {:induction false} TwoAreWaiting(c: Case)
    requires c.Fits()
    ensures TwoWait(c.now, Five(c.Done(), ATask(2), ATask(3)), c.Spending(0), c.policy.sizing, c.cost, 1, 2)
    ensures Both(c) == BothHanded(Five(c.Done(), ATask(2), ATask(3)), 1, 2, 1, c.each, c.now)
  {
    FreeOfFive(c, c.Done(), ATask(2), ATask(3), 0, 2 * c.each);
  }

  lemma {:induction false} BothGetEach(c: Case)
    requires c.Fits()
    ensures HandsOut(c.now, Five(c.Done(), ATask(2), ATask(3)), c.Spending(0), c.Known(), c.policy, 1, Both(c), [2, 3],
                     c.cost)
  {
    TwoAreWaiting(c);
    BothAreHandedEach(c.now, Five(c.Done(), ATask(2), ATask(3)), Both(c), c.Spending(0), c.policy.sizing, c.cost,
                      c.policy, 1, 2, c.cost, 1);
  }

  lemma {:induction false} BothMayBeHanded(c: Case) returns (d: Day)
    ensures d == FirstOver(c) && d.w.At(0, c.Reading(0)) && Runs(d.w.sessions, 1)
    ensures d.w.policy == c.policy && d.w.atOnce == 3
    ensures d.w.backlog.tasks == Five(c.Done(), ATask(2), ATask(3))
    ensures ToldBy(c.Known(), c.policy.sizing, c.Spending(0).budget.usage, d.lines)
    ensures d.(w := d.w.Goes(0, Noting(1, Tokens(c.cost), Started([2, 3]))).Holding(Both(c)))
         == TwoStarted(c, 0, Noting(1, Tokens(c.cost), Started([2, 3])), Idle, Idle)
  {
    d := FirstOver(c);
    WhatTheFirstRunTeaches(c);
  }

  lemma {:induction false} BothAreHanded(c: Case)
    requires c.Fits()
    ensures Reaches(FirstOver(c), [Decides(0, c.Known(), c.now)],
                    TwoStarted(c, 0, Noting(1, Tokens(c.cost), Started([2, 3])), Idle, Idle), 1, QUIET)
  {
    var d := BothMayBeHanded(c);
    BothGetEach(c);
    StartedSo(c.now, d, 0, c.Spending(0), c.Known(), Both(c), [2, 3], c.cost, 1);
  }

  lemma {:induction false} TheyAreNoted(c: Case)
    ensures Reaches(TwoStarted(c, 0, Noting(1, Tokens(c.cost), Started([2, 3])), Idle, Idle), [Notes(0, c.now)],
                    TwoStarted(c, c.cost, Queuing([2, 3]), Idle, Idle), 1, QUIET)
  {
    Noted(c.now, TwoStarted(c, 0, Noting(1, Tokens(c.cost), Started([2, 3])), Idle, Idle), 0, 1, Tokens(c.cost), [2, 3],
          1);
    NotedAs(c.Begin(), 0, c.cost);
  }

  lemma {:induction false} OutAt(c: Case, ts: seq<Task>, j: nat)
    requires ts == Both(c) && 1 <= j < 3
    ensures Has(ts, j + 1) && ts[IndexOf(ts, j + 1)].state.Running?
  {
    assert ts[j].id == j + 1 && ts[j].state.Running?;
    FoundAt(ts, ts, j);
  }

  lemma {:induction false} OneMoreIsTakenUp(c: Case, d: Day, j: nat, tasks: seq<TaskId>)
    requires d.w.backlog.tasks == Both(c) && d.w.At(0, Queuing(tasks)) && tasks != [] && tasks[0] == j + 1
    requires 1 <= j < 3 && d.w.queue == [] && j < |d.w.threads| && d.w.threads[j] == Thread(true, Idle)
    ensures Reaches(d, Handing(0, j), d.(w := d.w.Goes(0, Queuing(tasks[1..])).Goes(j, Preparing(j + 1))), 1, QUIET)
  {
    OutAt(c, d.w.backlog.tasks, j);
    TakenUp(d, 0, j, tasks, 1);
  }

  lemma {:induction false} BothQueued(c: Case) returns (d: Day, tasks: seq<TaskId>)
    ensures d == TwoStarted(c, c.cost, Queuing([2, 3]), Idle, Idle) && d.w.backlog.tasks == Both(c)
    ensures d.w.At(0, Queuing(tasks)) && tasks != [] && tasks[0] == 2
    ensures d.w.queue == [] && |d.w.threads| == 4 && d.w.threads[1] == Thread(true, Idle)
    ensures d.(w := d.w.Goes(0, Queuing(tasks[1..])).Goes(1, Preparing(2)))
         == TwoStarted(c, c.cost, Queuing([3]), Preparing(2), Idle)
  {
    d, tasks := TwoStarted(c, c.cost, Queuing([2, 3]), Idle, Idle), [2, 3];
    assert tasks[1..] == [3];
  }

  lemma {:induction false} TheSecondIsTakenUp(c: Case)
    ensures Reaches(TwoStarted(c, c.cost, Queuing([2, 3]), Idle, Idle), Handing(0, 1),
                    TwoStarted(c, c.cost, Queuing([3]), Preparing(2), Idle), 1, QUIET)
  {
    var d, tasks := BothQueued(c);
    OneMoreIsTakenUp(c, d, 1, tasks);
  }

  lemma {:induction false} OneQueued(c: Case) returns (d: Day, tasks: seq<TaskId>)
    ensures d == TwoStarted(c, c.cost, Queuing([3]), Preparing(2), Idle) && d.w.backlog.tasks == Both(c)
    ensures d.w.At(0, Queuing(tasks)) && tasks != [] && tasks[0] == 3
    ensures d.w.queue == [] && |d.w.threads| == 4 && d.w.threads[2] == Thread(true, Idle)
    ensures d.(w := d.w.Goes(0, Queuing(tasks[1..])).Goes(2, Preparing(3)))
         == TwoStarted(c, c.cost, Queuing([]), Preparing(2), Preparing(3))
  {
    d, tasks := TwoStarted(c, c.cost, Queuing([3]), Preparing(2), Idle), [3];
    assert tasks[1..] == [];
  }

  lemma {:induction false} TheThirdIsTakenUp(c: Case)
    ensures Reaches(TwoStarted(c, c.cost, Queuing([3]), Preparing(2), Idle), Handing(0, 2),
                    TwoStarted(c, c.cost, Queuing([]), Preparing(2), Preparing(3)), 1, QUIET)
  {
    var d, tasks := OneQueued(c);
    OneMoreIsTakenUp(c, d, 2, tasks);
  }

  lemma {:induction false} ItsHandIsFree(c: Case)
    ensures Reaches(TwoStarted(c, c.cost, Queuing([]), Preparing(2), Preparing(3)), [Queues(0)],
                    TwoStarted(c, c.cost, Idle, Preparing(2), Preparing(3)), 1, QUIET)
  {
    AQuietStep(TwoStarted(c, c.cost, Queuing([]), Preparing(2), Preparing(3)), Queues(0),
               TwoStarted(c, c.cost, Idle, Preparing(2), Preparing(3)).w, 1);
  }

  // ---------------------------------------------------------------- from the start

  /** From the start to where one run has finished. */
  function OneRan(c: Case): seq<Step> {
    FirstAtWork(c.Begin()) + ([EndsSo(0, Finishing(c.cost), c.now)] + ReadingIt(0))
  }

  lemma {:induction false} TheFirstRan(c: Case)
    requires c.Fits()
    ensures Reaches(AtFirst(c.policy), OneRan(c), FirstOver(c), 1, Tally(c.cost, 0, 0, 0))
  {
    TheFirstIsAtWork(c.Begin(), 1);
    TheFirstIsOneOfFive(c);
    ItFinishes(c);
    QuietlyThen(AtFirst(c.policy), FirstAtWork(c.Begin()), AtWorkOnTheFirst(c),
                [EndsSo(0, Finishing(c.cost), c.now)] + ReadingIt(0), FirstOver(c), 1, QUIET, Tally(c.cost, 0, 0, 0));
  }

  lemma {:induction false} BothAreStarted(c: Case)
    requires c.Fits()
    ensures Reaches(FirstOver(c), [Decides(0, c.Known(), c.now)] + [Notes(0, c.now)],
                    TwoStarted(c, c.cost, Queuing([2, 3]), Idle, Idle), 1, QUIET)
  {
    BothAreHanded(c);
    TheyAreNoted(c);
    ThenQuietly(FirstOver(c), [Decides(0, c.Known(), c.now)],
                TwoStarted(c, 0, Noting(1, Tokens(c.cost), Started([2, 3])), Idle, Idle), [Notes(0, c.now)],
                TwoStarted(c, c.cost, Queuing([2, 3]), Idle, Idle), 1, QUIET, QUIET);
  }

  lemma {:induction false} BothAreTakenUp(c: Case)
    ensures Reaches(TwoStarted(c, c.cost, Queuing([2, 3]), Idle, Idle), Handing(0, 1) + Handing(0, 2) + [Queues(0)],
                    TwoStarted(c, c.cost, Idle, Preparing(2), Preparing(3)), 1, QUIET)
  {
    var d, e := TwoStarted(c, c.cost, Queuing([2, 3]), Idle, Idle),
        TwoStarted(c, c.cost, Queuing([]), Preparing(2), Preparing(3));
    TheSecondIsTakenUp(c);
    TheThirdIsTakenUp(c);
    ThenQuietly(d, Handing(0, 1), TwoStarted(c, c.cost, Queuing([3]), Preparing(2), Idle), Handing(0, 2), e, 1, QUIET,
                QUIET);
    ItsHandIsFree(c);
    ThenQuietly(d, Handing(0, 1) + Handing(0, 2), e, [Queues(0)],
                TwoStarted(c, c.cost, Idle, Preparing(2), Preparing(3)), 1, QUIET, QUIET);
  }

  /** From the start to where one run has finished and two are out. */
  function TwoGone(c: Case): seq<Step> {
    OneRan(c) + ([Decides(0, c.Known(), c.now)] + [Notes(0, c.now)])
    + (Handing(0, 1) + Handing(0, 2) + [Queues(0)])
  }

  lemma {:induction false} TwoAreOut(c: Case)
    requires c.Fits()
    ensures Reaches(AtFirst(c.policy), TwoGone(c), TwoStarted(c, c.cost, Idle, Preparing(2), Preparing(3)), 1,
                    Tally(c.cost, 0, 0, 0))
  {
    TheFirstRan(c);
    BothAreStarted(c);
    ThenQuietly(AtFirst(c.policy), OneRan(c), FirstOver(c), [Decides(0, c.Known(), c.now)] + [Notes(0, c.now)],
                TwoStarted(c, c.cost, Queuing([2, 3]), Idle, Idle), 1, Tally(c.cost, 0, 0, 0), QUIET);
    BothAreTakenUp(c);
    ThenQuietly(AtFirst(c.policy), OneRan(c) + ([Decides(0, c.Known(), c.now)] + [Notes(0, c.now)]),
                TwoStarted(c, c.cost, Queuing([2, 3]), Idle, Idle), Handing(0, 1) + Handing(0, 2) + [Queues(0)],
                TwoStarted(c, c.cost, Idle, Preparing(2), Preparing(3)), 1, Tally(c.cost, 0, 0, 0), QUIET);
  }

  // ---------------------------------------------------------------- one of the two had nowhere to work

  /** The third task's run failed before it began, and its worker is about to decide. */
  function OneLeft(c: Case, two: Task, one: Phase): World {
    c.Standing(Five(c.Done(), two, c.Nowhere(3)), c.cost, Idle, one, c.Reading(c.cost), QUEUED)
  }

  lemma {:induction false} TheThirdEnds(c: Case, two: Task, one: Phase, lines: seq<Line>)
    requires two.id == 2
    ensures Reaches(Day(c.Standing(Five(c.Done(), two, c.Out(3)), c.cost, Idle, one, Preparing(3), QUEUED), lines),
                    [EndsSo(2, GETTING_NOWHERE, c.now)] + ReadingIt(2),
                    Day(OneLeft(c, two, one), lines + [LineOf(c.Nowhere(3), c.now)]), 1, QUIET)
  {
    var d := TheThirdMayEnd(c, two, one, lines);
    EndedAndRead(c.now, d, 2, 2, GETTING_NOWHERE, c.Spending(c.cost), 1);
  }

  lemma {:induction false} TheThirdMayEnd(c: Case, two: Task, one: Phase, lines: seq<Line>) returns (d: Day)
    requires two.id == 2
    ensures d == Day(c.Standing(Five(c.Done(), two, c.Out(3)), c.cost, Idle, one, Preparing(3), QUEUED), lines)
    ensures Distinct(d.w.backlog.tasks) && |d.w.backlog.tasks| == 5 && d.w.backlog.tasks[2].id == 3
    ensures d.w.backlog.tasks[2].RunsFor(1) && EndsThere(d.w, 2, 3, GETTING_NOWHERE)
    ensures Runs(d.w.sessions, 1) && HeldAs(d.w.sessions, 1) == c.Spending(c.cost)
    ensures Over(d.w.backlog.tasks[2], GETTING_NOWHERE, c.now) == c.Nowhere(3)
    ensures d.w.Goes(2, c.Reading(c.cost)).Holding(d.w.backlog.tasks[2 := c.Nowhere(3)]) == OneLeft(c, two, one)
  {
    d := Day(c.Standing(Five(c.Done(), two, c.Out(3)), c.cost, Idle, one, Preparing(3), QUEUED), lines);
  }
}
