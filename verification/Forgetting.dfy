/** The three ways a session is made to forget what it was told, each in a run of the daemon from its start:
    every step is timely, every decision is made by one ledger, no run goes past its ceiling, and what was
    spent for the session and what its runs may still spend come to more than it declared. */
module Forgetting {
  import opened Wrappers
  import opened Numbers
  import opened Spendings
  import opened Tasks
  import opened Graph
  import opened Closure
  import opened SessionValues
  import opened Decisions
  import opened Settling
  import opened Protocol
  import opened Precedents
  import opened FirstInLine
  import opened Steps
  import opened NoIdle
  import opened Commitments
  import opened BudgetBound
  import opened Reports
  import opened Episodes
  import opened OneOut
  import opened TwoOut

  /** A run from the start that is timely, decides by one ledger, keeps within every ceiling, and passes the
      budget all the same. */
  ghost predicate OverspendsInTime(policy: Policy, steps: seq<Step>, declared: U64, told: nat, outstanding: nat) {
    var w := AtFirst(policy).w;
    && CanRun(w, steps) && AllTimely(w, steps) && KeepsOneLedger(w, steps, [])
    && AllWentPast(w, steps, 1) == 0 && BeyondAll(w, steps, 1) == 0
    && Runs(Ran(w, steps).sessions, 1) && HeldAs(Ran(w, steps).sessions, 1).budget == Of(declared)
    && ReportedOver(w, steps, 1) == told && Outstanding(Ran(w, steps), 1) == outstanding
    && told + outstanding > declared
  }

  lemma {:induction false} NothingWentPast(w: World, steps: seq<Step>, session: SessionId)
    requires CanRun(w, steps)
    ensures AllWentPast(w, steps, session) <= BeyondAll(w, steps, session)
    decreases steps
  {
    if steps != [] {
      NothingWentPast(Next(w, steps[0]), steps[1..], session);
    }
  }

  lemma {:induction false} WhatTheTallySays(w: World, steps: seq<Step>, told: nat)
    requires CanRun(w, steps) && Tallied(w, steps, 1) == Tally(told, 0, 0, 0)
    ensures ReportedOver(w, steps, 1) == told && AllWentPast(w, steps, 1) == 0 && BeyondAll(w, steps, 1) == 0
    ensures AllDecideInTime(w, steps) && AllRetryInTime(w, steps)
  {
    WhatItTold(w, steps, 1);
    WhatItLetPast(w, steps, 1);
    WhatWasLate(w, steps, 1);
    WhatWasEarly(w, steps, 1);
    NothingWentPast(w, steps, 1);
  }

  lemma {:induction false} ReachedSo(policy: Policy, steps: seq<Step>, e: Day, declared: U64, told: nat,
                                     outstanding: nat)
    requires Reaches(AtFirst(policy), steps, e, 1, Tally(told, 0, 0, 0))
    requires Outstanding(e.w, 1) == outstanding && told + outstanding > declared
    requires Runs(e.w.sessions, 1) && HeldAs(e.w.sessions, 1).budget == Of(declared)
    ensures OverspendsInTime(policy, steps, declared, told, outstanding)
  {
    WhatTheTallySays(AtFirst(policy).w, steps, told);
  }

  // ---------------------------------------------------------------- one run went wrong, and its task waits again

  /** What the first run came to: it went wrong, having spent so much. */
  function Wrong(s: Beginning, took: U64): Task {
    Over(AtWork(s.FirstRun()), GoingWrong(took), s.now)
  }

  function Again(s: Beginning, took: U64): Task {
    Requeued(Wrong(s, took), false)
  }

  function Two(one: Task): seq<Task> {
    [one, ATask(2)]
  }

  /** Two tasks, the session, and the first two hands. */
  function Standing(s: Beginning, ts: seq<Task>, spent: U64, first: Phase, second: Phase): World {
    Scene(s.policy, ts, 3, [s.Spending(spent)], 2, Threads(first, second, Idle, QUEUED))
  }

  function Reading(s: Beginning, spent: U64): Phase {
    Deciding(s.Spending(spent), A_READING)
  }

  /** What the ledger says by then. */
  function Blamed(s: Beginning, took: U64): seq<Line> {
    [LineOf(Wrong(s, took), s.now)]
  }

  /** The first task's run is over, and its worker about to decide. */
  function RunOver(s: Beginning, took: U64, one: Task): Day {
    Day(Standing(s, Two(one), 0, Reading(s, 0), Idle), Blamed(s, took))
  }

  lemma {:induction false} NothingIsKnown(s: Beginning, lines: seq<Line>, t: Task)
    requires ToldBy(NOTHING_KNOWN, s.policy.sizing, Of(s.declared).usage, lines) && t.state.Error?
    ensures ToldBy(NOTHING_KNOWN, s.policy.sizing, Of(s.declared).usage, lines + [LineOf(t, s.now)])
  {
    AFailureTeachesNothing(NOTHING_KNOWN, s.policy.sizing, Of(s.declared).usage, lines, LineOf(t, s.now));
  }

  lemma {:induction false} NothingIsKnownByThen(s: Beginning, took: U64)
    ensures ToldBy(NOTHING_KNOWN, s.policy.sizing, Of(s.declared).usage, Blamed(s, took))
  {
    AnEmptyLedgerSaysNothing(s.policy.sizing, Of(s.declared).usage);
    NothingIsKnown(s, [], Wrong(s, took));
    assert [] + Blamed(s, took) == Blamed(s, took);
  }

  /** Two tasks wait, and what is spent is less than what is declared. */
  predicate Fits(s: Beginning, took: U64) {
    s.Fits() && s.n == 2 && 0 < took < s.declared
  }

  lemma {:induction false} ItMayGoWrong(s: Beginning, took: U64) returns (d: Day)
    requires Fits(s, took)
    ensures d == FirstOut(s, AtWork(s.FirstRun()), Working(1)) && Distinct(d.w.backlog.tasks)
    ensures |d.w.backlog.tasks| == 2 && d.w.backlog.tasks[0] == AtWork(s.FirstRun())
    ensures d.w.backlog.tasks[0].id == 1 && d.w.backlog.tasks[0].RunsFor(1) && EndsThere(d.w, 0, 1, GoingWrong(took))
    ensures CountOf(Took(took)) == took <= CeilingOf(d.w.backlog.tasks[0])
    ensures Runs(d.w.sessions, 1) && HeldAs(d.w.sessions, 1) == s.Spending(0)
    ensures Day(d.w.Goes(0, Reading(s, 0)).Holding(d.w.backlog.tasks[0 := Wrong(s, took)]),
                d.lines + [LineOf(Wrong(s, took), s.now)]) == RunOver(s, took, Wrong(s, took))
  {
    d := FirstOut(s, AtWork(s.FirstRun()), Working(1));
    assert s.With(AtWork(s.FirstRun()))[0 := Wrong(s, took)] == Two(Wrong(s, took));
    assert [] + Blamed(s, took) == Blamed(s, took);
  }

  lemma {:induction false} ItGoesWrong(s: Beginning, took: U64)
    requires Fits(s, took)
    ensures Reaches(FirstOut(s, AtWork(s.FirstRun()), Working(1)), [EndsSo(0, GoingWrong(took), s.now)] + ReadingIt(0),
                    RunOver(s, took, Wrong(s, took)), 1, Tally(took, 0, 0, 0))
  {
    var d := ItMayGoWrong(s, took);
    EndedAndRead(s.now, d, 0, 0, GoingWrong(took), s.Spending(0), 1);
  }

  lemma {:induction false} ItMayBeRetried(s: Beginning, took: U64) returns (d: Day)
    ensures d == RunOver(s, took, Wrong(s, took)) && |d.w.backlog.tasks| == 2 && Distinct(d.w.backlog.tasks)
    ensures d.w.backlog.tasks[0].state.Ended() && d.w.backlog.tasks[0].id == 1 && Carried(d.w, 1) == 0
    ensures d.(w := d.w.Holding(d.w.backlog.tasks[0 := Requeued(d.w.backlog.tasks[0], false)]))
         == RunOver(s, took, Again(s, took))
  {
    d := RunOver(s, took, Wrong(s, took));
    OnlyOneCarries(d.w.threads, 0, 1, 4);
    assert d.w.backlog.tasks[0 := Again(s, took)] == Two(Again(s, took));
  }

  lemma {:induction false} ItIsRetried(s: Beginning, took: U64)
    ensures Reaches(RunOver(s, took, Wrong(s, took)), [Commands(Requeue(1, false))],
                    RunOver(s, took, Again(s, took)), 1, QUIET)
  {
    var d := ItMayBeRetried(s, took);
    Retried(d, 0, 1, 1);
  }

  /** From the start to where the first run went wrong and its task waits again. */
  function OneWrong(s: Beginning, took: U64): seq<Step> {
    FirstAtWork(s) + ([EndsSo(0, GoingWrong(took), s.now)] + ReadingIt(0)) + [Commands(Requeue(1, false))]
  }

  lemma {:induction false} OneWentWrong(s: Beginning, took: U64)
    requires Fits(s, took)
    ensures Reaches(AtFirst(s.policy), OneWrong(s, took), RunOver(s, took, Again(s, took)), 1, Tally(took, 0, 0, 0))
  {
    TheFirstIsAtWork(s, 1);
    ItGoesWrong(s, took);
    QuietlyThen(AtFirst(s.policy), FirstAtWork(s), FirstOut(s, AtWork(s.FirstRun()), Working(1)),
                [EndsSo(0, GoingWrong(took), s.now)] + ReadingIt(0), RunOver(s, took, Wrong(s, took)), 1, QUIET,
                Tally(took, 0, 0, 0));
    ItIsRetried(s, took);
    ThenQuietly(AtFirst(s.policy), FirstAtWork(s) + ([EndsSo(0, GoingWrong(took), s.now)] + ReadingIt(0)),
                RunOver(s, took, Wrong(s, took)), [Commands(Requeue(1, false))], RunOver(s, took, Again(s, took)), 1,
                Tally(took, 0, 0, 0), QUIET);
  }

  // ---------------------------------------------------------------- removing it

  function ARemoval(s: Beginning, took: U64): seq<Step> {
    OneWrong(s, took) + [Commands(Remove(1))] + [Decides(0, NOTHING_KNOWN, s.now)]
  }

  function Handover(s: Beginning): Task {
    Handed(ATask(2), 1, s.declared, s.now, None)
  }

  function WithoutIt(s: Beginning, took: U64, ts: seq<Task>, at: Phase): Day {
    Day(Standing(s, ts, 0, at, Idle), Blamed(s, took))
  }

  lemma {:induction false} ItMayBeRemoved(s: Beginning, took: U64) returns (d: Day)
    ensures d == RunOver(s, took, Again(s, took)) && |d.w.backlog.tasks| == 2 && Distinct(d.w.backlog.tasks)
    ensures d.w.backlog.tasks[0].state.Pending? && d.w.backlog.tasks[0].id == 1
    ensures d.(w := d.w.Holding(Spliced(d.w.backlog.tasks, 0))) == WithoutIt(s, took, [ATask(2)], Reading(s, 0))
  {
    d := RunOver(s, took, Again(s, took));
    var kept := d.w.backlog.tasks[..0] + d.w.backlog.tasks[1..];
    assert kept == [ATask(2)];
    assert Spliced(d.w.backlog.tasks, 0) == [ATask(2)];
  }

  lemma {:induction false} TheOtherIsAlone(s: Beginning)
    requires s.Fits()
    ensures HandsOut(s.now, [ATask(2)], s.Spending(0), NOTHING_KNOWN, s.policy, 1, [Handover(s)], [2], 0)
  {
    NothingCounted([ATask(2)], 1, 1);
    GetsAllThereIs(s.now, [ATask(2)], s.Spending(0), s.policy, 0, s.declared);
    assert [ATask(2)][0 := Handover(s)] == [Handover(s)];
    OneIsHandedAll(s.now, [ATask(2)], [Handover(s)], s.Spending(0), NOTHING_KNOWN, s.policy, 0, s.declared, 0, 1);
  }

  lemma {:induction false} TheOtherMayBeHanded(s: Beginning, took: U64) returns (d: Day)
    ensures d == WithoutIt(s, took, [ATask(2)], Reading(s, 0)) && d.w.At(0, Reading(s, 0)) && Runs(d.w.sessions, 1)
    ensures d.w.backlog.tasks == [ATask(2)] && d.w.atOnce == 3 && d.w.policy == s.policy
    ensures ToldBy(NOTHING_KNOWN, s.policy.sizing, Of(s.declared).usage, d.lines)
    ensures d.(w := d.w.Goes(0, Noting(1, Tokens(0), Started([2]))).Holding([Handover(s)]))
         == WithoutIt(s, took, [Handover(s)], Noting(1, Tokens(0), Started([2])))
  {
    d := WithoutIt(s, took, [ATask(2)], Reading(s, 0));
    NothingIsKnownByThen(s, took);
  }

  lemma {:induction false} TheOtherIsHandedAll(s: Beginning, took: U64)
    requires s.Fits()
    ensures Reaches(WithoutIt(s, took, [ATask(2)], Reading(s, 0)), [Decides(0, NOTHING_KNOWN, s.now)],
                    WithoutIt(s, took, [Handover(s)], Noting(1, Tokens(0), Started([2]))), 1, QUIET)
  {
    var d := TheOtherMayBeHanded(s, took);
    TheOtherIsAlone(s);
    StartedSo(s.now, d, 0, s.Spending(0), NOTHING_KNOWN, [Handover(s)], [2], 0, 1);
  }

  lemma {:induction false} OnlyTheOtherIsOutstanding(s: Beginning, took: U64)
    ensures var v := WithoutIt(s, took, [Handover(s)], Noting(1, Tokens(0), Started([2]))).w;
            && Outstanding(v, 1) == s.declared && Runs(v.sessions, 1)
            && HeldAs(v.sessions, 1).budget == Of(s.declared)
  {
    var v := WithoutIt(s, took, [Handover(s)], Noting(1, Tokens(0), Started([2]))).w;
    OnlyOneCarries(v.threads, 0, 2, 4);
    assert OutstandingEach(v, 1) == [s.declared];
    assert Sum([s.declared]) == s.declared;
  }

  /** So much was spent for a session, the task that spent it is removed, and the next decision hands out all
      that was ever declared, whatever the policy. */
  lemma {:induction false} ARemovalIsForgotten(s: Beginning, took: U64)
    requires Fits(s, took)
    ensures OverspendsInTime(s.policy, ARemoval(s, took), s.declared, took, s.declared)
  {
    var d := ItMayBeRemoved(s, took);
    var e := WithoutIt(s, took, [ATask(2)], Reading(s, 0));
    var f := WithoutIt(s, took, [Handover(s)], Noting(1, Tokens(0), Started([2])));
    OneWentWrong(s, took);
    Removed(d, 0, 1);
    ThenQuietly(AtFirst(s.policy), OneWrong(s, took), d, [Commands(Remove(1))], e, 1, Tally(took, 0, 0, 0), QUIET);
    TheOtherIsHandedAll(s, took);
    ThenQuietly(AtFirst(s.policy), OneWrong(s, took) + [Commands(Remove(1))], e, [Decides(0, NOTHING_KNOWN, s.now)], f,
                1, Tally(took, 0, 0, 0), QUIET);
    OnlyTheOtherIsOutstanding(s, took);
    ReachedSo(s.policy, ARemoval(s, took), f, s.declared, took, s.declared);
  }

  // ---------------------------------------------------------------- retrying it

  /** The first task, handed what is left. */
  function SecondRun(s: Beginning, took: U64): Task
    requires took <= s.declared
  {
    Handed(Again(s, took), 1, s.declared - took, s.now, None)
  }

  /** Its second run had nowhere to work. */
  function SecondOver(s: Beginning, took: U64): Task
    requires took <= s.declared
  {
    Over(SecondRun(s, took), GETTING_NOWHERE, s.now)
  }

  function RunAgain(s: Beginning, took: U64): Day
    requires took <= s.declared
  {
    Day(Standing(s, Two(SecondRun(s, took)), took, Queuing([]), Preparing(1)), Blamed(s, took))
  }

  function OverAgain(s: Beginning, took: U64, two: Task, at: Phase): Day
    requires took <= s.declared
  {
    Day(Standing(s, [SecondOver(s, took), two], took, Queuing([]), at),
        Blamed(s, took) + [LineOf(SecondOver(s, took), s.now)])
  }

  lemma {:induction false} ExactOfTwo(ts: seq<Task>, session: SessionId)
    requires |ts| == 2
    ensures ExactAmong(ts, session, 2) == CountedBy(ts[0], session) + CountedBy(ts[1], session)
  {
    assert ExactAmong(ts, session, 1) == CountedBy(ts[0], session);
  }

  lemma {:induction false} TheRestIsFree(s: Beginning, took: U64)
    requires Fits(s, took)
    ensures HandsOut(s.now, Two(Again(s, took)), s.Spending(0), NOTHING_KNOWN, s.policy, 1,
                     Two(SecondRun(s, took)), [1], took)
    ensures Has(Two(SecondRun(s, took)), 1)
    ensures Two(SecondRun(s, took))[IndexOf(Two(SecondRun(s, took)), 1)].state.Running?
  {
    ExactOfTwo(Two(Again(s, took)), 1);
    assert CountOf(Took(took)) == took;
    GetsAllThereIs(s.now, Two(Again(s, took)), s.Spending(0), s.policy, 0, s.declared - took);
    assert Two(Again(s, took))[0 := SecondRun(s, took)] == Two(SecondRun(s, took));
    OneIsHandedAll(s.now, Two(Again(s, took)), Two(SecondRun(s, took)), s.Spending(0), NOTHING_KNOWN, s.policy, 0,
                   s.declared - took, took, 1);
  }

  lemma {:induction false} TheRestMayBeHanded(s: Beginning, took: U64) returns (d: Day)
    requires Fits(s, took)
    ensures d == RunOver(s, took, Again(s, took)) && d.w.At(0, Reading(s, 0)) && Runs(d.w.sessions, 1)
    ensures d.w.backlog.tasks == Two(Again(s, took)) && d.w.atOnce == 3 && d.w.policy == s.policy
    ensures ToldBy(NOTHING_KNOWN, s.policy.sizing, Of(s.declared).usage, d.lines)
    ensures d.w.queue == [] && |d.w.threads| == 4 && d.w.threads[1] == Thread(true, Idle)
    ensures d.(w := d.w.Goes(0, Queuing([])).Goes(1, Preparing(1)).Holding(Two(SecondRun(s, took)))
             .(sessions := Note(d.w.sessions, 1, Tokens(took), s.now)))
         == RunAgain(s, took)
  {
    d := RunOver(s, took, Again(s, took));
    NothingIsKnownByThen(s, took);
    NotedAs(s, 0, took);
  }

  lemma {:induction false} HandedTheRest(s: Beginning, took: U64)
    requires Fits(s, took)
    ensures Reaches(RunOver(s, took, Again(s, took)), HandingAll(0, 1, NOTHING_KNOWN, s.now), RunAgain(s, took), 1,
                    QUIET)
  {
    var d := TheRestMayBeHanded(s, took);
    TheRestIsFree(s, took);
    HandedAndTakenUp(s.now, d, 0, 1, s.Spending(0), NOTHING_KNOWN, Two(SecondRun(s, took)), 1, took, 1);
  }

  lemma {:induction false} ItMayEndAgain(s: Beginning, took: U64) returns (d: Day)
    requires Fits(s, took)
    ensures d == RunAgain(s, took) && Distinct(d.w.backlog.tasks) && |d.w.backlog.tasks| == 2
    ensures d.w.backlog.tasks[0] == SecondRun(s, took) && d.w.backlog.tasks[0].id == 1
    ensures d.w.backlog.tasks[0].RunsFor(1) && EndsThere(d.w, 1, 1, GETTING_NOWHERE)
    ensures Runs(d.w.sessions, 1) && HeldAs(d.w.sessions, 1) == s.Spending(took)
    ensures Day(d.w.Goes(1, Reading(s, took)).Holding(d.w.backlog.tasks[0 := SecondOver(s, took)]),
                d.lines + [LineOf(SecondOver(s, took), s.now)]) == OverAgain(s, took, ATask(2), Reading(s, took))
  {
    d := RunAgain(s, took);
  }

  lemma {:induction false} ItEndsAgain(s: Beginning, took: U64)
    requires Fits(s, took)
    ensures Reaches(RunAgain(s, took), [EndsSo(1, GETTING_NOWHERE, s.now)] + ReadingIt(1),
                    OverAgain(s, took, ATask(2), Reading(s, took)), 1, QUIET)
  {
    var d := ItMayEndAgain(s, took);
    EndedAndRead(s.now, d, 1, 0, GETTING_NOWHERE, s.Spending(took), 1);
  }

  lemma {:induction false} AllIsFreeAgain(s: Beginning, took: U64)
    requires Fits(s, took)
    ensures HandsOut(s.now, [SecondOver(s, took), ATask(2)], s.Spending(took), NOTHING_KNOWN, s.policy, 1,
                     [SecondOver(s, took), Handover(s)], [2], 0)
  {
    ExactOfTwo([SecondOver(s, took), ATask(2)], 1);
    GetsAllThereIs(s.now, [SecondOver(s, took), ATask(2)], s.Spending(took), s.policy, 1, s.declared);
    assert [SecondOver(s, took), ATask(2)][1 := Handover(s)] == [SecondOver(s, took), Handover(s)];
    OneIsHandedAll(s.now, [SecondOver(s, took), ATask(2)], [SecondOver(s, took), Handover(s)], s.Spending(took),
                   NOTHING_KNOWN, s.policy, 1, s.declared, 0, 1);
  }

  lemma {:induction false} AllMayBeHandedNext(s: Beginning, took: U64) returns (d: Day)
    requires Fits(s, took)
    ensures d == OverAgain(s, took, ATask(2), Reading(s, took)) && d.w.At(1, Reading(s, took)) && Runs(d.w.sessions, 1)
    ensures d.w.backlog.tasks == [SecondOver(s, took), ATask(2)] && d.w.atOnce == 3 && d.w.policy == s.policy
    ensures ToldBy(NOTHING_KNOWN, s.policy.sizing, Of(s.declared).usage, d.lines)
    ensures d.(w := d.w.Goes(1, Noting(1, Tokens(0), Started([2]))).Holding([SecondOver(s, took), Handover(s)]))
         == OverAgain(s, took, Handover(s), Noting(1, Tokens(0), Started([2])))
  {
    d := OverAgain(s, took, ATask(2), Reading(s, took));
    NothingIsKnownByThen(s, took);
    NothingIsKnown(s, Blamed(s, took), SecondOver(s, took));
  }

  lemma {:induction false} TheNextIsHandedAll(s: Beginning, took: U64)
    requires Fits(s, took)
    ensures Reaches(OverAgain(s, took, ATask(2), Reading(s, took)), [Decides(1, NOTHING_KNOWN, s.now)],
                    OverAgain(s, took, Handover(s), Noting(1, Tokens(0), Started([2]))), 1, QUIET)
  {
    var d := AllMayBeHandedNext(s, took);
    AllIsFreeAgain(s, took);
    StartedSo(s.now, d, 1, s.Spending(took), NOTHING_KNOWN, [SecondOver(s, took), Handover(s)], [2], 0, 1);
  }

  lemma {:induction false} OnlyTheNextIsOutstanding(s: Beginning, took: U64)
    requires took <= s.declared
    ensures var v := OverAgain(s, took, Handover(s), Noting(1, Tokens(0), Started([2]))).w;
            && Outstanding(v, 1) == s.declared && Runs(v.sessions, 1)
            && HeldAs(v.sessions, 1).budget == Of(s.declared)
  {
    var v := OverAgain(s, took, Handover(s), Noting(1, Tokens(0), Started([2]))).w;
    OnlyOneCarries(v.threads, 1, 1, 4);
    OnlyOneCarries(v.threads, 1, 2, 4);
    assert OutstandingEach(v, 1) == [0, s.declared];
    assert Sum([0, s.declared]) == Sum([0]) + s.declared;
  }

  function ARetry(s: Beginning, took: U64): seq<Step> {
    OneWrong(s, took) + HandingAll(0, 1, NOTHING_KNOWN, s.now) + ([EndsSo(1, GETTING_NOWHERE, s.now)] + ReadingIt(1))
    + [Decides(1, NOTHING_KNOWN, s.now)]
  }

  lemma {:induction false} RunTwice(s: Beginning, took: U64)
    requires Fits(s, took)
    ensures Reaches(AtFirst(s.policy),
                    OneWrong(s, took) + HandingAll(0, 1, NOTHING_KNOWN, s.now)
                    + ([EndsSo(1, GETTING_NOWHERE, s.now)] + ReadingIt(1)),
                    OverAgain(s, took, ATask(2), Reading(s, took)), 1, Tally(took, 0, 0, 0))
  {
    OneWentWrong(s, took);
    HandedTheRest(s, took);
    ThenQuietly(AtFirst(s.policy), OneWrong(s, took), RunOver(s, took, Again(s, took)),
                HandingAll(0, 1, NOTHING_KNOWN, s.now), RunAgain(s, took), 1, Tally(took, 0, 0, 0), QUIET);
    ItEndsAgain(s, took);
    ThenQuietly(AtFirst(s.policy), OneWrong(s, took) + HandingAll(0, 1, NOTHING_KNOWN, s.now), RunAgain(s, took),
                [EndsSo(1, GETTING_NOWHERE, s.now)] + ReadingIt(1), OverAgain(s, took, ATask(2), Reading(s, took)), 1,
                Tally(took, 0, 0, 0), QUIET);
  }

  /** So much was spent for a session, the task that spent it is retried in it, says nothing the second time,
      and the next decision hands out all that was ever declared, whatever the policy. */
  lemma {:induction false} ARetryIsForgotten(s: Beginning, took: U64)
    requires Fits(s, took)
    ensures OverspendsInTime(s.policy, ARetry(s, took), s.declared, took, s.declared)
  {
    RunTwice(s, took);
    TheNextIsHandedAll(s, took);
    ThenQuietly(AtFirst(s.policy),
                OneWrong(s, took) + HandingAll(0, 1, NOTHING_KNOWN, s.now)
                + ([EndsSo(1, GETTING_NOWHERE, s.now)] + ReadingIt(1)),
                OverAgain(s, took, ATask(2), Reading(s, took)), [Decides(1, NOTHING_KNOWN, s.now)],
                OverAgain(s, took, Handover(s), Noting(1, Tokens(0), Started([2]))), 1, Tally(took, 0, 0, 0), QUIET);
    OnlyTheNextIsOutstanding(s, took);
    ReachedSo(s.policy, ARetry(s, took), OverAgain(s, took, Handover(s), Noting(1, Tokens(0), Started([2]))),
              s.declared, took, s.declared);
  }

  // ---------------------------------------------------------------- turning it away

  /** The second task, its run turned away after all it was allowed was spent. */
  function TurnedBack(c: Case): Task {
    Refused(AtWork(c.Out(2)), Took(c.each), c.now)
  }

  /** And handed out again. */
  function Rerun(c: Case): Task {
    Handed(TurnedBack(c), 1, c.each, c.now, None)
  }

  function RerunOver(c: Case): Task {
    Over(Rerun(c), GETTING_NOWHERE, c.now)
  }

  function AtWorkOnTheSecond(c: Case): Day {
    Day(c.Standing(Five(c.Done(), AtWork(c.Out(2)), c.Out(3)), c.cost, Idle, Working(2), Preparing(3), QUEUED),
        c.Ledger())
  }

  function AfterOne(c: Case): seq<Line> {
    c.Ledger() + [LineOf(TurnedBack(c), c.now)]
  }

  function AfterTwo(c: Case): seq<Line> {
    AfterOne(c) + [LineOf(c.Nowhere(3), c.now)]
  }

  function AfterThree(c: Case): seq<Line> {
    AfterTwo(c) + [LineOf(RerunOver(c), c.now)]
  }

  function Refusing(c: Case): Day {
    Day(c.Standing(Five(c.Done(), TurnedBack(c), c.Out(3)), c.cost, Idle, Resetting(1), Preparing(3), QUEUED),
        AfterOne(c))
  }

  /** Before the session is stopped, whoever had the other run is about to decide for it. */
  function BeforeTheStop(c: Case): Day {
    Day(OneLeft(c, TurnedBack(c), Resetting(1)), AfterTwo(c))
  }

  function RunOnceMore(c: Case): Day
  {
    Day(c.Standing(Five(c.Done(), Rerun(c), c.Nowhere(3)), c.Spent(), Preparing(2), Resetting(1), Queuing([]),
                   QUEUED), AfterTwo(c))
  }

  function OverOnceMore(c: Case, four: Task, five: Task, at: Phase): Day
  {
    Day(c.Standing([c.Done(), RerunOver(c), c.Nowhere(3), four, five], c.Spent(), at, Resetting(1), Queuing([]),
                   QUEUED), AfterThree(c))
  }

  function LastTwoOut(c: Case): seq<Task> {
    [c.Done(), RerunOver(c), c.Nowhere(3), c.Out(4), c.Out(5)]
  }

  lemma {:induction false} WhatIsKnown(c: Case)
    ensures ToldBy(c.Known(), c.policy.sizing, Of(c.declared).usage, AfterTwo(c))
    ensures ToldBy(c.Known(), c.policy.sizing, Of(c.declared).usage, AfterThree(c))
  {
    WhatTheFirstRunTeaches(c);
    OthersTeachNothing(c, c.Ledger(), TurnedBack(c));
    OthersTeachNothing(c, AfterOne(c), c.Nowhere(3));
    OthersTeachNothing(c, AfterTwo(c), RerunOver(c));
  }

  lemma {:induction false} TheSecondMaySetOut(c: Case) returns (d: Day)
    ensures d == TwoStarted(c, c.cost, Idle, Preparing(2), Preparing(3)) && Distinct(d.w.backlog.tasks)
    ensures |d.w.backlog.tasks| == 5 && d.w.backlog.tasks[1].id == 2 && d.w.At(1, Preparing(2))
    ensures d.(w := d.w.Goes(1, Working(2)).Holding(d.w.backlog.tasks[1 := AtWork(d.w.backlog.tasks[1])]))
         == AtWorkOnTheSecond(c)
  {
    d := TwoStarted(c, c.cost, Idle, Preparing(2), Preparing(3));
  }

  lemma {:induction false} TheSecondSetsOut(c: Case)
    ensures Reaches(TwoStarted(c, c.cost, Idle, Preparing(2), Preparing(3)), [Prepares(1, "")], AtWorkOnTheSecond(c), 1,
                    QUIET)
  {
    var d := TheSecondMaySetOut(c);
    Prepared(d, 1, 1, 1);
  }

  lemma {:induction false} ItMayBeTurnedAway(c: Case) returns (d: Day)
    ensures d == AtWorkOnTheSecond(c) && Distinct(d.w.backlog.tasks) && |d.w.backlog.tasks| == 5
    ensures d.w.backlog.tasks[1].id == 2 && d.w.At(1, Working(2)) && d.w.backlog.tasks[1].RunsFor(1)
    ensures CountOf(Took(c.each)) == c.each == CeilingOf(d.w.backlog.tasks[1])
    ensures d.w.backlog.tasks[1] == AtWork(c.Out(2))
    ensures Day(d.w.Goes(1, Resetting(1)).Holding(d.w.backlog.tasks[1 := TurnedBack(c)]),
                d.lines + [LineOf(TurnedBack(c), c.now)]) == Refusing(c)
  {
    d := AtWorkOnTheSecond(c);
  }

  lemma {:induction false} ItIsTurnedAway(c: Case)
    ensures Reaches(AtWorkOnTheSecond(c), [TurnsAway(1, Took(c.each), c.now)], Refusing(c), 1, Tally(c.each, 0, 0, 0))
  {
    var d := ItMayBeTurnedAway(c);
    RefusedWithin(c.now, d, 1, 1, Took(c.each), 1, 1);
  }

  /** From the start to where the run was turned away and whoever had the other is about to decide. */
  function TurnedAwayOnce(c: Case): seq<Step> {
    TwoGone(c) + [Prepares(1, "")] + [TurnsAway(1, Took(c.each), c.now)]
    + ([EndsSo(2, GETTING_NOWHERE, c.now)] + ReadingIt(2))
  }

  /** It is handed out again, and has nowhere to work; and then the last two are handed out. */
  function ATurningAway(c: Case): seq<Step> {
    TurnedAwayOnce(c) + HandingAll(2, 0, c.Known(), c.now) + ([EndsSo(0, GETTING_NOWHERE, c.now)] + ReadingIt(0))
    + [Decides(0, c.Known(), c.now)]
  }

  lemma {:induction false} BothTold(one: Tally, another: Tally)
    requires one.beyond == 0 && one.late == 0 && one.early == 0
    requires another.beyond == 0 && another.late == 0 && another.early == 0
    ensures Plus(one, another) == Tally(one.told + another.told, 0, 0, 0)
  {
  }

  lemma {:induction false} TurnedAwaySo(c: Case, steps: seq<Step>, first: Tally, then': Tally)
    requires Reaches(AtFirst(c.policy), steps, AtWorkOnTheSecond(c), 1, first) && first == Tally(c.cost, 0, 0, 0)
    requires then' == Tally(c.each, 0, 0, 0)
    ensures Reaches(AtFirst(c.policy), steps + [TurnsAway(1, Took(c.each), c.now)], Refusing(c), 1,
                    Tally(c.cost + c.each, 0, 0, 0))
  {
    ItIsTurnedAway(c);
    Onwards(AtFirst(c.policy), steps, AtWorkOnTheSecond(c), [TurnsAway(1, Took(c.each), c.now)], Refusing(c), 1, first,
            then');
    BothTold(first, then');
  }

  lemma {:induction false} TheSecondIsAtWork(c: Case)
    requires c.Fits()
    ensures Reaches(AtFirst(c.policy), TwoGone(c) + [Prepares(1, "")], AtWorkOnTheSecond(c), 1, Tally(c.cost, 0, 0, 0))
  {
    TwoAreOut(c);
    TheSecondSetsOut(c);
    ThenQuietly(AtFirst(c.policy), TwoGone(c), TwoStarted(c, c.cost, Idle, Preparing(2), Preparing(3)),
                [Prepares(1, "")], AtWorkOnTheSecond(c), 1, Tally(c.cost, 0, 0, 0), QUIET);
  }

  lemma {:induction false} TurnedAwayFirst(c: Case)
    requires c.Fits()
    ensures Reaches(AtFirst(c.policy), TurnedAwayOnce(c), BeforeTheStop(c), 1, Tally(c.cost + c.each, 0, 0, 0))
  {
    TheSecondIsAtWork(c);
    TurnedAwaySo(c, TwoGone(c) + [Prepares(1, "")], Tally(c.cost, 0, 0, 0), Tally(c.each, 0, 0, 0));
    TheThirdEnds(c, TurnedBack(c), Resetting(1), AfterOne(c));
    ThenQuietly(AtFirst(c.policy), TwoGone(c) + [Prepares(1, "")] + [TurnsAway(1, Took(c.each), c.now)], Refusing(c),
                [EndsSo(2, GETTING_NOWHERE, c.now)] + ReadingIt(2), BeforeTheStop(c), 1,
                Tally(c.cost + c.each, 0, 0, 0), QUIET);
  }

  lemma {:induction false} RoomForOneMore(c: Case)
    requires c.Fits()
    ensures HandsOut(c.now, Five(c.Done(), TurnedBack(c), c.Nowhere(3)), c.Spending(c.cost), c.Known(), c.policy, 1,
                     Five(c.Done(), Rerun(c), c.Nowhere(3)), [2], c.Spent())
    ensures RunsAgain(c, Five(c.Done(), Rerun(c), c.Nowhere(3)))
  {
    var ts := Five(c.Done(), TurnedBack(c), c.Nowhere(3));
    FreeOfFive(c, c.Done(), TurnedBack(c), c.Nowhere(3), c.cost, c.each);
    WhatIsFree(c.now, ts, c.Spending(c.cost), c.Known(), c.policy, c.each);
    OneRunOffersEach(StandsAt(ts, c.Spending(c.cost), A_READING, c.Known(), c.policy, c.now), c.policy.sizing, c.cost,
                     c.each, true);
    assert ts[1 := Rerun(c)] == Five(c.Done(), Rerun(c), c.Nowhere(3));
    OneIsHandedAll(c.now, ts, Five(c.Done(), Rerun(c), c.Nowhere(3)), c.Spending(c.cost), c.Known(), c.policy, 1,
                   c.each, c.Spent(), 1);
  }

  predicate RunsAgain(c: Case, us: seq<Task>) {
    Has(us, 2) && us[IndexOf(us, 2)].state.Running?
  }

  lemma {:induction false} ItMayBeHandedOutAgain(c: Case) returns (d: Day)
    ensures d == BeforeTheStop(c) && d.w.At(2, c.Reading(c.cost)) && Runs(d.w.sessions, 1) && d.w.policy == c.policy
    ensures d.w.backlog.tasks == Five(c.Done(), TurnedBack(c), c.Nowhere(3)) && d.w.atOnce == 3
    ensures ToldBy(c.Known(), c.policy.sizing, Of(c.declared).usage, d.lines)
    ensures d.w.queue == [] && |d.w.threads| == 4 && d.w.threads[0] == Thread(true, Idle)
    ensures d.(w := d.w.Goes(2, Queuing([])).Goes(0, Preparing(2)).Holding(Five(c.Done(), Rerun(c), c.Nowhere(3)))
             .(sessions := Note(d.w.sessions, 1, Tokens(c.Spent()), c.now)))
         == RunOnceMore(c)
  {
    d := BeforeTheStop(c);
    WhatIsKnown(c);
    NotedAs(c.Begin(), c.cost, c.Spent());
  }

  lemma {:induction false} ItIsHandedOutAgain(c: Case)
    requires c.Fits()
    ensures Reaches(BeforeTheStop(c), HandingAll(2, 0, c.Known(), c.now), RunOnceMore(c), 1, QUIET)
  {
    var d := ItMayBeHandedOutAgain(c);
    RoomForOneMore(c);
    HandedAndTakenUp(c.now, d, 2, 0, c.Spending(c.cost), c.Known(), Five(c.Done(), Rerun(c), c.Nowhere(3)), 2,
                     c.Spent(), 1);
  }

  lemma {:induction false} ItMayEndOnceMore(c: Case) returns (d: Day)
    ensures d == RunOnceMore(c) && Distinct(d.w.backlog.tasks) && |d.w.backlog.tasks| == 5
    ensures d.w.backlog.tasks[1] == Rerun(c) && d.w.backlog.tasks[1].id == 2 && d.w.backlog.tasks[1].RunsFor(1)
    ensures EndsThere(d.w, 0, 2, GETTING_NOWHERE)
    ensures Runs(d.w.sessions, 1) && HeldAs(d.w.sessions, 1) == c.Spending(c.Spent())
    ensures Day(d.w.Goes(0, c.Reading(c.Spent())).Holding(d.w.backlog.tasks[1 := RerunOver(c)]),
                d.lines + [LineOf(RerunOver(c), c.now)])
         == OverOnceMore(c, ATask(4), ATask(5), c.Reading(c.Spent()))
  {
    d := RunOnceMore(c);
  }

  lemma {:induction false} ItEndsOnceMore(c: Case)
    ensures Reaches(RunOnceMore(c), [EndsSo(0, GETTING_NOWHERE, c.now)] + ReadingIt(0),
                    OverOnceMore(c, ATask(4), ATask(5), c.Reading(c.Spent())), 1, QUIET)
  {
    var d := ItMayEndOnceMore(c);
    EndedAndRead(c.now, d, 0, 1, GETTING_NOWHERE, c.Spending(c.Spent()), 1);
  }

  lemma {:induction false} TheLastTwoAreSettled(c: Case)
    requires c.Fits()
    ensures HandsOut(c.now, Five(c.Done(), RerunOver(c), c.Nowhere(3)), c.Spending(c.Spent()), c.Known(), c.policy, 1,
                     LastTwoOut(c), [4, 5], c.cost)
  {
    var ts, us := Five(c.Done(), RerunOver(c), c.Nowhere(3)), LastTwoOut(c);
    FreeOfFive(c, c.Done(), RerunOver(c), c.Nowhere(3), c.Spent(), 2 * c.each);
    assert BothHanded(ts, 3, 4, 1, c.each, c.now) == us;
    BothAreHandedEach(c.now, ts, us, c.Spending(c.Spent()), c.policy.sizing, c.cost, c.policy, 3, 4, c.cost,
                      1);
  }

  lemma {:induction false} TheyMayBeHanded(c: Case) returns (d: Day)
    ensures d == OverOnceMore(c, ATask(4), ATask(5), c.Reading(c.Spent())) && Runs(d.w.sessions, 1)
    ensures d.w.At(0, c.Reading(c.Spent())) && d.w.policy == c.policy && d.w.atOnce == 3
    ensures d.w.backlog.tasks == Five(c.Done(), RerunOver(c), c.Nowhere(3))
    ensures ToldBy(c.Known(), c.policy.sizing, Of(c.declared).usage, d.lines)
    ensures d.(w := d.w.Goes(0, Noting(1, Tokens(c.cost), Started([4, 5])))
             .Holding(LastTwoOut(c)))
         == OverOnceMore(c, c.Out(4), c.Out(5), Noting(1, Tokens(c.cost), Started([4, 5])))
  {
    d := OverOnceMore(c, ATask(4), ATask(5), c.Reading(c.Spent()));
    WhatIsKnown(c);
  }

  lemma {:induction false} TheyAreHanded(c: Case)
    requires c.Fits()
    ensures Reaches(OverOnceMore(c, ATask(4), ATask(5), c.Reading(c.Spent())), [Decides(0, c.Known(), c.now)],
                    OverOnceMore(c, c.Out(4), c.Out(5), Noting(1, Tokens(c.cost), Started([4, 5]))), 1, QUIET)
  {
    var d := TheyMayBeHanded(c);
    TheLastTwoAreSettled(c);
    StartedSo(c.now, d, 0, c.Spending(c.Spent()), c.Known(), LastTwoOut(c), [4, 5], c.cost, 1);
  }

  lemma {:induction false} WhatIsCarried(v: World)
    requires v.queue == [] && |v.threads| == 4 && v.threads[0].at.Noting?
    requires v.threads[0].at.verdict == Started([4, 5])
    requires v.threads[1].at == Resetting(1) && v.threads[2].at == Queuing([]) && v.threads[3].at == Queuing([])
    ensures Carried(v, 1) == 0 && Carried(v, 2) == 0 && Carried(v, 3) == 0 && Carried(v, 4) == 1 && Carried(v, 5) == 1
  {
    OnlyOneCarries(v.threads, 0, 1, 4);
    OnlyOneCarries(v.threads, 0, 2, 4);
    OnlyOneCarries(v.threads, 0, 3, 4);
    OnlyOneCarries(v.threads, 0, 4, 4);
    OnlyOneCarries(v.threads, 0, 5, 4);
  }

  lemma {:induction false} SumOfFive(xs: seq<nat>)
    requires |xs| == 5
    ensures Sum(xs) == xs[0] + xs[1] + xs[2] + xs[3] + xs[4]
  {
    OneMore(xs, 1);
    OneMore(xs, 2);
    OneMore(xs, 3);
    OneMore(xs, 4);
    OneMore(xs, 5);
    assert xs[..5] == xs;
  }

  lemma {:induction false} OnlyTheLastTwoAreOutstanding(c: Case)
    ensures var v := OverOnceMore(c, c.Out(4), c.Out(5), Noting(1, Tokens(c.cost), Started([4, 5]))).w;
            && Outstanding(v, 1) == 2 * c.each && Runs(v.sessions, 1) && HeldAs(v.sessions, 1).budget == Of(c.declared)
  {
    var v := OverOnceMore(c, c.Out(4), c.Out(5), Noting(1, Tokens(c.cost), Started([4, 5]))).w;
    WhatIsCarried(v);
    SumOfFive(OutstandingEach(v, 1));
  }

  lemma {:induction false} HandedOutAndOver(c: Case)
    requires c.Fits()
    ensures Reaches(AtFirst(c.policy),
                    TurnedAwayOnce(c) + HandingAll(2, 0, c.Known(), c.now)
                    + ([EndsSo(0, GETTING_NOWHERE, c.now)] + ReadingIt(0)),
                    OverOnceMore(c, ATask(4), ATask(5), c.Reading(c.Spent())), 1,
                    Tally(c.cost + c.each, 0, 0, 0))
  {
    TurnedAwayFirst(c);
    ItIsHandedOutAgain(c);
    ThenQuietly(AtFirst(c.policy), TurnedAwayOnce(c), BeforeTheStop(c), HandingAll(2, 0, c.Known(), c.now),
                RunOnceMore(c), 1, Tally(c.cost + c.each, 0, 0, 0), QUIET);
    ItEndsOnceMore(c);
    ThenQuietly(AtFirst(c.policy), TurnedAwayOnce(c) + HandingAll(2, 0, c.Known(), c.now), RunOnceMore(c),
                [EndsSo(0, GETTING_NOWHERE, c.now)] + ReadingIt(0),
                OverOnceMore(c, ATask(4), ATask(5), c.Reading(c.Spent())), 1, Tally(c.cost + c.each, 0, 0, 0),
                QUIET);
  }

  /** A run spends all it was allowed and is turned away by the vendor, its task is handed out again before the
      session is stopped and says nothing the second time, and the next decision hands out as much as two runs
      are allowed, whatever the policy. Nobody asked for anything, and the session pays for one run too many. */
  lemma {:induction false} ATurningAwayIsForgotten(c: Case)
    requires c.Fits()
    ensures OverspendsInTime(c.policy, ATurningAway(c), c.declared, c.cost + c.each, 2 * c.each)
  {
    var f := OverOnceMore(c, c.Out(4), c.Out(5), Noting(1, Tokens(c.cost), Started([4, 5])));
    HandedOutAndOver(c);
    TheyAreHanded(c);
    ThenQuietly(AtFirst(c.policy),
                TurnedAwayOnce(c) + HandingAll(2, 0, c.Known(), c.now)
                + ([EndsSo(0, GETTING_NOWHERE, c.now)] + ReadingIt(0)),
                OverOnceMore(c, ATask(4), ATask(5), c.Reading(c.Spent())), [Decides(0, c.Known(), c.now)], f, 1,
                Tally(c.cost + c.each, 0, 0, 0), QUIET);
    OnlyTheLastTwoAreOutstanding(c);
    ReachedSo(c.policy, ATurningAway(c), f, c.declared, c.cost + c.each, 2 * c.each);
  }

  /** Under the policy the daemon ships with, where the first run costs twenty-five: seventy-five were spent and
      a hundred are handed out, of a hundred and twenty-five declared. */
  lemma {:induction false} TheShippedPolicyForgets(now: U64) returns (c: Case)
    ensures c.policy == SHIPPED_POLICY && OverspendsInTime(c.policy, ATurningAway(c), 125, 75, 100)
  {
    c := Case(SHIPPED_POLICY, 25, 50, 125, now);
    ATurningAwayIsForgotten(c);
  }
}
