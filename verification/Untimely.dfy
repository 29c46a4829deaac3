/** The two steps the bound on a budget asks runs to do without, each taken in a run of the daemon from its
    start: a decision made for a session stopped since it was read, and a retry of a task whose worker is
    still out. And exactly what a retry breaks. */
module Untimely {
  import opened Wrappers
  import opened Numbers
  import opened Spendings
  import opened Tasks
  import opened Graph
  import opened Closure
  import opened SessionValues
  import Sizings
  import opened Decisions
  import opened Settling
  import opened Protocol
  import opened Precedents
  import opened FirstInLine
  import opened Steps
  import opened NoIdle
  import opened Commitments
  import opened BudgetBound
  import opened Reports
  import opened Outliving
  import opened Episodes
  import opened OneOut
  import opened TwoOut

  lemma {:induction false} HaltedAlone(s: Session, now: U64)
    requires s.state.Running?
    ensures Halt([s], s.id, StoppedReason.Interrupted, now) == [Halted(s, StoppedReason.Interrupted, now)]
    ensures !Runs([Halted(s, StoppedReason.Interrupted, now)], s.id)
    ensures Keeps([Halted(s, StoppedReason.Interrupted, now)], s.id)
    ensures HeldAs([Halted(s, StoppedReason.Interrupted, now)], s.id).budget == s.budget
  {
  }

  /** A task cut off with its session. */
  function CutShort(t: Task, now: U64): Task {
    t.(state := TaskState.Interrupted, reason := Some(Spelled(StoppedReason.Interrupted)), endedAt := Some(now))
  }

  // ---------------------------------------------------------------- a budget committed past itself

  function ALateDecision(c: Case): seq<Step> {
    TwoGone(c) + ([EndsSo(2, GETTING_NOWHERE, c.now)] + ReadingIt(2)) + StoppingIt(4, 1, c.now)
    + [Decides(2, c.Known(), c.now)]
  }

  function Cut(c: Case): Session {
    Halted(c.Spending(c.cost), StoppedReason.Interrupted, c.now)
  }

  /** The session is stopped, one of its runs is still out, and whoever had the other is about to decide. */
  function Late(c: Case, ts: seq<Task>, at: Phase): World {
    Scene(c.policy, ts, 6, [Cut(c)], 2, Threads(Idle, Preparing(2), at, QUEUED + [Thread(false, Idle)]))
  }

  function LeftWaiting(c: Case): seq<Task> {
    Five(c.Done(), CutShort(c.Out(2), c.now), c.Nowhere(3))
  }

  function AllHanded(c: Case): seq<Task> {
    [c.Done(), CutShort(c.Out(2), c.now), c.Nowhere(3), c.Out(4), c.Out(5)]
  }

  function LinesByThen(c: Case): seq<Line> {
    c.Ledger() + [LineOf(c.Nowhere(3), c.now)]
  }

  function BeforeIt(c: Case): Day {
    Day(Late(c, LeftWaiting(c), c.Reading(c.cost)), LinesByThen(c))
  }

  function AfterIt(c: Case): Day {
    Day(Late(c, AllHanded(c), Noting(1, Tokens(c.cost), Started([4, 5]))), LinesByThen(c))
  }

  lemma {:induction false} OneIsCutShort(c: Case) returns (d: Day)
    ensures d == Day(OneLeft(c, c.Out(2), Preparing(2)), LinesByThen(c)) && Keeps(d.w.sessions, 1)
    ensures |d.w.threads| == 4
    ensures d.(w := d.w.(sessions := Halt(d.w.sessions, 1, StoppedReason.Interrupted, c.now),
                         threads := d.w.threads + [Thread(false, Idle)])
             .Holding(Interrupt(d.w.backlog.tasks, 1, Spelled(StoppedReason.Interrupted), c.now)))
         == BeforeIt(c)
  {
    d := Day(OneLeft(c, c.Out(2), Preparing(2)), LinesByThen(c));
    HaltedAlone(c.Spending(c.cost), c.now);
    OnlyOneRuns(c);
  }

  lemma {:induction false} OnlyOneRuns(c: Case)
    ensures Interrupt(Five(c.Done(), c.Out(2), c.Nowhere(3)), 1, Spelled(StoppedReason.Interrupted), c.now)
         == LeftWaiting(c)
  {
  }

  lemma {:induction false} TheyAreStopped(c: Case)
    ensures Reaches(Day(OneLeft(c, c.Out(2), Preparing(2)), LinesByThen(c)), StoppingIt(4, 1, c.now), BeforeIt(c), 1,
                    QUIET)
  {
    var d := OneIsCutShort(c);
    StoppedAndCut(c.now, d, 1, 1);
  }

  lemma {:induction false} TheLastTwoAreSettled(c: Case)
    requires c.Fits()
    ensures HandsOut(c.now, LeftWaiting(c), c.Spending(c.cost), c.Known(), c.policy, 1, AllHanded(c), [4, 5], c.cost)
  {
    var ts := LeftWaiting(c);
    FreeOfFive(c, c.Done(), CutShort(c.Out(2), c.now), c.Nowhere(3), c.cost, 2 * c.each);
    assert BothHanded(ts, 3, 4, 1, c.each, c.now) == AllHanded(c);
    BothAreHandedEach(c.now, ts, AllHanded(c), c.Spending(c.cost), c.policy.sizing, c.cost, c.policy, 3, 4, c.cost,
                      1);
  }

  lemma {:induction false} TheyAreHandedLate(c: Case)
    requires c.Fits()
    ensures Reaches(BeforeIt(c), [Decides(2, c.Known(), c.now)], AfterIt(c), 1, Tally(0, 0, 1, 0))
  {
    var d := TheyMayBeHanded(c);
    TheLastTwoAreSettled(c);
    StartedSo(c.now, d, 2, c.Spending(c.cost), c.Known(), AllHanded(c), [4, 5], c.cost, 1);
  }

  lemma {:induction false} TheyMayBeHanded(c: Case) returns (d: Day)
    ensures d == BeforeIt(c) && d.w.At(2, c.Reading(c.cost)) && !Runs(d.w.sessions, 1)
    ensures d.w.policy == c.policy && d.w.atOnce == 3
    ensures d.w.backlog.tasks == LeftWaiting(c)
    ensures ToldBy(c.Known(), c.policy.sizing, c.Spending(c.cost).budget.usage, d.lines)
    ensures d.(w := d.w.Goes(2, Noting(1, Tokens(c.cost), Started([4, 5]))).Holding(AllHanded(c))) == AfterIt(c)
  {
    d := BeforeIt(c);
    WhatTheFirstRunTeaches(c);
    OthersTeachNothing(c, c.Ledger(), c.Nowhere(3));
    HaltedAlone(c.Spending(c.cost), c.now);
  }

  lemma {:induction false} DecidedLate(c: Case)
    requires c.Fits()
    ensures Reaches(AtFirst(c.policy), ALateDecision(c), AfterIt(c), 1, Tally(c.cost, 0, 1, 0))
  {
    var d, e := TwoStarted(c, c.cost, Idle, Preparing(2), Preparing(3)),
        Day(OneLeft(c, c.Out(2), Preparing(2)), LinesByThen(c));
    TwoAreOut(c);
    TheThirdEnds(c, c.Out(2), Preparing(2), c.Ledger());
    ThenQuietly(AtFirst(c.policy), TwoGone(c), d, [EndsSo(2, GETTING_NOWHERE, c.now)] + ReadingIt(2), e, 1,
                Tally(c.cost, 0, 0, 0), QUIET);
    TheyAreStopped(c);
    ThenQuietly(AtFirst(c.policy), TwoGone(c) + ([EndsSo(2, GETTING_NOWHERE, c.now)] + ReadingIt(2)), e,
                StoppingIt(4, 1, c.now), BeforeIt(c), 1, Tally(c.cost, 0, 0, 0), QUIET);
    TheyAreHandedLate(c);
    Onwards(AtFirst(c.policy),
            TwoGone(c) + ([EndsSo(2, GETTING_NOWHERE, c.now)] + ReadingIt(2)) + StoppingIt(4, 1, c.now), BeforeIt(c),
            [Decides(2, c.Known(), c.now)], AfterIt(c), 1, Tally(c.cost, 0, 0, 0), Tally(0, 0, 1, 0));
  }

  lemma {:induction false} WhatIsCarried(v: World)
    requires v.queue == [] && |v.threads| == 5 && v.threads[0].at == Idle && v.threads[1].at == Preparing(2)
    requires v.threads[2].at.Noting? && v.threads[2].at.verdict == Started([4, 5])
    requires v.threads[3].at == Queuing([]) && v.threads[4].at == Idle
    ensures Carried(v, 1) == 0 && Carried(v, 2) == 1 && Carried(v, 3) == 0 && Carried(v, 4) == 1 && Carried(v, 5) == 1
  {
    OnlyOneCarries(v.threads, 1, 1, 5);
    OnlyOneCarries(v.threads, 1, 2, 5);
    OnlyOneCarries(v.threads, 1, 3, 5);
    OnlyOneCarries(v.threads, 2, 4, 5);
    OnlyOneCarries(v.threads, 2, 5, 5);
  }

  lemma {:induction false} CommittedOfFive(w: World, session: SessionId)
    requires |w.backlog.tasks| == 5
    ensures Committed(w, session)
         == HoldsAgainst(w, session, w.backlog.tasks[0]) + HoldsAgainst(w, session, w.backlog.tasks[1])
            + HoldsAgainst(w, session, w.backlog.tasks[2]) + HoldsAgainst(w, session, w.backlog.tasks[3])
            + HoldsAgainst(w, session, w.backlog.tasks[4])
  {
    var ts := w.backlog.tasks;
    assert CommittedAmong(w, session, 1) == HoldsAgainst(w, session, ts[0]);
    assert CommittedAmong(w, session, 2) == CommittedAmong(w, session, 1) + HoldsAgainst(w, session, ts[1]);
    assert CommittedAmong(w, session, 3) == CommittedAmong(w, session, 2) + HoldsAgainst(w, session, ts[2]);
    assert CommittedAmong(w, session, 4) == CommittedAmong(w, session, 3) + HoldsAgainst(w, session, ts[3]);
  }

  lemma {:induction false} ThreeRunsAreCommitted(c: Case)
    ensures var v := AfterIt(c).w;
            && Committed(v, 1) == c.cost + 3 * c.each && Keeps(v.sessions, 1)
            && HeldAs(v.sessions, 1).budget == Of(c.declared)
  {
    var v := AfterIt(c).w;
    HaltedAlone(c.Spending(c.cost), c.now);
    WhatIsCarried(v);
    CommittedOfFive(v, 1);
  }

  /** One decision made for a session stopped since it was read commits it to half as much again as the two
      runs it left room for, whatever the policy: no run passed its ceiling, nothing was retried or brought
      along, every decision was made by the one ledger there is, and what is over is what the late decision
      booked no room for. */
  lemma {:induction false} ALateDecisionOverCommits(c: Case)
    requires c.Fits()
    ensures CanRun(AtFirst(c.policy).w, ALateDecision(c)) && KeepsOneLedger(AtFirst(c.policy).w, ALateDecision(c), [])
    ensures AllRetryInTime(AtFirst(c.policy).w, ALateDecision(c))
    ensures BeyondAll(AtFirst(c.policy).w, ALateDecision(c), 1) == 0
    ensures var v := Ran(AtFirst(c.policy).w, ALateDecision(c));
            && Keeps(v.sessions, 1) && HeldAs(v.sessions, 1).budget.Declared() == c.cost + 2 * c.each
            && Committed(v, 1) == c.cost + 3 * c.each
    ensures !AllDecideInTime(AtFirst(c.policy).w, ALateDecision(c))
    ensures AllNotBooked(AtFirst(c.policy).w, ALateDecision(c), 1) >= c.each >= 1
  {
    DecidedLate(c);
    ThreeRunsAreCommitted(c);
    WhatItLetPast(AtFirst(c.policy).w, ALateDecision(c), 1);
    WhatWasLate(AtFirst(c.policy).w, ALateDecision(c), 1);
    WhatWasEarly(AtFirst(c.policy).w, ALateDecision(c), 1);
    WhatTasksSayStaysWithin(3, c.policy, ALateDecision(c), 1);
  }

  /** Under the policy the daemon ships with, where the first run costs twenty-five: each of the others is
      allowed fifty, and a hundred and seventy-five are committed where a hundred and twenty-five were
      declared. */
  lemma {:induction false} TheShippedPolicyOverCommits(now: U64) returns (c: Case)
    ensures c.policy == SHIPPED_POLICY && c.cost == 25 && c.now == now && c.Fits()
    ensures CanRun(AtFirst(c.policy).w, ALateDecision(c))
    ensures var v := Ran(AtFirst(c.policy).w, ALateDecision(c));
            Committed(v, 1) == 175 && Keeps(v.sessions, 1) && HeldAs(v.sessions, 1).budget.Declared() == 125
  {
    c := Case(SHIPPED_POLICY, 25, 50, 125, now);
    ALateDecisionOverCommits(c);
  }

  // ---------------------------------------------------------------- a task that outlives its session

  function ALateHandover(s: Beginning): seq<Step> {
    Begun(s) + StoppingIt(4, 1, s.now) + [Decides(3, NOTHING_KNOWN, s.now)]
  }

  function CutSession(s: Beginning): Session {
    Halted(s.Spending(0), StoppedReason.Interrupted, s.now)
  }

  /** The session stopped, and whoever opened it about to decide for it, or done. */
  function AfterTheStop(s: Beginning, ts: seq<Task>, at: Phase): Day
    requires s.Fits()
  {
    Day(Scene(s.policy, ts, s.n + 1, [CutSession(s)], 2,
              Threads(Idle, Idle, Idle, [Thread(false, at), Thread(false, Idle)])), [])
  }

  lemma {:induction false} NobodyToCut(ts: seq<Task>, session: SessionId, reason: string, now: U64)
    requires forall k :: 0 <= k < |ts| ==> !ts[k].RunsFor(session)
    ensures Interrupt(ts, session, reason, now) == ts
  {
  }

  lemma {:induction false} ItMayBeStopped(s: Beginning) returns (d: Day)
    requires s.Fits()
    ensures d == JustRead(s) && Keeps(d.w.sessions, 1) && |d.w.threads| == 4
    ensures d.(w := d.w.(sessions := Halt(d.w.sessions, 1, StoppedReason.Interrupted, s.now),
                         threads := d.w.threads + [Thread(false, Idle)])
             .Holding(Interrupt(d.w.backlog.tasks, 1, Spelled(StoppedReason.Interrupted), s.now)))
         == AfterTheStop(s, Unrun(s.n), Deciding(s.Spending(0), A_READING))
  {
    d := JustRead(s);
    HaltedAlone(s.Spending(0), s.now);
    NobodyToCut(Unrun(s.n), 1, Spelled(StoppedReason.Interrupted), s.now);
  }

  lemma {:induction false} ItMayBeHandedLate(s: Beginning) returns (d: Day)
    requires s.Fits()
    ensures d == AfterTheStop(s, Unrun(s.n), Deciding(s.Spending(0), A_READING)) && !Runs(d.w.sessions, 1)
    ensures d.w.At(3, Deciding(s.Spending(0), A_READING)) && d.w.backlog.tasks == Unrun(s.n) && d.w.atOnce == 3
    ensures d.w.policy == s.policy
    ensures d.(w := d.w.Goes(3, Noting(1, Tokens(0), Started([1]))).Holding(s.With(s.FirstRun())))
         == AfterTheStop(s, s.With(s.FirstRun()), Noting(1, Tokens(0), Started([1])))
    ensures ToldBy(NOTHING_KNOWN, s.policy.sizing, s.Spending(0).budget.usage, d.lines)
  {
    d := AfterTheStop(s, Unrun(s.n), Deciding(s.Spending(0), A_READING));
    HaltedAlone(s.Spending(0), s.now);
    AnEmptyLedgerSaysNothing(s.policy.sizing, s.Spending(0).budget.usage);
  }

  lemma {:induction false} ItIsHandedLate(s: Beginning)
    requires s.Fits()
    ensures Reaches(AfterTheStop(s, Unrun(s.n), Deciding(s.Spending(0), A_READING)),
                    [Decides(3, NOTHING_KNOWN, s.now)],
                    AfterTheStop(s, s.With(s.FirstRun()), Noting(1, Tokens(0), Started([1]))), 1, Tally(0, 0, 1, 0))
  {
    var d := ItMayBeHandedLate(s);
    TheFirstGetsItAll(s, 1);
    StartedSo(s.now, d, 3, s.Spending(0), NOTHING_KNOWN, s.With(s.FirstRun()), [1], 0, 1);
  }

  lemma {:induction false} ItOutlives(s: Beginning)
    requires s.Fits()
    ensures var v := AfterTheStop(s, s.With(s.FirstRun()), Noting(1, Tokens(0), Started([1]))).w;
            && |v.backlog.tasks| == s.n && v.backlog.tasks[0].RunsFor(1) && !Runs(v.sessions, 1)
            && !SomebodyCuts(v, 1) && !NothingOutlives(v)
  {
    var v := AfterTheStop(s, s.With(s.FirstRun()), Noting(1, Tokens(0), Started([1]))).w;
    HaltedAlone(s.Spending(0), s.now);
    assert v.backlog.tasks[0].RunsFor(1);
    assert !RunsOrIsCut(v, v.backlog.tasks[0]);
  }

  /** A decision made for a session stopped since it was read leaves a task running for it, with nobody left
      to cut it off, whatever the policy and however much was declared. */
  lemma {:induction false} ALateDecisionOutlivesItsSession(s: Beginning)
    requires s.Fits()
    ensures CanRun(AtFirst(s.policy).w, ALateHandover(s)) && KeepsOneLedger(AtFirst(s.policy).w, ALateHandover(s), [])
    ensures var v := Ran(AtFirst(s.policy).w, ALateHandover(s));
            && |v.backlog.tasks| == s.n && v.backlog.tasks[0].RunsFor(1) && !Runs(v.sessions, 1)
            && !SomebodyCuts(v, 1) && !NothingOutlives(v)
  {
    var d := ItMayBeStopped(s);
    var e := AfterTheStop(s, Unrun(s.n), Deciding(s.Spending(0), A_READING));
    ASessionIsOpened(s, 1);
    StoppedAndCut(s.now, d, 1, 1);
    ThenQuietly(AtFirst(s.policy), Begun(s), d, StoppingIt(4, 1, s.now), e, 1, QUIET, QUIET);
    ItIsHandedLate(s);
    QuietlyThen(AtFirst(s.policy), Begun(s) + StoppingIt(4, 1, s.now), e, [Decides(3, NOTHING_KNOWN, s.now)],
                AfterTheStop(s, s.With(s.FirstRun()), Noting(1, Tokens(0), Started([1]))), 1, QUIET,
                Tally(0, 0, 1, 0));
    ItOutlives(s);
  }

  // ---------------------------------------------------------------- a task with two runs out

  /** The one run cut off with its session while its worker is out; a retry; another session, which hands the
      task out again; and then what the first run came to. */
  function AnEarlyRetry(s: Beginning, took: U64): seq<Step> {
    FirstAtWork(s) + StoppingIt(4, 1, s.now) + [Commands(Requeue(1, false))] + OpeningIt(5, s.declared, s.now)
    + [Decides(5, NOTHING_KNOWN, s.now)] + [EndsSo(0, GoingWrong(took), s.now)]
  }

  function FirstCut(s: Beginning): Task {
    CutShort(AtWork(s.FirstRun()), s.now)
  }

  function WaitsAgain(s: Beginning): Task {
    Requeued(FirstCut(s), false)
  }

  function SecondRun(s: Beginning): Task {
    Handed(WaitsAgain(s), 2, s.declared, s.now, None)
  }

  /** The first hand is at work on the first task, whatever became of it. */
  function StillOut(s: Beginning, one: Task): Day
    requires s.Fits()
  {
    Day(Scene(s.policy, s.With(one), s.n + 1, [CutSession(s)], 2,
              Threads(Working(1), Idle, Idle, QUEUED + [Thread(false, Idle)])), [])
  }

  function Twice(s: Beginning, one: Task, first: Phase, last: Phase, lines: seq<Line>): Day
    requires s.Fits()
  {
    Day(Scene(s.policy, s.With(one), s.n + 1, [CutSession(s), ASession(2, s.declared, s.now)], 3,
              Threads(first, Idle, Idle, QUEUED + [Thread(false, Idle), Thread(false, last)])), lines)
  }

  lemma {:induction false} OnlyTheFirstRuns(s: Beginning, one: Task, reason: string)
    requires s.Fits() && one.RunsFor(1)
    ensures Interrupt(s.With(one), 1, reason, s.now)
         == s.With(one.(state := TaskState.Interrupted, reason := Some(reason), endedAt := Some(s.now)))
  {
  }

  lemma {:induction false} ItMayBeCut(s: Beginning) returns (d: Day)
    requires s.Fits()
    ensures d == FirstOut(s, AtWork(s.FirstRun()), Working(1)) && Keeps(d.w.sessions, 1) && |d.w.threads| == 4
    ensures d.(w := d.w.(sessions := Halt(d.w.sessions, 1, StoppedReason.Interrupted, s.now),
                         threads := d.w.threads + [Thread(false, Idle)])
             .Holding(Interrupt(d.w.backlog.tasks, 1, Spelled(StoppedReason.Interrupted), s.now)))
         == StillOut(s, FirstCut(s))
  {
    d := FirstOut(s, AtWork(s.FirstRun()), Working(1));
    HaltedAlone(s.Spending(0), s.now);
    OnlyTheFirstRuns(s, AtWork(s.FirstRun()), Spelled(StoppedReason.Interrupted));
  }

  lemma {:induction false} ItsWorkerIsOut(s: Beginning) returns (d: Day)
    requires s.Fits()
    ensures d == StillOut(s, FirstCut(s)) && |d.w.backlog.tasks| == s.n && Distinct(d.w.backlog.tasks)
    ensures d.w.backlog.tasks[0].state.Ended() && d.w.backlog.tasks[0].id == 1 && Carried(d.w, 1) == 1
    ensures d.(w := d.w.Holding(d.w.backlog.tasks[0 := Requeued(d.w.backlog.tasks[0], false)]))
         == StillOut(s, WaitsAgain(s))
  {
    d := StillOut(s, FirstCut(s));
    OnlyOneCarries(d.w.threads, 0, 1, 5);
  }

  lemma {:induction false} ItIsRetriedEarly(s: Beginning)
    requires s.Fits()
    ensures Reaches(StillOut(s, FirstCut(s)), [Commands(Requeue(1, false))], StillOut(s, WaitsAgain(s)), 2,
                    Tally(0, 0, 0, 1))
  {
    var d := ItsWorkerIsOut(s);
    Retried(d, 0, 1, 2);
  }

  lemma {:induction false} AnotherMayBeOpened(s: Beginning) returns (d: Day)
    requires s.Fits()
    ensures d == StillOut(s, WaitsAgain(s)) && |d.w.threads| == 5 && d.w.nextSession == 2
    ensures RunningAt(d.w.sessions) == |d.w.sessions| && FreshSessions(d.w.nextSession, d.w.sessions)
    ensures d.(w := d.w.(sessions := d.w.sessions + [ASession(2, s.declared, s.now)], nextSession := 3,
                         threads := d.w.threads
                           + [Thread(false, Deciding(ASession(2, s.declared, s.now), A_READING))]))
         == Twice(s, WaitsAgain(s), Working(1), Deciding(ASession(2, s.declared, s.now), A_READING), [])
  {
    d := StillOut(s, WaitsAgain(s));
    assert [CutSession(s)] + [ASession(2, s.declared, s.now)] == [CutSession(s), ASession(2, s.declared, s.now)];
  }

  lemma {:induction false} AnotherIsOpened(s: Beginning)
    requires s.Fits()
    ensures Reaches(StillOut(s, WaitsAgain(s)), OpeningIt(5, s.declared, s.now),
                    Twice(s, WaitsAgain(s), Working(1), Deciding(ASession(2, s.declared, s.now), A_READING), []), 2,
                    QUIET)
  {
    var d := AnotherMayBeOpened(s);
    OpenedAndRead(s.now, d, s.declared, 2);
  }

  lemma {:induction false} SecondIsFound(s: Beginning)
    ensures var ss := [CutSession(s), ASession(2, s.declared, s.now)];
            IndexOfSession(ss, 2) == 1 && Runs(ss, 2) && HeldAs(ss, 2) == ASession(2, s.declared, s.now)
  {
    var ss := [CutSession(s), ASession(2, s.declared, s.now)];
    assert ss[0].id == 1 && ss[1].id == 2;
  }

  lemma {:induction false} ItMayBeHandedAgain(s: Beginning) returns (d: Day)
    requires s.Fits()
    ensures d == Twice(s, WaitsAgain(s), Working(1), Deciding(ASession(2, s.declared, s.now), A_READING), [])
    ensures d.w.backlog.tasks == s.With(WaitsAgain(s)) && Runs(d.w.sessions, 2)
    ensures d.w.atOnce == 3 && d.w.policy == s.policy
    ensures d.w.At(5, Deciding(ASession(2, s.declared, s.now), A_READING))
    ensures d.(w := d.w.Goes(5, Noting(2, Tokens(0), Started([1]))).Holding(s.With(SecondRun(s))))
         == Twice(s, SecondRun(s), Working(1), Noting(2, Tokens(0), Started([1])), [])
    ensures ToldBy(NOTHING_KNOWN, s.policy.sizing, ASession(2, s.declared, s.now).budget.usage, d.lines)
  {
    d := Twice(s, WaitsAgain(s), Working(1), Deciding(ASession(2, s.declared, s.now), A_READING), []);
    SecondIsFound(s);
    AnEmptyLedgerSaysNothing(s.policy.sizing, Of(s.declared).usage);
  }

  lemma {:induction false} ItGetsItAllAgain(s: Beginning)
    requires s.Fits()
    ensures HandsOut(s.now, s.With(WaitsAgain(s)), ASession(2, s.declared, s.now), NOTHING_KNOWN, s.policy, 2,
                     s.With(SecondRun(s)), [1], 0)
  {
    NothingCounted(s.With(WaitsAgain(s)), 2, s.n);
    GetsAllThereIs(s.now, s.With(WaitsAgain(s)), ASession(2, s.declared, s.now), s.policy, 0, s.declared);
    assert s.With(WaitsAgain(s))[0 := SecondRun(s)] == s.With(SecondRun(s));
    OneIsHandedAll(s.now, s.With(WaitsAgain(s)), s.With(SecondRun(s)), ASession(2, s.declared, s.now), NOTHING_KNOWN,
                   s.policy, 0, s.declared, 0, 2);
  }

  lemma {:induction false} ItIsHandedAgain(s: Beginning)
    requires s.Fits()
    ensures Reaches(Twice(s, WaitsAgain(s), Working(1), Deciding(ASession(2, s.declared, s.now), A_READING), []),
                    [Decides(5, NOTHING_KNOWN, s.now)],
                    Twice(s, SecondRun(s), Working(1), Noting(2, Tokens(0), Started([1])), []), 2, QUIET)
  {
    var d := ItMayBeHandedAgain(s);
    ItGetsItAllAgain(s);
    StartedSo(s.now, d, 5, ASession(2, s.declared, s.now), NOTHING_KNOWN, s.With(SecondRun(s)), [1], 0, 2);
  }

  function ChargedTwice(s: Beginning, took: U64): Day
    requires s.Fits()
  {
    var t := Over(SecondRun(s), GoingWrong(took), s.now);
    Twice(s, t, Measuring(2), Noting(2, Tokens(0), Started([1])), [LineOf(t, s.now)])
  }

  lemma {:induction false} ItsFirstRunIsOut(s: Beginning, took: U64) returns (d: Day)
    requires s.Fits() && took <= s.declared
    ensures d == Twice(s, SecondRun(s), Working(1), Noting(2, Tokens(0), Started([1])), [])
    ensures Distinct(d.w.backlog.tasks) && |d.w.backlog.tasks| == s.n && d.w.backlog.tasks[0].id == 1
    ensures EndsThere(d.w, 0, 1, GoingWrong(took)) && d.w.backlog.tasks[0].RunsFor(2)
    ensures CountOf(Took(took)) == took <= CeilingOf(d.w.backlog.tasks[0])
    ensures d.w.backlog.tasks[0] == SecondRun(s)
    ensures var t := Over(SecondRun(s), GoingWrong(took), s.now);
            Day(d.w.Goes(0, Measuring(2)).Holding(d.w.backlog.tasks[0 := t]), d.lines + [LineOf(t, s.now)])
            == ChargedTwice(s, took)
  {
    d := Twice(s, SecondRun(s), Working(1), Noting(2, Tokens(0), Started([1])), []);
  }

  lemma {:induction false} ItsFirstRunEnds(s: Beginning, took: U64)
    requires s.Fits() && took <= s.declared
    ensures Reaches(Twice(s, SecondRun(s), Working(1), Noting(2, Tokens(0), Started([1])), []),
                    [EndsSo(0, GoingWrong(took), s.now)], ChargedTwice(s, took), 2, Tally(took, 0, 0, 0))
  {
    var d := ItsFirstRunIsOut(s, took);
    EndedWithin(s.now, d, 0, 0, GoingWrong(took), 2, 2);
  }

  lemma {:induction false} RetriedAndOpened(s: Beginning)
    requires s.Fits()
    ensures Reaches(AtFirst(s.policy),
                    FirstAtWork(s) + StoppingIt(4, 1, s.now) + [Commands(Requeue(1, false))]
                    + OpeningIt(5, s.declared, s.now),
                    Twice(s, WaitsAgain(s), Working(1), Deciding(ASession(2, s.declared, s.now), A_READING), []), 2,
                    Tally(0, 0, 0, 1))
  {
    var d := ItMayBeCut(s);
    TheFirstIsAtWork(s, 2);
    StoppedAndCut(s.now, d, 1, 2);
    ThenQuietly(AtFirst(s.policy), FirstAtWork(s), d, StoppingIt(4, 1, s.now), StillOut(s, FirstCut(s)), 2, QUIET,
                QUIET);
    ItIsRetriedEarly(s);
    QuietlyThen(AtFirst(s.policy), FirstAtWork(s) + StoppingIt(4, 1, s.now), StillOut(s, FirstCut(s)),
                [Commands(Requeue(1, false))], StillOut(s, WaitsAgain(s)), 2, QUIET, Tally(0, 0, 0, 1));
    AnotherIsOpened(s);
    ThenQuietly(AtFirst(s.policy), FirstAtWork(s) + StoppingIt(4, 1, s.now) + [Commands(Requeue(1, false))],
                StillOut(s, WaitsAgain(s)), OpeningIt(5, s.declared, s.now),
                Twice(s, WaitsAgain(s), Working(1), Deciding(ASession(2, s.declared, s.now), A_READING), []), 2,
                Tally(0, 0, 0, 1), QUIET);
  }

  lemma {:induction false} RecordedTwice(s: Beginning, took: U64)
    requires s.Fits() && took <= s.declared
    ensures Reaches(AtFirst(s.policy), AnEarlyRetry(s, took), ChargedTwice(s, took), 2, Tally(took, 0, 0, 1))
  {
    var steps := FirstAtWork(s) + StoppingIt(4, 1, s.now) + [Commands(Requeue(1, false))]
                 + OpeningIt(5, s.declared, s.now);
    var d := Twice(s, SecondRun(s), Working(1), Noting(2, Tokens(0), Started([1])), []);
    RetriedAndOpened(s);
    ItIsHandedAgain(s);
    ThenQuietly(AtFirst(s.policy), steps,
                Twice(s, WaitsAgain(s), Working(1), Deciding(ASession(2, s.declared, s.now), A_READING), []),
                [Decides(5, NOTHING_KNOWN, s.now)], d, 2, Tally(0, 0, 0, 1), QUIET);
    ItsFirstRunEnds(s, took);
    Onwards(AtFirst(s.policy), steps + [Decides(5, NOTHING_KNOWN, s.now)], d, [EndsSo(0, GoingWrong(took), s.now)],
            ChargedTwice(s, took), 2, Tally(0, 0, 0, 1), Tally(took, 0, 0, 0));
  }

  lemma {:induction false} OthersHoldNothing(w: World, session: SessionId, n: nat)
    requires 0 < n <= |w.backlog.tasks|
    requires forall k :: 0 < k < n ==> w.backlog.tasks[k].session != Some(session)
    ensures CommittedAmong(w, session, n) == HoldsAgainst(w, session, w.backlog.tasks[0])
  {
    if n > 1 {
      OthersHoldNothing(w, session, n - 1);
    } else {
      assert CommittedAmong(w, session, 0) == 0;
    }
  }

  lemma {:induction false} ChargedTwiceIsCommitted(s: Beginning, took: U64)
    requires s.Fits() && took <= s.declared
    ensures var v := ChargedTwice(s, took).w;
            && Committed(v, 2) == s.declared + took && Keeps(v.sessions, 2)
            && HeldAs(v.sessions, 2).budget == Of(s.declared)
  {
    var v := ChargedTwice(s, took).w;
    SecondIsFound(s);
    OnlyOneCarries(v.threads, 5, 1, 6);
    OthersHoldNothing(v, 2, s.n);
  }

  /** What the first run of a task retried too early reports is charged to the session that has the second,
      on top of all it declared, though it is within the run's ceiling, every decision was made in time, and
      whatever the policy. */
  lemma {:induction false} ARunRecordedTwiceOverCommits(s: Beginning, took: U64)
    requires s.Fits() && 0 < took <= s.declared
    ensures CanRun(AtFirst(s.policy).w, AnEarlyRetry(s, took))
    ensures KeepsOneLedger(AtFirst(s.policy).w, AnEarlyRetry(s, took), [])
    ensures AllDecideInTime(AtFirst(s.policy).w, AnEarlyRetry(s, took))
    ensures BeyondAll(AtFirst(s.policy).w, AnEarlyRetry(s, took), 2) == 0
    ensures var v := Ran(AtFirst(s.policy).w, AnEarlyRetry(s, took));
            && Keeps(v.sessions, 2) && HeldAs(v.sessions, 2).budget.Declared() == s.declared
            && Committed(v, 2) == s.declared + took
    ensures !AllRetryInTime(AtFirst(s.policy).w, AnEarlyRetry(s, took))
  {
    RecordedTwice(s, took);
    ChargedTwiceIsCommitted(s, took);
    WhatItLetPast(AtFirst(s.policy).w, AnEarlyRetry(s, took), 2);
    WhatWasLate(AtFirst(s.policy).w, AnEarlyRetry(s, took), 2);
    WhatWasEarly(AtFirst(s.policy).w, AnEarlyRetry(s, took), 2);
  }

  /** A retry leaves one run to each task exactly where no run of the task is left to carry. */
  lemma RetriesKeepOneRunEach(w: World, id: TaskId, afresh: bool)
    requires Sound(w.backlog) && OneRunEach(w) && Retriable(w.backlog.tasks, id)
    ensures OneRunEach(Next(w, Commands(Requeue(id, afresh)))) <==> Carried(w, id) == 0
  {
    var s, at := Commands(Requeue(id, afresh)), IndexOf(w.backlog.tasks, id);
    WhatAStepCarries(w, s, id);
    assert Next(w, s).backlog.tasks[at].state.Pending? && Next(w, s).backlog.tasks[at].id == id;
    if Carried(w, id) == 0 {
      StepsKeepOneRunEach(w, s);
    }
  }
}
