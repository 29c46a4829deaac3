/** A run of the daemon from its start, over empty stores and an empty ledger, to where the first of some tasks
    has been handed all a session declared and is at work. */
module OneOut {
  import opened Wrappers
  import opened Numbers
  import opened Spendings
  import opened Tasks
  import opened Graph
  import opened Closure
  import opened SessionValues
  import opened Decisions
  import opened Settling
  import opened Protocol
  import opened Precedents
  import opened FirstInLine
  import opened Steps
  import opened NoIdle
  import opened Commitments
  import opened BudgetBound
  import opened Reports
  import opened Episodes

  function Registering(n: nat): seq<Step> {
    seq(n, _ => REGISTERS)
  }

  function Unrun(n: nat): (ts: seq<Task>)
    requires n < U32_MAX
    ensures |ts| == n && forall k :: 0 <= k < n ==> ts[k] == ATask(k + 1)
  {
    seq(n, k requires 0 <= k < n => ATask(k + 1))
  }

  lemma {:induction false} OneMoreUnrun(n: nat)
    requires 0 < n < U32_MAX
    ensures Registering(n) == Registering(n - 1) + [REGISTERS] && Unrun(n) == Unrun(n - 1) + [ATask(n)]
    ensures Registering(0) == [] && Unrun(0) == []
  {
  }

  lemma {:induction false} SoManyWait(policy: Policy, n: nat, session: SessionId)
    requires n < U32_MAX
    ensures Reaches(AtFirst(policy), Registering(n), BeforeAnySession(policy, Unrun(n)), session, QUIET)
  {
    if n > 0 {
      SoManyWait(policy, n - 1, session);
      var steps, ts := Registering(n - 1), Unrun(n - 1);
      OneMoreWaits(policy, steps, ts, session);
      OneMoreUnrun(n);
    } else {
      NobodyWaits(policy, session);
      OneMoreUnrun(1);
    }
  }

  /** The policy, how many tasks there are, what the session declares, and when it all happens. */
  datatype Beginning = Beginning(policy: Policy, n: nat, declared: U64, now: U64) {
    predicate Fits() {
      0 < n < U32_MAX && declared > 0
    }

    /** The session, however much of it was noted as spent. */
    function Spending(spent: U64): Session {
      ASession(1, declared, now).(consumed := Tokens(spent))
    }

    function FirstRun(): Task {
      Handed(ATask(1), 1, declared, now, None)
    }

    /** The first task, whatever became of it, and the rest that wait. */
    function With(one: Task): seq<Task>
      requires Fits()
    {
      Unrun(n)[0 := one]
    }

    function Standing(ts: seq<Task>, spent: U64, threads: seq<Thread>): World
      requires Fits()
    {
      Scene(policy, ts, n + 1, [Spending(spent)], 2, threads)
    }
  }

  const QUEUED := [Thread(false, Queuing([]))]

  function Begun(s: Beginning): seq<Step> {
    Registering(s.n) + OpeningIt(3, s.declared, s.now)
  }

  function JustRead(s: Beginning): Day
    requires s.Fits()
  {
    Day(s.Standing(Unrun(s.n), 0, Threads(Idle, Idle, Idle, [Thread(false, Deciding(s.Spending(0), A_READING))])), [])
  }

  lemma {:induction false} OpenedIs(s: Beginning, d: Day)
    requires s.Fits() && d == BeforeAnySession(s.policy, Unrun(s.n))
    ensures RunningAt(d.w.sessions) == |d.w.sessions| && FreshSessions(d.w.nextSession, d.w.sessions)
    ensures |d.w.threads| == 3 && d.w.nextSession == 1
    ensures JustRead(s)
         == d.(w := d.w.(sessions := d.w.sessions + [ASession(1, s.declared, s.now)], nextSession := 2,
                         threads := d.w.threads
                           + [Thread(false, Deciding(ASession(1, s.declared, s.now), A_READING))]))
  {
    assert s.Spending(0) == ASession(1, s.declared, s.now);
  }

  lemma {:induction false} ASessionIsOpened(s: Beginning, session: SessionId)
    requires s.Fits()
    ensures Reaches(AtFirst(s.policy), Begun(s), JustRead(s), session, QUIET)
  {
    var d := BeforeAnySession(s.policy, Unrun(s.n));
    SoManyWait(s.policy, s.n, session);
    OpenedIs(s, d);
    OpenedAndRead(s.now, d, s.declared, session);
    ThenQuietly(AtFirst(s.policy), Registering(s.n), d, OpeningIt(3, s.declared, s.now), JustRead(s), session, QUIET,
                QUIET);
  }

  lemma {:induction false} NothingCounted(ts: seq<Task>, session: SessionId, n: nat)
    requires n <= |ts| && forall k :: 0 <= k < n ==> CountOf(ts[k].consumed) == 0 || ts[k].session != Some(session)
    ensures ExactAmong(ts, session, n) == 0
  {
    if n > 0 {
      NothingCounted(ts, session, n - 1);
    }
  }

  lemma {:induction false} TheFirstGetsItAll(s: Beginning, session: SessionId)
    requires s.Fits()
    ensures HandsOut(s.now, Unrun(s.n), s.Spending(0), NOTHING_KNOWN, s.policy, session, s.With(s.FirstRun()), [1], 0)
    ensures Has(s.With(s.FirstRun()), 1)
    ensures s.With(s.FirstRun())[IndexOf(s.With(s.FirstRun()), 1)].state.Running?
  {
    NothingCounted(Unrun(s.n), 1, s.n);
    GetsAllThereIs(s.now, Unrun(s.n), s.Spending(0), s.policy, 0, s.declared);
    OneIsHandedAll(s.now, Unrun(s.n), s.With(s.FirstRun()), s.Spending(0), NOTHING_KNOWN, s.policy, 0, s.declared, 0,
                   session);
  }

  lemma {:induction false} NotedAs(s: Beginning, was: U64, spent: U64)
    requires was <= spent
    ensures Note([s.Spending(was)], 1, Tokens(spent), s.now) == [s.Spending(spent)]
  {
    NotedOnly(s.Spending(was), Tokens(spent), s.now);
  }

  /** Whoever opened it hands the first task all there is, and the first hand takes it up. */
  function FirstOut(s: Beginning, one: Task, at: Phase): Day
    requires s.Fits()
  {
    Day(s.Standing(s.With(one), 0, Threads(at, Idle, Idle, QUEUED)), [])
  }

  lemma {:induction false} AllMayBeHanded(s: Beginning) returns (d: Day)
    requires s.Fits()
    ensures d == JustRead(s) && d.w.At(3, Deciding(s.Spending(0), A_READING)) && d.w.policy == s.policy
    ensures d.w.atOnce == 3 && d.w.backlog.tasks == Unrun(s.n)
    ensures Runs(d.w.sessions, 1) && d.w.queue == [] && |d.w.threads| == 4 && d.w.threads[0] == Thread(true, Idle)
    ensures d.(w := d.w.Goes(3, Queuing([])).Goes(0, Preparing(1)).Holding(s.With(s.FirstRun()))
             .(sessions := Note(d.w.sessions, 1, Tokens(0), s.now)))
         == FirstOut(s, s.FirstRun(), Preparing(1))
    ensures ToldBy(NOTHING_KNOWN, s.policy.sizing, s.Spending(0).budget.usage, d.lines)
  {
    d := JustRead(s);
    NotedAs(s, 0, 0);
    AnEmptyLedgerSaysNothing(s.policy.sizing, s.Spending(0).budget.usage);
  }

  lemma {:induction false} TheFirstIsHandedAll(s: Beginning, session: SessionId)
    requires s.Fits()
    ensures Reaches(JustRead(s), HandingAll(3, 0, NOTHING_KNOWN, s.now),
                    FirstOut(s, s.FirstRun(), Preparing(1)), session, QUIET)
  {
    var d := AllMayBeHanded(s);
    TheFirstGetsItAll(s, session);
    HandedAndTakenUp(s.now, d, 3, 0, s.Spending(0), NOTHING_KNOWN, s.With(s.FirstRun()), 1, 0, session);
  }

  lemma {:induction false} ItMaySetOut(s: Beginning) returns (d: Day)
    requires s.Fits()
    ensures d == FirstOut(s, s.FirstRun(), Preparing(1)) && d.w.At(0, Preparing(1)) && Distinct(d.w.backlog.tasks)
    ensures |d.w.backlog.tasks| == s.n && d.w.backlog.tasks[0].id == 1
    ensures d.(w := d.w.Goes(0, Working(1)).Holding(d.w.backlog.tasks[0 := AtWork(d.w.backlog.tasks[0])]))
         == FirstOut(s, AtWork(s.FirstRun()), Working(1))
  {
    d := FirstOut(s, s.FirstRun(), Preparing(1));
  }

  lemma {:induction false} ItSetsOut(s: Beginning, session: SessionId)
    requires s.Fits()
    ensures Reaches(FirstOut(s, s.FirstRun(), Preparing(1)), [Prepares(0, "")],
                    FirstOut(s, AtWork(s.FirstRun()), Working(1)), session, QUIET)
  {
    var d := ItMaySetOut(s);
    Prepared(d, 0, 0, session);
  }

  /** From the start to where the first task is at work. */
  function FirstAtWork(s: Beginning): seq<Step> {
    Begun(s) + HandingAll(3, 0, NOTHING_KNOWN, s.now) + [Prepares(0, "")]
  }

  lemma {:induction false} TheFirstIsAtWork(s: Beginning, session: SessionId)
    requires s.Fits()
    ensures Reaches(AtFirst(s.policy), FirstAtWork(s), FirstOut(s, AtWork(s.FirstRun()), Working(1)), session, QUIET)
  {
    ASessionIsOpened(s, session);
    TheFirstIsHandedAll(s, session);
    ThenQuietly(AtFirst(s.policy), Begun(s), JustRead(s), HandingAll(3, 0, NOTHING_KNOWN, s.now),
                FirstOut(s, s.FirstRun(), Preparing(1)), session, QUIET, QUIET);
    ItSetsOut(s, session);
    ThenQuietly(AtFirst(s.policy), Begun(s) + HandingAll(3, 0, NOTHING_KNOWN, s.now),
                FirstOut(s, s.FirstRun(), Preparing(1)), [Prepares(0, "")],
                FirstOut(s, AtWork(s.FirstRun()), Working(1)), session, QUIET, QUIET);
  }
}
