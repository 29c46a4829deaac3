/** Runs of the daemon written out, a stretch at a time: what the stretches every run is made of come to,
    one after another, over the ledger they are decided by. */
module Episodes {
  import opened Wrappers
  import opened Numbers
  import opened Spendings
  import opened Tasks
  import opened Graph
  import opened Closure
  import opened SessionValues
  import Sizings
  import opened Decisions
  import opened Settling
  import opened Protocol
  import opened Precedents
  import opened FirstInLine
  import opened Steps
  import opened NoIdle
  import opened Commitments
  import opened BudgetBound
  import opened Reports

  // ---------------------------------------------------------------- one stretch after another

  /** What a stretch told a session, what it let past the session's budget, and how many of its decisions
      came late and of its retries early. */
  datatype Tally = Tally(told: nat, beyond: nat, late: nat, early: nat)

  const QUIET := Tally(0, 0, 0, 0)

  function TallyOf(w: World, s: Step, session: SessionId): Tally
    requires Enabled(w, s)
  {
    Tally(ReportedBy(w, s, session), Beyond(w, s, session), if DecidesInTime(w, s) then 0 else 1,
          if RetriesInTime(w, s) then 0 else 1)
  }

  function Plus(one: Tally, another: Tally): Tally {
    Tally(one.told + another.told, one.beyond + another.beyond, one.late + another.late, one.early + another.early)
  }

  function Tallied(w: World, steps: seq<Step>, session: SessionId): Tally
    requires CanRun(w, steps)
    decreases steps
  {
    if steps == [] then QUIET
    else Plus(TallyOf(w, steps[0], session), Tallied(Next(w, steps[0]), steps[1..], session))
  }

  lemma {:induction false} WhatItTold(w: World, steps: seq<Step>, session: SessionId)
    requires CanRun(w, steps)
    ensures Tallied(w, steps, session).told == ReportedOver(w, steps, session)
    decreases steps
  {
    if steps != [] {
      WhatItTold(Next(w, steps[0]), steps[1..], session);
    }
  }

  lemma {:induction false} WhatItLetPast(w: World, steps: seq<Step>, session: SessionId)
    requires CanRun(w, steps)
    ensures Tallied(w, steps, session).beyond == BeyondAll(w, steps, session)
    decreases steps
  {
    if steps != [] {
      WhatItLetPast(Next(w, steps[0]), steps[1..], session);
    }
  }

  lemma {:induction false} WhatWasLate(w: World, steps: seq<Step>, session: SessionId)
    requires CanRun(w, steps)
    ensures Tallied(w, steps, session).late == 0 <==> AllDecideInTime(w, steps)
    decreases steps
  {
    if steps != [] {
      WhatWasLate(Next(w, steps[0]), steps[1..], session);
    }
  }

  lemma {:induction false} WhatWasEarly(w: World, steps: seq<Step>, session: SessionId)
    requires CanRun(w, steps)
    ensures Tallied(w, steps, session).early == 0 <==> AllRetryInTime(w, steps)
    decreases steps
  {
    if steps != [] {
      WhatWasEarly(Next(w, steps[0]), steps[1..], session);
    }
  }

  /** The daemon as it stands, and the ledger it decides by. */
  datatype Day = Day(w: World, lines: seq<Line>)

  /** The stretch can be taken, every decision of it made by the ledger, and leaves the day so. */
  ghost predicate Reaches(d: Day, steps: seq<Step>, e: Day, session: SessionId, tally: Tally) {
    && CanRun(d.w, steps) && Protocol.Ran(d.w, steps) == e.w && Tallied(d.w, steps, session) == tally
    && KeepsOneLedger(d.w, steps, d.lines) && LedgerAfter(d.w, steps, d.lines) == e.lines
  }

  lemma {:induction false} Nowhere(d: Day, session: SessionId)
    ensures Reaches(d, [], d, session, QUIET)
  {
  }

  /** One step of it, and the ledger it is taken by. */
  ghost predicate OneStep(d: Day, s: Step, e: Day, session: SessionId, first: Tally) {
    && Enabled(d.w, s) && e == Day(Next(d.w, s), LinesAfter(d.w, s, d.lines)) && first == TallyOf(d.w, s, session)
    && DecidesByTheLedger(d.w, s, d.lines)
  }

  lemma {:induction false} FirstAndThen(d: Day, steps: seq<Step>, e: Day, f: Day, session: SessionId, first: Tally,
                                        then': Tally)
    requires steps != [] && OneStep(d, steps[0], e, session, first)
    requires Reaches(e, steps[1..], f, session, then')
    ensures Reaches(d, steps, f, session, Plus(first, then'))
  {
  }

  lemma {:induction false} AfterTheFirst(d: Day, steps: seq<Step>, f: Day, session: SessionId, tally: Tally)
    returns (first: Tally, e: Day, then': Tally)
    requires steps != [] && Reaches(d, steps, f, session, tally)
    ensures OneStep(d, steps[0], e, session, first)
    ensures Reaches(e, steps[1..], f, session, then') && tally == Plus(first, then')
  {
    first, e := TallyOf(d.w, steps[0], session), Day(Next(d.w, steps[0]), LinesAfter(d.w, steps[0], d.lines));
    then' := Tallied(e.w, steps[1..], session);
  }

  lemma {:induction false} FromNowhere(d: Day, e: Day, session: SessionId, tally: Tally)
    requires Reaches(d, [], e, session, tally)
    ensures e == d && tally == QUIET
  {
  }

  lemma {:induction false} Appended(one: seq<Step>, another: seq<Step>) returns (both: seq<Step>)
    ensures both == one + another && (one == [] ==> both == another)
    ensures one != [] ==> both != [] && both[0] == one[0] && both[1..] == one[1..] + another
  {
    both := one + another;
  }

  lemma {:induction false} QuietAddsNothing(tally: Tally, quiet: Tally)
    requires quiet.told == 0 && quiet.beyond == 0 && quiet.late == 0 && quiet.early == 0
    ensures Plus(tally, quiet) == tally && Plus(quiet, tally) == tally
  {
  }

  lemma {:induction false} PlusInTurn(first: Tally, rest: Tally, then': Tally)
    ensures Plus(Plus(first, rest), then') == Plus(first, Plus(rest, then'))
  {
  }

  lemma {:induction false} OneStepOnwards(d: Day, one: seq<Step>, e: Day, another: seq<Step>, f: Day,
                                          session: SessionId, first: Tally, rest: Tally, then': Tally)
    requires one != [] && OneStep(d, one[0], e, session, first)
    requires Reaches(e, one[1..] + another, f, session, Plus(rest, then'))
    ensures Reaches(d, one + another, f, session, Plus(Plus(first, rest), then'))
  {
    var both := Appended(one, another);
    PlusInTurn(first, rest, then');
    FirstAndThen(d, both, e, f, session, first, Plus(rest, then'));
  }

  lemma {:induction false} Onwards(d: Day, one: seq<Step>, e: Day, another: seq<Step>, f: Day, session: SessionId,
                                   first: Tally, then': Tally)
    requires Reaches(d, one, e, session, first) && Reaches(e, another, f, session, then')
    ensures Reaches(d, one + another, f, session, Plus(first, then'))
    decreases one
  {
    if one == [] {
      var both := Appended(one, another);
      FromNowhere(d, e, session, first);
      QuietAddsNothing(then', first);
    } else {
      var t, x, rest := AfterTheFirst(d, one, e, session, first);
      Onwards(x, one[1..], e, another, f, session, rest, then');
      OneStepOnwards(d, one, x, another, f, session, t, rest, then');
    }
  }

  lemma {:induction false} ThenQuietly(d: Day, one: seq<Step>, e: Day, another: seq<Step>, f: Day, session: SessionId,
                                       tally: Tally, quiet: Tally)
    requires Reaches(d, one, e, session, tally) && Reaches(e, another, f, session, quiet)
    requires quiet.told == 0 && quiet.beyond == 0 && quiet.late == 0 && quiet.early == 0
    ensures Reaches(d, one + another, f, session, tally)
  {
    Onwards(d, one, e, another, f, session, tally, quiet);
    QuietAddsNothing(tally, quiet);
  }

  lemma {:induction false} QuietlyThen(d: Day, one: seq<Step>, e: Day, another: seq<Step>, f: Day, session: SessionId,
                                       quiet: Tally, tally: Tally)
    requires Reaches(d, one, e, session, quiet) && Reaches(e, another, f, session, tally)
    requires quiet.told == 0 && quiet.beyond == 0 && quiet.late == 0 && quiet.early == 0
    ensures Reaches(d, one + another, f, session, tally)
  {
    Onwards(d, one, e, another, f, session, quiet, tally);
    QuietAddsNothing(tally, quiet);
  }

  lemma {:induction false} AStep(d: Day, s: Step, e: Day, session: SessionId)
    requires Enabled(d.w, s) && e == Day(Next(d.w, s), LinesAfter(d.w, s, d.lines))
    requires DecidesByTheLedger(d.w, s, d.lines)
    ensures Reaches(d, [s], e, session, TallyOf(d.w, s, session))
  {
    Nowhere(e, session);
    FirstAndThen(d, [s], e, e, session, TallyOf(d.w, s, session), QUIET);
  }

  /** A step that ends no run, decides nothing and retries nothing. */
  lemma {:induction false} AQuietStep(d: Day, s: Step, v: World, session: SessionId)
    requires Enabled(d.w, s) && v == Next(d.w, s)
    requires !s.Ends? && !s.TurnsAway? && !s.Decides? && !(s.Commands? && s.command.Requeue?)
    ensures Reaches(d, [s], d.(w := v), session, QUIET)
  {
    AStep(d, s, d.(w := v), session);
  }

  // ---------------------------------------------------------------- sessions opened, and read

  const A_READING := Some(Measured(Tokens(0), None))

  /** So many tokens, for a minute. */
  function Of(declared: U64): Budget {
    Budget(InTokens(declared), 60)
  }

  function ATask(id: TaskId): Task {
    Registered(id, "", "", None, None, None, None, "")
  }

  const REGISTERS := Commands(Command.Register("", "", None, None, None, None, ""))

  lemma {:induction false} Registering(d: Day, session: SessionId)
    requires d.w.backlog.nextId < U32_MAX
    ensures Reaches(d, [REGISTERS],
                    d.(w := d.w.(backlog := Shelf(d.w.backlog.nextId + 1,
                                                  d.w.backlog.tasks + [ATask(d.w.backlog.nextId)]))), session, QUIET)
  {
    AQuietStep(d, REGISTERS, Next(d.w, REGISTERS), session);
  }

  /** Whoever owes a session a decision measures it, and reads it. */
  function ReadingIt(i: nat): seq<Step> {
    [Measures(i)] + [Reads(i)]
  }

  /** A session of so many tokens is opened, and read by whoever opened it. */
  function OpeningIt(n: nat, declared: U64, now: U64): seq<Step> {
    [Opens(Of(declared), None, 0, now)] + ReadingIt(n)
  }

  function ASession(id: SessionId, declared: U64, now: U64): Session {
    Opened(id, SessionValues.Opening(Of(declared), None, now, None))
  }

  lemma {:induction false} JustOpened(now: U64, d: Day, declared: U64, v: World, session: SessionId)
    requires RunningAt(d.w.sessions) == |d.w.sessions| && d.w.nextSession < U32_MAX
    requires v == d.w.(sessions := d.w.sessions + [ASession(d.w.nextSession, declared, now)],
                       nextSession := d.w.nextSession + 1,
                       threads := d.w.threads + [Thread(false, Measuring(d.w.nextSession))])
    ensures Reaches(d, [Opens(Of(declared), None, 0, now)], d.(w := v), session, QUIET)
  {
    AQuietStep(d, Opens(Of(declared), None, 0, now), v, session);
  }

  lemma {:induction false} GoesTwice(w: World, i: nat, one: Phase, another: Phase)
    requires i < |w.threads|
    ensures w.Goes(i, one).Goes(i, another) == w.Goes(i, another)
  {
  }

  /** A session that runs is read before a decision. */
  lemma {:induction false} MeasuredAndRead(d: Day, i: nat, held: Session, session: SessionId)
    requires d.w.At(i, Measuring(held.id)) && Runs(d.w.sessions, held.id) && HeldAs(d.w.sessions, held.id) == held
    requires held.budget.usage.InTokens?
    ensures Reaches(d, ReadingIt(i), d.(w := d.w.Goes(i, Deciding(held, A_READING))), session, QUIET)
  {
    var e := d.(w := d.w.Goes(i, Deferring(held.id, A_READING)));
    AQuietStep(d, Measures(i), e.w, session);
    GoesTwice(d.w, i, Deferring(held.id, A_READING), Deciding(held, A_READING));
    AQuietStep(e, Reads(i), d.w.Goes(i, Deciding(held, A_READING)), session);
    ThenQuietly(d, [Measures(i)], e, [Reads(i)], d.(w := d.w.Goes(i, Deciding(held, A_READING))), session, QUIET,
                QUIET);
  }

  lemma {:induction false} LastMovesOn(threads: seq<Thread>, t: Thread, at: Phase)
    ensures (threads + [t])[|threads| := (threads + [t])[|threads|].(at := at)] == threads + [t.(at := at)]
  {
  }

  lemma {:induction false} LastIsFound(ss: seq<Session>, s: Session)
    requires forall j :: 0 <= j < |ss| ==> ss[j].id != s.id
    ensures IndexOfSession(ss + [s], s.id) == |ss| && HeldAs(ss + [s], s.id) == s
  {
    assert (ss + [s])[|ss|] == s;
    assert forall j :: 0 <= j < |ss| ==> (ss + [s])[j] == ss[j];
  }

  /** A session is opened while none is running, and about to be decided for. */
  lemma {:induction false} OpenedAndRead(now: U64, d: Day, declared: U64, session: SessionId)
    requires RunningAt(d.w.sessions) == |d.w.sessions| && d.w.nextSession < U32_MAX
    requires FreshSessions(d.w.nextSession, d.w.sessions)
    ensures var s := ASession(d.w.nextSession, declared, now);
            Reaches(d, OpeningIt(|d.w.threads|, declared, now),
                    d.(w := d.w.(sessions := d.w.sessions + [s], nextSession := d.w.nextSession + 1,
                                 threads := d.w.threads + [Thread(false, Deciding(s, A_READING))])), session, QUIET)
  {
    var n, s := |d.w.threads|, ASession(d.w.nextSession, declared, now);
    var v := d.w.(sessions := d.w.sessions + [s], nextSession := d.w.nextSession + 1,
                  threads := d.w.threads + [Thread(false, Measuring(s.id))]);
    LastIsFound(d.w.sessions, s);
    JustOpened(now, d, declared, v, session);
    MeasuredAndRead(d.(w := v), n, s, session);
    LastMovesOn(d.w.threads, Thread(false, Measuring(s.id)), Deciding(s, A_READING));
    ThenQuietly(d, [Opens(Of(declared), None, 0, now)], d.(w := v), ReadingIt(n),
                d.(w := v.Goes(n, Deciding(s, A_READING))), session, QUIET, QUIET);
  }

  // ---------------------------------------------------------------- decisions, and what becomes of them

  /** A decision is made by the ledger, over the backlog as it stands by then. */
  lemma {:induction false} Decided(now: U64, d: Day, i: nat, held: Session, before: Figures, us: seq<Task>,
                                   verdict: Verdict, session: SessionId)
    requires d.w.At(i, Deciding(held, A_READING)) && ToldBy(before, d.w.policy.sizing, held.budget.usage, d.lines)
    requires Settle(d.w.backlog.tasks, held, A_READING, before, d.w.policy, now, d.w.atOnce) == (us, verdict)
    requires BroughtAmong(d.w.backlog.tasks, us, session, |d.w.backlog.tasks|) == 0
    ensures Reaches(d, [Decides(i, before, now)],
                    d.(w := d.w.Goes(i, Noting(held.id, SpentBy(d.w.backlog.tasks, held, A_READING), verdict))
                            .Holding(us)), session,
                    Tally(0, 0, if Runs(d.w.sessions, held.id) then 0 else 1, 0))
  {
    var s := Decides(i, before, now);
    var v := d.w.Goes(i, Noting(held.id, SpentBy(d.w.backlog.tasks, held, A_READING), verdict)).Holding(us);
    ADecision(d.w, s, us, verdict, v);
    AStep(d, s, d.(w := v), session);
    assert TallyOf(d.w, s, session) == Tally(0, 0, if Runs(d.w.sessions, held.id) then 0 else 1, 0);
  }

  lemma {:induction false} ADecision(w: World, s: Step, us: seq<Task>, verdict: Verdict, v: World)
    requires s.Decides? && s.i < |w.threads| && w.threads[s.i].at.Deciding?
    requires var at := w.threads[s.i].at;
             && Settle(w.backlog.tasks, at.held, at.read, s.before, w.policy, s.now, w.atOnce) == (us, verdict)
             && v == w.Goes(s.i, Noting(at.held.id, SpentBy(w.backlog.tasks, at.held, at.read), verdict)).Holding(us)
    ensures Enabled(w, s) && Next(w, s) == v
  {
  }

  lemma {:induction false} Noted(now: U64, d: Day, i: nat, id: SessionId, spent: Spending, tasks: seq<TaskId>,
                                 session: SessionId)
    requires d.w.At(i, Noting(id, spent, Started(tasks)))
    ensures Reaches(d, [Notes(i, now)],
                    d.(w := d.w.Goes(i, Queuing(tasks)).(sessions := Note(d.w.sessions, id, spent, now))), session,
                    QUIET)
  {
    AQuietStep(d, Notes(i, now), d.w.Goes(i, Queuing(tasks)).(sessions := Note(d.w.sessions, id, spent, now)), session);
  }

  /** The next task one thread has to queue is taken up by another. */
  function Handing(i: nat, j: nat): seq<Step> {
    [Queues(i)] + [Takes(j)] + [Looks(j)]
  }

  /** The first of the tasks that were handed over goes through the queue into an idle worker's hands. */
  lemma {:induction false} TakenUp(d: Day, i: nat, j: nat, tasks: seq<TaskId>, session: SessionId)
    requires d.w.At(i, Queuing(tasks)) && tasks != [] && d.w.queue == [] && j < |d.w.threads|
    requires d.w.threads[j] == Thread(true, Idle)
    requires Has(d.w.backlog.tasks, tasks[0]) && d.w.backlog.tasks[IndexOf(d.w.backlog.tasks, tasks[0])].state.Running?
    ensures Reaches(d, Handing(i, j), d.(w := d.w.Goes(i, Queuing(tasks[1..])).Goes(j, Preparing(tasks[0]))), session,
                    QUIET)
  {
    var u := ThroughTheQueue(d, i, j, tasks, session);
    LookedFor(d.(w := u), j, tasks[0], session);
    ThenQuietly(d, [Queues(i)] + [Takes(j)], d.(w := u), [Looks(j)], d.(w := u.Goes(j, Preparing(tasks[0]))), session,
                QUIET, QUIET);
  }

  lemma {:induction false} ThroughTheQueue(d: Day, i: nat, j: nat, tasks: seq<TaskId>, session: SessionId)
    returns (u: World)
    requires d.w.At(i, Queuing(tasks)) && tasks != [] && d.w.queue == [] && j < |d.w.threads|
    requires d.w.threads[j] == Thread(true, Idle)
    ensures Reaches(d, [Queues(i)] + [Takes(j)], d.(w := u), session, QUIET)
    ensures u == d.w.Goes(i, Queuing(tasks[1..])).Goes(j, Looking(tasks[0]))
    ensures u.Goes(j, Preparing(tasks[0])) == d.w.Goes(i, Queuing(tasks[1..])).Goes(j, Preparing(tasks[0]))
  {
    var v := d.w.Goes(i, Queuing(tasks[1..])).(queue := [tasks[0]]);
    u := v.Goes(j, Looking(tasks[0])).(queue := []);
    QueuesOne(d.w, i, tasks);
    AQuietStep(d, Queues(i), v, session);
    StillIdle(d.w, i, j, tasks);
    TakenOffTheQueue(d.(w := v), j, tasks[0], u, session);
    PastTheQueue(d.w, i, j, tasks);
    ThenQuietly(d, [Queues(i)], d.(w := v), [Takes(j)], d.(w := u), session, QUIET, QUIET);
  }

  lemma {:induction false} StillIdle(w: World, i: nat, j: nat, tasks: seq<TaskId>)
    requires w.At(i, Queuing(tasks)) && tasks != [] && j < |w.threads| && w.threads[j] == Thread(true, Idle)
    ensures w.Goes(i, Queuing(tasks[1..])).(queue := [tasks[0]]).threads[j] == Thread(true, Idle)
  {
  }

  lemma {:induction false} PastTheQueue(w: World, i: nat, j: nat, tasks: seq<TaskId>)
    requires w.At(i, Queuing(tasks)) && tasks != [] && w.queue == [] && j < |w.threads|
    requires w.threads[j] == Thread(true, Idle)
    ensures var u := w.Goes(i, Queuing(tasks[1..])).(queue := [tasks[0]]).Goes(j, Looking(tasks[0])).(queue := []);
            && u == w.Goes(i, Queuing(tasks[1..])).Goes(j, Looking(tasks[0]))
            && u.Goes(j, Preparing(tasks[0])) == w.Goes(i, Queuing(tasks[1..])).Goes(j, Preparing(tasks[0]))
  {
  }

  lemma {:induction false} QueuesOne(w: World, i: nat, tasks: seq<TaskId>)
    requires w.At(i, Queuing(tasks)) && tasks != [] && w.queue == []
    ensures Enabled(w, Queues(i)) && Next(w, Queues(i)) == w.Goes(i, Queuing(tasks[1..])).(queue := [tasks[0]])
  {
    assert w.queue + [tasks[0]] == [tasks[0]];
  }

  lemma {:induction false} TakenOffTheQueue(d: Day, j: nat, id: TaskId, v: World, session: SessionId)
    requires j < |d.w.threads| && d.w.threads[j] == Thread(true, Idle) && d.w.queue == [id]
    requires v == d.w.Goes(j, Looking(id)).(queue := [])
    ensures Reaches(d, [Takes(j)], d.(w := v), session, QUIET)
  {
    AQuietStep(d, Takes(j), v, session);
  }

  lemma {:induction false} LookedFor(d: Day, j: nat, id: TaskId, session: SessionId)
    requires d.w.At(j, Looking(id)) && Has(d.w.backlog.tasks, id)
    requires d.w.backlog.tasks[IndexOf(d.w.backlog.tasks, id)].state.Running?
    ensures Reaches(d, [Looks(j)], d.(w := d.w.Goes(j, Preparing(id))), session, QUIET)
  {
    AQuietStep(d, Looks(j), d.w.Goes(j, Preparing(id)), session);
  }

  // ---------------------------------------------------------------- how runs end

  /** How a run ends, with no conversation kept. */
  datatype Ending = Ending(state: TaskState, reason: Option<string>, consumed: Observation)

  function Took(tokens: U64): Observation {
    Spent(Consumption(tokens, 0, 0, 0, 0))
  }

  /** It did the work. */
  function Finishing(tokens: U64): Ending {
    Ending(TaskState.Completed, None, Took(tokens))
  }

  /** It went wrong on its own, having spent so much. */
  function GoingWrong(tokens: U64): Ending {
    Ending(TaskState.Error, Some(""), Took(tokens))
  }

  /** It had nowhere to work. */
  const GETTING_NOWHERE := Ending(TaskState.Error, Some(""), NotYet)

  function Over(t: Task, how: Ending, now: U64): Task {
    t.(state := how.state, reason := how.reason, endedAt := Some(now), consumed := how.consumed, conversation := None)
  }

  function EndsSo(j: nat, how: Ending, now: U64): Step {
    Ends(j, how.state, how.reason, None, how.consumed, now)
  }

  predicate EndsThere(w: World, j: nat, id: TaskId, how: Ending) {
    && j < |w.threads| && (w.threads[j].at == Preparing(id) || w.threads[j].at == Working(id))
    && EndsAs(w.threads[j].at, how.state, how.reason, None, how.consumed)
  }

  lemma {:induction false} EndedIs(now: U64, ts: seq<Task>, at: nat, how: Ending)
    requires Distinct(ts) && at < |ts| && ts[at].state.Running?
    ensures Ended(ts, ts[at].id, how.state, how.reason, None, how.consumed, now) == ts[at := Over(ts[at], how, now)]
    ensures IndexOf(ts, ts[at].id) == at && IndexOf(ts[at := Over(ts[at], how, now)], ts[at].id) == at
  {
    var recorded := Record(Finish(ts, ts[at].id, how.state, how.reason, now), ts[at].id, how.consumed);
    RecordedIs(now, ts, at, how);
    FoundAt(ts, ts, at);
    FoundAt(ts, recorded, at);
    FoundAt(ts, ts[at := Over(ts[at], how, now)], at);
  }

  lemma {:induction false} RecordedIs(now: U64, ts: seq<Task>, at: nat, how: Ending)
    requires Distinct(ts) && at < |ts| && ts[at].state.Running?
    ensures Record(Finish(ts, ts[at].id, how.state, how.reason, now), ts[at].id, how.consumed)
         == ts[at := Over(ts[at], how, now).(conversation := ts[at].conversation)]
  {
    var finished := Finish(ts, ts[at].id, how.state, how.reason, now);
    assert forall k :: 0 <= k < |ts| && k != at ==> finished[k] == ts[k] && ts[k].id != ts[at].id;
  }

  lemma {:induction false} FoundAt(ts: seq<Task>, us: seq<Task>, at: nat)
    requires Distinct(ts) && at < |ts| == |us| && us[at].id == ts[at].id
    requires forall k :: 0 <= k < at ==> us[k].id == ts[k].id
    ensures IndexOf(us, ts[at].id) == at
  {
  }

  /** A run ends within its ceiling, and its worker is to measure the session it was for. */
  lemma {:induction false} EndedWithin(now: U64, d: Day, j: nat, at: nat, how: Ending, id: SessionId,
                                       session: SessionId)
    requires Distinct(d.w.backlog.tasks) && at < |d.w.backlog.tasks|
    requires EndsThere(d.w, j, d.w.backlog.tasks[at].id, how)
    requires d.w.backlog.tasks[at].RunsFor(id) && CountOf(how.consumed) <= CeilingOf(d.w.backlog.tasks[at])
    ensures var t := Over(d.w.backlog.tasks[at], how, now);
            Reaches(d, [EndsSo(j, how, now)],
                    Day(d.w.Goes(j, Measuring(id)).Holding(d.w.backlog.tasks[at := t]), d.lines + [LineOf(t, now)]),
                    session, Tally(if session == id then CountOf(how.consumed) else 0, 0, 0, 0))
  {
    var s, t := EndsSo(j, how, now), Over(d.w.backlog.tasks[at], how, now);
    EndedIs(now, d.w.backlog.tasks, at, how);
    AStep(d, s, Day(Next(d.w, s), d.lines + [LineOf(t, now)]), session);
  }

  /** A run ends, and its worker reads the session to decide what comes next. */
  lemma {:induction false} EndedAndRead(now: U64, d: Day, j: nat, at: nat, how: Ending, held: Session,
                                        session: SessionId)
    requires Distinct(d.w.backlog.tasks) && at < |d.w.backlog.tasks|
    requires EndsThere(d.w, j, d.w.backlog.tasks[at].id, how)
    requires d.w.backlog.tasks[at].RunsFor(held.id) && CountOf(how.consumed) <= CeilingOf(d.w.backlog.tasks[at])
    requires Runs(d.w.sessions, held.id) && HeldAs(d.w.sessions, held.id) == held && held.budget.usage.InTokens?
    ensures var t := Over(d.w.backlog.tasks[at], how, now);
            Reaches(d, [EndsSo(j, how, now)] + ReadingIt(j),
                    Day(d.w.Goes(j, Deciding(held, A_READING)).Holding(d.w.backlog.tasks[at := t]),
                        d.lines + [LineOf(t, now)]),
                    session, Tally(if session == held.id then CountOf(how.consumed) else 0, 0, 0, 0))
  {
    var t := Over(d.w.backlog.tasks[at], how, now);
    var e := Day(d.w.Goes(j, Measuring(held.id)).Holding(d.w.backlog.tasks[at := t]), d.lines + [LineOf(t, now)]);
    EndedWithin(now, d, j, at, how, held.id, session);
    MeasuredAndRead(e, j, held, session);
    GoesTwice(d.w, j, Measuring(held.id), Deciding(held, A_READING));
    ThenQuietly(d, [EndsSo(j, how, now)], e, ReadingIt(j), e.(w := e.w.Goes(j, Deciding(held, A_READING))), session,
                Tally(if session == held.id then CountOf(how.consumed) else 0, 0, 0, 0), QUIET);
  }

  lemma {:induction false} PlacedIs(ts: seq<Task>, at: nat)
    requires Distinct(ts) && at < |ts|
    ensures Placed(ts, ts[at].id, "") == ts[at := ts[at].(worktree := Some(""))]
  {
    assert forall k :: 0 <= k < |ts| && k != at ==> ts[k].id != ts[at].id;
  }

  function AtWork(t: Task): Task {
    t.(worktree := Some(""))
  }

  lemma {:induction false} Prepared(d: Day, j: nat, at: nat, session: SessionId)
    requires Distinct(d.w.backlog.tasks) && at < |d.w.backlog.tasks| && d.w.At(j, Preparing(d.w.backlog.tasks[at].id))
    ensures Reaches(d, [Prepares(j, "")],
                    d.(w := d.w.Goes(j, Working(d.w.backlog.tasks[at].id))
                            .Holding(d.w.backlog.tasks[at := AtWork(d.w.backlog.tasks[at])])), session, QUIET)
  {
    PlacedIs(d.w.backlog.tasks, at);
    AQuietStep(d, Prepares(j, ""), Next(d.w, Prepares(j, "")), session);
  }

  /** A task the vendor turned away, having consumed so much. */
  function Refused(t: Task, consumed: Observation, now: U64): Task {
    t.(consumed := consumed, state := TaskState.Pending, reason := None, endedAt := Some(now))
  }

  lemma {:induction false} RefusedIs(ts: seq<Task>, at: nat, consumed: Observation, now: U64)
    requires Distinct(ts) && at < |ts|
    ensures TurnedAway(ts, ts[at].id, consumed, now) == ts[at := Refused(ts[at], consumed, now)]
    ensures IndexOf(ts, ts[at].id) == at && IndexOf(ts[at := Refused(ts[at], consumed, now)], ts[at].id) == at
  {
    var recorded := Record(ts, ts[at].id, consumed);
    assert forall k :: 0 <= k < |ts| && k != at ==> ts[k].id != ts[at].id && recorded[k] == ts[k];
    FoundAt(ts, ts, at);
    FoundAt(ts, ts[at := Refused(ts[at], consumed, now)], at);
  }

  /** The vendor turns a run away, and its worker is to stop the session it was for. */
  lemma {:induction false} RefusedWithin(now: U64, d: Day, j: nat, at: nat, consumed: Observation, id: SessionId,
                                         session: SessionId)
    requires Distinct(d.w.backlog.tasks) && at < |d.w.backlog.tasks| && !consumed.NotYet?
    requires d.w.At(j, Working(d.w.backlog.tasks[at].id))
    requires d.w.backlog.tasks[at].RunsFor(id) && CountOf(consumed) <= CeilingOf(d.w.backlog.tasks[at])
    ensures var t := Refused(d.w.backlog.tasks[at], consumed, now);
            Reaches(d, [TurnsAway(j, consumed, now)],
                    Day(d.w.Goes(j, Resetting(id)).Holding(d.w.backlog.tasks[at := t]), d.lines + [LineOf(t, now)]),
                    session, Tally(if session == id then CountOf(consumed) else 0, 0, 0, 0))
  {
    var s, t := TurnsAway(j, consumed, now), Refused(d.w.backlog.tasks[at], consumed, now);
    RefusedIs(d.w.backlog.tasks, at, consumed, now);
    AStep(d, s, Day(Next(d.w, s), d.lines + [LineOf(t, now)]), session);
  }

  // ---------------------------------------------------------------- what people ask for

  /** Somebody stops a session, and cuts its running tasks off. */
  function StoppingIt(n: nat, id: SessionId, now: U64): seq<Step> {
    [AsksToStop(id, StoppedReason.Interrupted)] + [Stops(n, now)] + [Step.Cuts(n, now)]
  }

  lemma {:induction false} StoppedAndCut(now: U64, d: Day, id: SessionId, session: SessionId)
    requires Keeps(d.w.sessions, id)
    ensures Reaches(d, StoppingIt(|d.w.threads|, id, now),
                    d.(w := d.w.(sessions := Halt(d.w.sessions, id, StoppedReason.Interrupted, now),
                                 threads := d.w.threads + [Thread(false, Idle)])
                     .Holding(Interrupt(d.w.backlog.tasks, id, Spelled(StoppedReason.Interrupted), now))), session,
                    QUIET)
  {
    var n := |d.w.threads|;
    var u := AboutToCut(now, d, id, session);
    CutBy(now, d.(w := u), n, id, d.w.threads + [Thread(false, Idle)], session);
    ThenQuietly(d, [AsksToStop(id, StoppedReason.Interrupted)] + [Stops(n, now)], d.(w := u), [Step.Cuts(n, now)],
                d.(w := u.(threads := d.w.threads + [Thread(false, Idle)])
                 .Holding(Interrupt(d.w.backlog.tasks, id, Spelled(StoppedReason.Interrupted), now))), session, QUIET,
                QUIET);
  }

  lemma {:induction false} AboutToCut(now: U64, d: Day, id: SessionId, session: SessionId) returns (u: World)
    requires Keeps(d.w.sessions, id)
    ensures Reaches(d, [AsksToStop(id, StoppedReason.Interrupted)] + [Stops(|d.w.threads|, now)], d.(w := u), session,
                    QUIET)
    ensures u == d.w.(threads := d.w.threads + [Thread(false, Cutting(id, StoppedReason.Interrupted))],
                      sessions := Halt(d.w.sessions, id, StoppedReason.Interrupted, now))
  {
    var n, why := |d.w.threads|, StoppedReason.Interrupted;
    var v := d.w.(threads := d.w.threads + [Thread(false, Stopping(id, why))]);
    u := d.w.(threads := d.w.threads + [Thread(false, Cutting(id, why))], sessions := Halt(d.w.sessions, id, why, now));
    AQuietStep(d, AsksToStop(id, why), v, session);
    HaltedBy(now, d.(w := v), n, id, u, session);
    ThenQuietly(d, [AsksToStop(id, why)], d.(w := v), [Stops(n, now)], d.(w := u), session, QUIET, QUIET);
  }

  lemma {:induction false} HaltedBy(now: U64, d: Day, n: nat, id: SessionId, u: World, session: SessionId)
    requires d.w.At(n, Stopping(id, StoppedReason.Interrupted))
    requires u.threads == d.w.threads[n := d.w.threads[n].(at := Cutting(id, StoppedReason.Interrupted))]
    requires u == d.w.(threads := u.threads, sessions := Halt(d.w.sessions, id, StoppedReason.Interrupted, now))
    ensures Reaches(d, [Stops(n, now)], d.(w := u), session, QUIET)
  {
    AQuietStep(d, Stops(n, now), u, session);
  }

  lemma {:induction false} CutBy(now: U64, d: Day, n: nat, id: SessionId, threads: seq<Thread>, session: SessionId)
    requires d.w.At(n, Cutting(id, StoppedReason.Interrupted))
    requires threads == d.w.threads[n := d.w.threads[n].(at := Idle)]
    ensures Reaches(d, [Step.Cuts(n, now)],
                    d.(w := d.w.(threads := threads)
                            .Holding(Interrupt(d.w.backlog.tasks, id, Spelled(StoppedReason.Interrupted), now))),
                    session, QUIET)
  {
    AQuietStep(d, Step.Cuts(n, now), Next(d.w, Step.Cuts(n, now)), session);
  }

  lemma {:induction false} Retried(d: Day, at: nat, id: TaskId, session: SessionId)
    requires at < |d.w.backlog.tasks| && Distinct(d.w.backlog.tasks) && d.w.backlog.tasks[at].state.Ended()
    requires id == d.w.backlog.tasks[at].id
    ensures Reaches(d, [Commands(Requeue(id, false))],
                    d.(w := d.w.Holding(d.w.backlog.tasks[at := Requeued(d.w.backlog.tasks[at], false)])), session,
                    Tally(0, 0, 0, if Carried(d.w, id) == 0 then 0 else 1))
  {
    assert IndexOf(d.w.backlog.tasks, id) == at;
    var s := Commands(Requeue(id, false));
    AStep(d, s, d.(w := d.w.Holding(d.w.backlog.tasks[at := Requeued(d.w.backlog.tasks[at], false)])), session);
  }

  lemma {:induction false} Removed(d: Day, at: nat, session: SessionId)
    requires at < |d.w.backlog.tasks| && Distinct(d.w.backlog.tasks) && d.w.backlog.tasks[at].state.Pending?
    ensures Reaches(d, [Commands(Remove(d.w.backlog.tasks[at].id))],
                    d.(w := d.w.Holding(Spliced(d.w.backlog.tasks, at))), session, QUIET)
  {
    var s := Commands(Remove(d.w.backlog.tasks[at].id));
    assert IndexOf(d.w.backlog.tasks, d.w.backlog.tasks[at].id) == at;
    AQuietStep(d, s, d.w.Holding(Spliced(d.w.backlog.tasks, at)), session);
  }

  // ---------------------------------------------------------------- what a decision hands over in these runs

  /** A session just opened has none of its tasks running and nothing unread, and so much of it is free. */
  predicate HasFree(now: U64, ts: seq<Task>, held: Session, free: U64) {
    && Distinct(ts) && held.budget.usage.InTokens? && held.budget.time > 0 && held.startedAt == now
    && held.model == None
    && (forall k :: 0 <= k < |ts| ==> !ts[k].RunsFor(held.id) && !ts[k].consumed.Unreadable?)
    && ExactAmong(ts, held.id, |ts|) + free == held.budget.Declared() && free > 0
  }

  lemma {:induction false} WhatIsFree(now: U64, ts: seq<Task>, held: Session, before: Figures, policy: Policy,
                                      free: U64)
    requires HasFree(now, ts, held, free)
    ensures StandsAt(ts, held, A_READING, before, policy, now)
         == Standing(held.budget.Declared(), held.budget.Declared() - free, 0, 0, before, held.budget.time, Waiting(ts),
                     0, AllBlocked(ts), false, policy.timing, policy.locking, policy.pacing)
    ensures SpentBy(ts, held, A_READING) == Tokens(held.budget.Declared() - free)
  {
    SomethingRuns(ts, held.id, |ts|);
    NothingRunsNothingIsBooked(ts, held.id, |ts|);
    ExactIsCounted(ts, held.id, |ts|);
    TotalIsTheClampedSum(CountedIn(ts, held.id));
  }

  /** While nothing is known, whoever is alone is offered all there is, whatever the policy. */
  lemma {:induction false} NothingKnownOffersAll(st: Standing, model: Option<string>, free: U64)
    requires st.before == NOTHING_KNOWN && free > 0
    ensures Offered(st, model, free, true) == Some(free)
  {
  }

  /** Once one run finished, in no time, whoever names no model is offered the same, whatever the policy. */
  lemma {:induction false} OneRunOffersEach(st: Standing, rule: Sizings.Rule, cost: U64, free: U64, alone: bool)
    requires st.before == OneRun(rule, cost, 0) && st.elapsed == 0 && free >= EachRun(rule, cost)
    ensures Offered(st, None, free, alone) == Some(EachRun(rule, cost))
  {
  }

  /** So much is free, and whoever waits first is offered all of it. */
  predicate GetsAll(now: U64, ts: seq<Task>, held: Session, before: Figures, policy: Policy, at: nat, free: U64) {
    && HasFree(now, ts, held, free) && IsFirst(ts, at)
    && Offered(StandsAt(ts, held, A_READING, before, policy, now), ts[at].model, free, true) == Some(free)
  }

  /** While nothing is known. */
  lemma {:induction false} GetsAllThereIs(now: U64, ts: seq<Task>, held: Session, policy: Policy, at: nat, free: U64)
    requires HasFree(now, ts, held, free) && IsFirst(ts, at)
    ensures GetsAll(now, ts, held, NOTHING_KNOWN, policy, at, free)
  {
    NothingKnownOffersAll(StandsAt(ts, held, A_READING, NOTHING_KNOWN, policy, now), ts[at].model, free);
  }

  /** Whoever waits first is handed all that is free. */
  lemma {:induction false} TheFirstGetsAll(now: U64, ts: seq<Task>, held: Session, before: Figures, policy: Policy,
                                           atOnce: nat, at: nat, free: U64)
    requires GetsAll(now, ts, held, before, policy, at, free) && atOnce > 0
    ensures Settle(ts, held, A_READING, before, policy, now, atOnce)
         == (ts[at := Handed(ts[at], held.id, free, now, None)], Started([ts[at].id]))
  {
    var st := StandsAt(ts, held, A_READING, before, policy, now);
    FirstWaiting(ts, at, |ts|);
    WhatIsFree(now, ts, held, before, policy, free);
    TheFirstIsAllowedAll(st);
    AssigningOne(now, ts, at, free, held.id, None);
    SettledSo(now, ts, held, A_READING, before, policy, atOnce, [Allowance(ts[at].id, free)]);
  }

  /** Two tasks handed the same, and the rest as they were. */
  function BothHanded(ts: seq<Task>, at: nat, next: nat, to: SessionId, each: U64, now: U64): seq<Task>
    requires at < |ts| && next < |ts|
  {
    ts[at := Handed(ts[at], to, each, now, None)][next := Handed(ts[next], to, each, now, None)]
  }

  /** The first two that wait, neither naming a model, where just enough for both is free. */
  predicate TwoWait(now: U64, ts: seq<Task>, held: Session, rule: Sizings.Rule, cost: U64, at: nat, next: nat) {
    && 2 * EachRun(rule, cost) <= U64_MAX && HasFree(now, ts, held, 2 * EachRun(rule, cost))
    && IsFirst(ts, at) && IsNext(ts, at, next) && ts[at].model == None && ts[next].model == None
  }

  /** They are handed half of it each. */
  lemma {:induction false} TheFirstTwoGetEach(now: U64, ts: seq<Task>, held: Session, rule: Sizings.Rule, cost: U64,
                                              policy: Policy, atOnce: nat, at: nat, next: nat)
    requires TwoWait(now, ts, held, rule, cost, at, next) && atOnce > 1
    ensures Settle(ts, held, A_READING, OneRun(rule, cost, 0), policy, now, atOnce)
         == (BothHanded(ts, at, next, held.id, EachRun(rule, cost), now), Started([ts[at].id, ts[next].id]))
  {
    var each, before := EachRun(rule, cost), OneRun(rule, cost, 0);
    var st := StandsAt(ts, held, A_READING, before, policy, now);
    NextWaiting(ts, at, next, |ts|);
    WhatIsFree(now, ts, held, before, policy, 2 * each);
    OneRunOffersEach(st, rule, cost, 2 * each, true);
    OneRunOffersEach(st, rule, cost, each, false);
    TheFirstTwoAreAllowed(st, each);
    AssigningTwo(now, ts, at, next, each, held.id, None);
    SettledSo(now, ts, held, A_READING, before, policy, atOnce,
              [Allowance(ts[at].id, each), Allowance(ts[next].id, each)]);
  }

  lemma {:induction false} TheirOwnBringNothing(ts: seq<Task>, us: seq<Task>, session: SessionId, n: nat)
    requires n <= |ts| == |us|
    requires forall k :: 0 <= k < |ts| ==>
               us[k] == ts[k] || ts[k].session == Some(session) || CountOf(ts[k].consumed) == 0
    ensures BroughtAmong(ts, us, session, n) == 0
  {
    if n > 0 {
      TheirOwnBringNothing(ts, us, session, n - 1);
    }
  }

  /** A task hands nothing on to a session: it told it itself, or consumed nothing. */
  predicate BringsNothing(t: Task, session: SessionId) {
    t.session == Some(session) || CountOf(t.consumed) == 0
  }

  /** What a decision makes of these tasks: what they are then, those it starts, and what it counts as spent.
      No task it starts brings a session anything. */
  ghost predicate HandsOut(now: U64, ts: seq<Task>, held: Session, before: Figures, policy: Policy, session: SessionId,
                           us: seq<Task>, started: seq<TaskId>, counted: U64) {
    && Settle(ts, held, A_READING, before, policy, now, 3) == (us, Started(started))
    && BroughtAmong(ts, us, session, |ts|) == 0 && SpentBy(ts, held, A_READING) == Tokens(counted)
  }

  lemma {:induction false} OneIsHandedAll(now: U64, ts: seq<Task>, us: seq<Task>, held: Session, before: Figures,
                                          policy: Policy, at: nat, free: U64, counted: U64, session: SessionId)
    requires GetsAll(now, ts, held, before, policy, at, free) && counted + free == held.budget.Declared()
    requires us == ts[at := Handed(ts[at], held.id, free, now, None)] && BringsNothing(ts[at], session)
    ensures HandsOut(now, ts, held, before, policy, session, us, [ts[at].id], counted)
    ensures Has(us, ts[at].id) && us[IndexOf(us, ts[at].id)].state.Running?
  {
    TheFirstGetsAll(now, ts, held, before, policy, 3, at, free);
    TheirOwnBringNothing(ts, us, session, |ts|);
    WhatIsFree(now, ts, held, before, policy, free);
    FoundAt(ts, us, at);
  }

  lemma {:induction false} BothAreHandedEach(now: U64, ts: seq<Task>, us: seq<Task>, held: Session, rule: Sizings.Rule,
                                             cost: U64, policy: Policy, at: nat, next: nat, counted: U64,
                                             session: SessionId)
    requires TwoWait(now, ts, held, rule, cost, at, next) && counted + 2 * EachRun(rule, cost) == held.budget.Declared()
    requires us == BothHanded(ts, at, next, held.id, EachRun(rule, cost), now)
    requires BringsNothing(ts[at], session) && BringsNothing(ts[next], session)
    ensures HandsOut(now, ts, held, OneRun(rule, cost, 0), policy, session, us, [ts[at].id, ts[next].id], counted)
  {
    TheFirstTwoGetEach(now, ts, held, rule, cost, policy, 3, at, next);
    TheirOwnBringNothing(ts, us, session, |ts|);
    WhatIsFree(now, ts, held, NOTHING_KNOWN, policy, 2 * EachRun(rule, cost));
  }

  lemma {:induction false} StartedSo(now: U64, d: Day, i: nat, held: Session, before: Figures, us: seq<Task>,
                                     started: seq<TaskId>, counted: U64, session: SessionId)
    requires d.w.At(i, Deciding(held, A_READING)) && d.w.atOnce == 3
    requires HandsOut(now, d.w.backlog.tasks, held, before, d.w.policy, session, us, started, counted)
    requires ToldBy(before, d.w.policy.sizing, held.budget.usage, d.lines)
    ensures Reaches(d, [Decides(i, before, now)],
                    d.(w := d.w.Goes(i, Noting(held.id, Tokens(counted), Started(started))).Holding(us)), session,
                    Tally(0, 0, if Runs(d.w.sessions, held.id) then 0 else 1, 0))
  {
    Decided(now, d, i, held, before, us, Started(started), session);
  }

  /** What one thread hands the task that waits first, another takes up. */
  function HandingAll(i: nat, j: nat, before: Figures, now: U64): seq<Step> {
    [Decides(i, before, now)] + [Notes(i, now)] + Handing(i, j)
  }

  lemma {:induction false} InTurn(one: seq<Step>, two: seq<Step>, three: seq<Step>)
    ensures one + (two + three) == one + two + three
  {
  }

  lemma {:induction false} HandedAndTakenUp(now: U64, d: Day, i: nat, j: nat, held: Session, before: Figures,
                                            us: seq<Task>, id: TaskId, counted: U64, session: SessionId)
    requires d.w.At(i, Deciding(held, A_READING)) && d.w.atOnce == 3
    requires HandsOut(now, d.w.backlog.tasks, held, before, d.w.policy, session, us, [id], counted)
    requires ToldBy(before, d.w.policy.sizing, held.budget.usage, d.lines)
    requires Has(us, id) && us[IndexOf(us, id)].state.Running? && Runs(d.w.sessions, held.id) && d.w.queue == []
    requires j < |d.w.threads| && d.w.threads[j] == Thread(true, Idle)
    ensures Reaches(d, HandingAll(i, j, before, now),
                    d.(w := d.w.Goes(i, Queuing([])).Goes(j, Preparing(id)).Holding(us)
                     .(sessions := Note(d.w.sessions, held.id, Tokens(counted), now))), session, QUIET)
  {
    var e := d.(w := d.w.Goes(i, Noting(held.id, Tokens(counted), Started([id]))).Holding(us));
    StartedSo(now, d, i, held, before, us, [id], counted, session);
    NotedAndTakenUp(now, e, i, j, held.id, Tokens(counted), id, session);
    GoesTwice(d.w, i, e.w.threads[i].at, Queuing([]));
    QuietlyThen(d, [Decides(i, before, now)], e, [Notes(i, now)] + Handing(i, j),
                e.(w := e.w.Goes(i, Queuing([])).Goes(j, Preparing(id))
                 .(sessions := Note(d.w.sessions, held.id, Tokens(counted), now))), session, QUIET, QUIET);
    InTurn([Decides(i, before, now)], [Notes(i, now)], Handing(i, j));
  }

  lemma {:induction false} NotedAndTakenUp(now: U64, d: Day, i: nat, j: nat, held: SessionId, spent: Spending,
                                           id: TaskId, session: SessionId)
    requires d.w.At(i, Noting(held, spent, Started([id]))) && d.w.queue == [] && j < |d.w.threads|
    requires d.w.threads[j] == Thread(true, Idle)
    requires Has(d.w.backlog.tasks, id) && d.w.backlog.tasks[IndexOf(d.w.backlog.tasks, id)].state.Running?
    ensures Reaches(d, [Notes(i, now)] + Handing(i, j),
                    d.(w := d.w.Goes(i, Queuing([])).Goes(j, Preparing(id))
                     .(sessions := Note(d.w.sessions, held, spent, now))), session, QUIET)
  {
    var v := d.w.Goes(i, Queuing([id])).(sessions := Note(d.w.sessions, held, spent, now));
    Noted(now, d, i, held, spent, [id], session);
    TakenUp(d.(w := v), i, j, [id], session);
    assert [id][1..] == [];
    GoesTwice(d.w, i, Queuing([id]), Queuing([]));
    ThenQuietly(d, [Notes(i, now)], d.(w := v), Handing(i, j),
                d.(w := v.Goes(i, Queuing([])).Goes(j, Preparing(id))), session, QUIET, QUIET);
  }

  // ---------------------------------------------------------------- where these runs are

  /** A daemon of three hands, with nothing on the queue. */
  function Scene(policy: Policy, ts: seq<Task>, nextId: U32, ss: seq<Session>, nextSession: U32,
                 threads: seq<Thread>): World {
    World(3, policy, Shelf(nextId, ts), nextSession, ss, [], threads)
  }

  /** The three hands, and then who opened a session. */
  function Threads(one: Phase, two: Phase, three: Phase, callers: seq<Thread>): seq<Thread> {
    [Thread(true, one), Thread(true, two), Thread(true, three)] + callers
  }

  /** A daemon just started, with nothing in any store. */
  function AtFirst(policy: Policy): Day {
    Day(NewDaemon(3, policy), [])
  }

  /** Nobody does anything yet but register tasks. */
  function BeforeAnySession(policy: Policy, ts: seq<Task>): Day
    requires |ts| < U32_MAX
  {
    Day(Scene(policy, ts, |ts| + 1, [], 1, Threads(Idle, Idle, Idle, [])), [])
  }

  lemma {:induction false} NobodyWaits(policy: Policy, session: SessionId)
    ensures Reaches(AtFirst(policy), [], BeforeAnySession(policy, []), session, QUIET)
  {
    Nowhere(AtFirst(policy), session);
    assert AtFirst(policy).w.threads == Threads(Idle, Idle, Idle, []);
  }

  lemma {:induction false} OneMoreWaits(policy: Policy, steps: seq<Step>, ts: seq<Task>, session: SessionId)
    requires |ts| + 1 < U32_MAX && Reaches(AtFirst(policy), steps, BeforeAnySession(policy, ts), session, QUIET)
    ensures Reaches(AtFirst(policy), steps + [REGISTERS], BeforeAnySession(policy, ts + [ATask(|ts| + 1)]), session,
                    QUIET)
  {
    Registering(BeforeAnySession(policy, ts), session);
    ThenQuietly(AtFirst(policy), steps, BeforeAnySession(policy, ts), [REGISTERS],
                BeforeAnySession(policy, ts + [ATask(|ts| + 1)]), session, QUIET, QUIET);
  }

  lemma {:induction false} NotedOnly(s: Session, spent: Spending, now: U64)
    requires s.state == SessionState.Running && s.consumed.Tokens? && spent.Tokens? && s.consumed.figure <= spent.figure
    ensures Note([s], s.id, spent, now) == [s.(consumed := spent, updatedAt := now)]
  {
  }

  lemma {:induction false} OnlyOneCarries(threads: seq<Thread>, j: nat, id: TaskId, n: nat)
    requires n <= |threads| && j < |threads| && forall k :: 0 <= k < n && k != j ==> CarriedBy(threads[k].at, id) == 0
    ensures CarriedAmong(threads, n, id) == if j < n then CarriedBy(threads[j].at, id) else 0
  {
    if n > 0 {
      OnlyOneCarries(threads, j, id, n - 1);
    }
  }
}
