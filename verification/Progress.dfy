/** A session ends. With nothing asked from outside meanwhile, every step of the daemon takes it further, in
    an order no run goes down for ever, something can always move while a session is running, and so it is
    stopped: after a bounded number of steps and of runs the vendor turned away, and at most as many run
    endings as there were tasks to run. */
module Progress {
  import opened Wrappers
  import opened Numbers
  import opened Spendings
  import opened Tasks
  import opened Graph
  import opened Closure
  import opened SessionValues
  import opened Decisions
  import opened Settling
  import opened Protocol
  import opened Steps
  import opened NoIdle
  import opened Commitments
  import opened BudgetBound

  /** Steps the daemon takes by itself. */
  predicate Internal(s: Step) {
    !s.Commands? && !s.Opens? && !s.AsksToStop?
  }

  predicate AllInternal(steps: seq<Step>) {
    forall i :: 0 <= i < |steps| ==> Internal(steps[i])
  }

  // ---------------------------------------------------------------- how much is left to do

  /** What a thread has before it until it is idle, counting a run it has to queue as all that queuing
      and carrying it out will take. */
  function Ahead(at: Phase): nat {
    match at
    case Idle => 0
    case Cutting(_, _) => 1
    case Stopping(_, _) => 2
    case Resetting(_) => 3
    case Noting(_, _, Halting(_)) => 3
    case Noting(_, _, Started(tasks)) => 2 + 12 * |tasks|
    case Queuing(tasks) => 1 + 12 * |tasks|
    case Deciding(_, _) => 4
    case Deferring(_, _) => 5
    case Asking(_) => 6
    case Measuring(_) => 7
    case Working(_) => 8
    case Preparing(_) => 9
    case Looking(_) => 10
  }

  function AheadAmong(threads: seq<Thread>, n: nat): nat
    requires n <= |threads|
  {
    if n == 0 then 0 else AheadAmong(threads, n - 1) + Ahead(threads[n - 1].at)
  }

  function PendingAmong(ts: seq<Task>, n: nat): nat
    requires n <= |ts|
  {
    if n == 0 then 0 else PendingAmong(ts, n - 1) + if ts[n - 1].state.Pending? then 1 else 0
  }

  function PendingIn(w: World): nat {
    PendingAmong(w.backlog.tasks, |w.backlog.tasks|)
  }

  function LeftToDo(w: World): nat {
    13 * PendingIn(w) + 11 * |w.queue| + AheadAmong(w.threads, |w.threads|)
  }

  lemma {:induction false} AheadAfterOne(threads: seq<Thread>, i: nat, t: Thread, n: nat)
    requires i < |threads| && n <= |threads|
    ensures AheadAmong(threads[i := t], n)
         == AheadAmong(threads, n) + if i < n then Ahead(t.at) - Ahead(threads[i].at) else 0
  {
    if n > 0 {
      AheadAfterOne(threads, i, t, n - 1);
    }
  }

  lemma {:induction false} SamePending(ts: seq<Task>, us: seq<Task>, n: nat)
    requires n <= |ts| == |us|
    requires forall k :: 0 <= k < n ==> (ts[k].state.Pending? <==> us[k].state.Pending?)
    ensures PendingAmong(ts, n) == PendingAmong(us, n)
  {
    if n > 0 {
      SamePending(ts, us, n - 1);
    }
  }

  lemma {:induction false} OneFewerPending(ts: seq<Task>, at: nat, t: Task, n: nat)
    requires at < |ts| && n <= |ts| && ts[at].state.Pending? && !t.state.Pending?
    ensures PendingAmong(ts[at := t], n) + (if at < n then 1 else 0) == PendingAmong(ts, n)
  {
    if n > 0 {
      OneFewerPending(ts, at, t, n - 1);
    }
  }

  /** Every task assigned is one fewer waiting. */
  lemma {:induction false} AssigningUsesUpPending(ts: seq<Task>, allowed: seq<Allowance>, to: SessionId, now: U64,
                                                  fallback: Option<string>)
    ensures var (us, started) := AssignAll(ts, allowed, to, now, fallback);
            PendingAmong(us, |us|) + |started| == PendingAmong(ts, |ts|)
  {
    if allowed != [] {
      var last := allowed[|allowed| - 1];
      AssigningUsesUpPending(ts, allowed[..|allowed| - 1], to, now, fallback);
      var us := AssignAll(ts, allowed[..|allowed| - 1], to, now, fallback).0;
      var at := PendingIndexOf(us, last.task);
      assert Assignable(us, last.task) <==> at < |us|;
      if at < |us| {
        OneFewerPending(us, at, Handed(us[at], to, last.ceiling, now, fallback), |us|);
      }
    }
  }

  lemma EndingLeavesPending(ts: seq<Task>, id: TaskId, state: TaskState, reason: Option<string>,
                            conversation: Option<string>, consumed: Observation, now: U64, k: nat)
    requires k < |ts| && state.Ended()
    ensures ts[k].state.Pending? <==> Ended(ts, id, state, reason, conversation, consumed, now)[k].state.Pending?
  {
    var finished := Finish(ts, id, state, reason, now);
    assert Record(finished, id, consumed)[k].state == finished[k].state;
  }

  lemma OnlyDecidingTakesPending(w: World, s: Step)
    requires Enabled(w, s) && Internal(s) && !s.Decides? && !s.TurnsAway?
    ensures PendingIn(Next(w, s)) == PendingIn(w)
  {
    var ts, us := w.backlog.tasks, Next(w, s).backlog.tasks;
    if s.Ends? {
      forall k | 0 <= k < |ts| ensures ts[k].state.Pending? <==> us[k].state.Pending? {
        EndingLeavesPending(ts, w.threads[s.i].at.task, s.state, s.reason, s.conversation, s.consumed, s.now, k);
      }
    }
    SamePending(ts, us, |ts|);
  }

  lemma SettlingUsesUpPending(ts: seq<Task>, held: Session, read: Option<Measured>, before: Figures, policy: Policy,
                              now: U64, atOnce: nat)
    ensures var (us, verdict) := Settle(ts, held, read, before, policy, now, atOnce);
            PendingAmong(us, |us|) + (if verdict.Started? then |verdict.tasks| else 0) == PendingAmong(ts, |ts|)
  {
    var decision := Judged(ts, held, read, before, policy, now);
    if decision.Start? {
      AssigningUsesUpPending(ts, Taken(ts, held, decision.allowed, atOnce), held.id, now, held.model);
    }
  }

  lemma DecidingUsesUpPending(w: World, s: Step)
    requires Enabled(w, s) && s.Decides?
    ensures PendingIn(Next(w, s)) + CarriedCount(Next(w, s).threads[s.i].at) == PendingIn(w)
    ensures Ahead(Next(w, s).threads[s.i].at) <= 3 + 12 * CarriedCount(Next(w, s).threads[s.i].at)
  {
    var ts, held, read := w.backlog.tasks, w.threads[s.i].at.held, w.threads[s.i].at.read;
    var (us, verdict) := Settle(ts, held, read, s.before, w.policy, s.now, w.atOnce);
    SettlingUsesUpPending(ts, held, read, s.before, w.policy, s.now, w.atOnce);
    WhatDecidingDoes(w, s, us, verdict);
    assert CarriedCount(Next(w, s).threads[s.i].at) == if verdict.Started? then |verdict.tasks| else 0;
  }

  lemma {:induction false} MovingOnLeavesLess(w: World, s: Step)
    requires Enabled(w, s) && Internal(s) && !s.Decides? && !s.TurnsAway? && OnItsOwn(s)
    ensures Ahead(Next(w, s).threads[s.i].at) < Ahead(w.threads[s.i].at)
  {
    if s.Looks? || s.Prepares? || s.Ends? || s.Resets? {
      WorkMovesOn(w, s);
    } else if s.Measures? || s.Asks? || s.Reads? {
      ReadingMovesOn(w, s);
    } else {
      CarryingOutMovesOn(w, s);
    }
  }

  lemma {:induction false} WorkMovesOn(w: World, s: Step)
    requires Enabled(w, s) && OnItsOwn(s) && (s.Looks? || s.Prepares? || s.Ends? || s.Resets?)
    ensures Ahead(Next(w, s).threads[s.i].at) < Ahead(w.threads[s.i].at)
  {
  }

  lemma {:induction false} ReadingMovesOn(w: World, s: Step)
    requires Enabled(w, s) && OnItsOwn(s) && (s.Measures? || s.Asks? || s.Reads?)
    ensures Ahead(Next(w, s).threads[s.i].at) < Ahead(w.threads[s.i].at)
  {
  }

  lemma {:induction false} CarryingOutMovesOn(w: World, s: Step)
    requires Enabled(w, s) && OnItsOwn(s) && (s.Notes? || s.Queues? || s.Stops? || s.Cuts?)
    ensures Ahead(Next(w, s).threads[s.i].at) < Ahead(w.threads[s.i].at)
  {
  }

  /** Every step the daemon takes by itself leaves less to do, unless the vendor turns a run away. */
  lemma WorkLeavesLess(w: World, s: Step)
    requires Enabled(w, s) && Internal(s) && !s.TurnsAway?
    ensures LeftToDo(Next(w, s)) < LeftToDo(w)
  {
    AheadAfterOne(w.threads, s.i, Next(w, s).threads[s.i], |w.threads|);
    if s.Decides? {
      DecidingUsesUpPending(w, s);
    } else {
      OnlyDecidingTakesPending(w, s);
      if OnItsOwn(s) {
        MovingOnLeavesLess(w, s);
      }
    }
    if OnItsOwn(s) {
      BesidesTheThread(w, s);
    }
  }

  // ---------------------------------------------------------------- what a turned-away run takes further

  /** What threads come to, each weighed by where it is. */
  function Weighed(threads: seq<Thread>, weight: Phase -> nat): nat {
    if threads == [] then 0 else Weighed(threads[..|threads| - 1], weight) + weight(threads[|threads| - 1].at)
  }

  lemma {:induction false} WeighedAfterOne(threads: seq<Thread>, i: nat, t: Thread, weight: Phase -> nat)
    requires i < |threads|
    ensures Weighed(threads[i := t], weight) + weight(threads[i].at) == Weighed(threads, weight) + weight(t.at)
  {
    var n := |threads| - 1;
    if i < n {
      WeighedAfterOne(threads[..n], i, t, weight);
      assert threads[i := t][..n] == threads[..n][i := t];
    } else {
      assert threads[i := t][..n] == threads[..n];
    }
  }

  lemma {:induction false} WeighsNoMore(threads: seq<Thread>, weight: Phase -> nat, other: Phase -> nat)
    requires forall at :: weight(at) <= other(at)
    ensures Weighed(threads, weight) <= Weighed(threads, other)
  {
    if threads != [] {
      WeighsNoMore(threads[..|threads| - 1], weight, other);
    }
  }

  /** The sessions that run: one, at most. */
  function Going(ss: seq<Session>): set<SessionId> {
    set i | 0 <= i < |ss| && ss[i].state.Running? :: ss[i].id
  }

  lemma GoingIsRunning(ss: seq<Session>, id: SessionId)
    requires DistinctSessions(ss)
    ensures id in Going(ss) <==> Runs(ss, id)
  {
  }

  /** The tasks of a session that runs. */
  function OfThese(ts: seq<Task>, going: set<SessionId>): set<TaskId> {
    set k | 0 <= k < |ts| && ts[k].session.Some? && ts[k].session.value in going :: ts[k].id
  }

  /** A decision in the making for a session that has stopped. */
  function IsLate(going: set<SessionId>): Phase -> nat {
    (at: Phase) => if at.Deciding? && at.held.id !in going then 1 else 0
  }

  function StrayIds(ids: seq<TaskId>, good: set<TaskId>): nat {
    if ids == [] then 0 else (if ids[0] in good then 0 else 1) + StrayIds(ids[1..], good)
  }

  /** Runs to carry of tasks whose session does not run. */
  function CarriesStrays(good: set<TaskId>): Phase -> nat {
    (at: Phase) =>
          match at
          case Looking(task) => if task in good then 0 else 1
          case Preparing(task) => if task in good then 0 else 1
          case Working(task) => if task in good then 0 else 1
          case Noting(_, _, verdict) => if verdict.Started? then StrayIds(verdict.tasks, good) else 0
          case Queuing(tasks) => StrayIds(tasks, good)
          case _ => 0
  }

  /** Threads that are not about to stop the session that runs. */
  function NotStopping(going: set<SessionId>): Phase -> nat {
    (at: Phase) => if (at.Resetting? || at.Stopping?) && at.session in going then 0 else 1
  }

  /** How much further there is to go, the first that differs counting most: whether a session runs; how many
      decisions are in the making for one that has stopped; how many runs there are to carry of tasks whose
      session does not run; how many threads are not about to stop the one that does; how much there is to do. */
  datatype Way = Way(going: nat, late: nat, strays: nat, unstopping: nat, toDo: nat)

  function WayOf(w: World, going: set<SessionId>, good: set<TaskId>): Way {
    Way(if going == {} then 0 else 1,
        Weighed(w.threads, IsLate(going)),
        StrayIds(w.queue, good) + Weighed(w.threads, CarriesStrays(good)),
        Weighed(w.threads, NotStopping(going)),
        LeftToDo(w))
  }

  function WayToGo(w: World): Way {
    WayOf(w, Going(w.sessions), OfThese(w.backlog.tasks, Going(w.sessions)))
  }

  /** Further on in all but what there is to do. */
  predicate TurnedFurther(one: Way, another: Way) {
    || one.going < another.going
    || (one.going == another.going
        && (|| one.late < another.late
            || (one.late == another.late
                && (|| one.strays < another.strays
                    || (one.strays == another.strays && one.unstopping < another.unstopping)))))
  }

  predicate AsFar(one: Way, another: Way) {
    one.going == another.going && one.late == another.late && one.strays == another.strays
      && one.unstopping == another.unstopping
  }

  /** Further on. */
  predicate Further(one: Way, another: Way) {
    TurnedFurther(one, another) || (AsFar(one, another) && one.toDo < another.toDo)
  }

  lemma {:induction false} OneThreadMoves(w: World, s: Step) returns (at: Phase)
    requires Enabled(w, s) && Internal(s)
    ensures s.i < |w.threads| && at == Next(w, s).threads[s.i].at
    ensures Next(w, s).threads == w.threads[s.i := w.threads[s.i].(at := at)]
  {
    at := Next(w, s).threads[s.i].at;
  }

  lemma {:induction false} SameSessionsGo(ss: seq<Session>, us: seq<Session>)
    requires |us| == |ss| && forall i :: 0 <= i < |ss| ==> us[i].id == ss[i].id && us[i].state == ss[i].state
    ensures Going(us) == Going(ss)
  {
    forall id ensures id in Going(us) <==> id in Going(ss) {
      if id in Going(ss) {
        var i :| 0 <= i < |ss| && ss[i].state.Running? && ss[i].id == id;
        assert us[i].state.Running?;
      }
      if id in Going(us) {
        var i :| 0 <= i < |us| && us[i].state.Running? && us[i].id == id;
        assert ss[i].state.Running?;
      }
    }
  }

  /** Only stopping the session that runs changes which one does. */
  lemma {:induction false} GoingStays(w: World, s: Step)
    requires Enabled(w, s) && Internal(s) && !(s.Stops? && w.threads[s.i].at.session in Going(w.sessions))
    ensures Going(Next(w, s).sessions) == Going(w.sessions)
  {
    var ss, us := w.sessions, Next(w, s).sessions;
    forall i | 0 <= i < |ss| ensures |us| == |ss| && us[i].id == ss[i].id && us[i].state == ss[i].state {
      if s.Stops? && ss[i].state.Running? {
        assert ss[i].id in Going(ss);
      }
    }
    SessionsOnlyGrow(w, s);
    SameSessionsGo(ss, us);
  }

  lemma {:induction false} StoppingTheOneThatRuns(w: World, s: Step)
    requires Enabled(w, s) && s.Stops? && SessionsSound(w) && w.threads[s.i].at.session in Going(w.sessions)
    ensures Going(Next(w, s).sessions) == {}
  {
    var ss, us, id := w.sessions, Next(w, s).sessions, w.threads[s.i].at.session;
    var at :| 0 <= at < |ss| && ss[at].state.Running? && ss[at].id == id;
    forall i | 0 <= i < |us| ensures us[i].state.Stopped? {
      assert us[i]
             == if ss[i].id == id && ss[i].state.Running? then Halted(ss[i], w.threads[s.i].at.why, s.now) else ss[i];
    }
  }

  /** No step but a retry of the reading makes a decision in the making late. */
  lemma {:induction false} NoneComesLate(w: World, s: Step, at: Phase)
    requires Enabled(w, s) && Internal(s) && SessionsSound(w) && at == Next(w, s).threads[s.i].at
    ensures IsLate(Going(w.sessions))(at) <= IsLate(Going(w.sessions))(w.threads[s.i].at)
  {
    if s.Reads? && at.Deciding? {
      GoingIsRunning(w.sessions, at.held.id);
    }
  }

  lemma {:induction false} StoppingGoesOn(w: World, s: Step, going: set<SessionId>, at: Phase)
    requires Enabled(w, s) && Internal(s) && at == Next(w, s).threads[s.i].at
    requires s.Stops? ==> w.threads[s.i].at.session !in going
    ensures NotStopping(going)(at) <= NotStopping(going)(w.threads[s.i].at)
  {
  }

  lemma {:induction false} OneMoreStray(ids: seq<TaskId>, id: TaskId, good: set<TaskId>)
    ensures StrayIds(ids + [id], good) == StrayIds(ids, good) + if id in good then 0 else 1
  {
    if ids == [] {
      assert StrayIds([id], good) == (if id in good then 0 else 1) + StrayIds([id][1..], good);
    } else {
      assert (ids + [id])[1..] == ids[1..] + [id];
      OneMoreStray(ids[1..], id, good);
    }
  }

  /** Strays pass from hand to hand, or are put down: no step but a decision picks one up. */
  lemma {:induction false} StraysAreCarriedOn(w: World, s: Step, good: set<TaskId>, at: Phase)
    requires Enabled(w, s) && Internal(s) && !s.Decides? && at == Next(w, s).threads[s.i].at
    ensures StrayIds(Next(w, s).queue, good) + CarriesStrays(good)(at)
            <= StrayIds(w.queue, good) + CarriesStrays(good)(w.threads[s.i].at)
  {
    if s.Queues? && w.threads[s.i].at.tasks != [] {
      OneMoreStray(w.queue, w.threads[s.i].at.tasks[0], good);
    }
  }

  lemma {:induction false} SameAreOfThese(w: World, s: Step, going: set<SessionId>)
    requires Enabled(w, s) && Internal(s) && !s.Decides?
    ensures OfThese(Next(w, s).backlog.tasks, going) == OfThese(w.backlog.tasks, going)
  {
    var ts, us := w.backlog.tasks, Next(w, s).backlog.tasks;
    LengthAfter(w, s);
    forall k | 0 <= k < |ts| ensures us[k].id == ts[k].id && us[k].session == ts[k].session {
      var was := WhereATaskWas(w, s, k);
    }
    SameTasksAreOfThese(ts, us, going);
  }

  lemma {:induction false} LengthAfter(w: World, s: Step)
    requires Enabled(w, s) && Internal(s)
    ensures |Next(w, s).backlog.tasks| == |w.backlog.tasks|
  {
  }

  lemma {:induction false} SameTasksAreOfThese(ts: seq<Task>, us: seq<Task>, going: set<SessionId>)
    requires |us| == |ts| && forall k :: 0 <= k < |ts| ==> us[k].id == ts[k].id && us[k].session == ts[k].session
    ensures OfThese(us, going) == OfThese(ts, going)
  {
    forall id ensures id in OfThese(us, going) <==> id in OfThese(ts, going) {
      if id in OfThese(ts, going) {
        var k :| 0 <= k < |ts| && ts[k].session.Some? && ts[k].session.value in going && ts[k].id == id;
        assert us[k].session.value in going;
      }
      if id in OfThese(us, going) {
        var k :| 0 <= k < |us| && us[k].session.Some? && us[k].session.value in going && us[k].id == id;
        assert ts[k].session.value in going;
      }
    }
  }

  /** A run the vendor turns away was a stray, or its worker is about to stop the session that runs. */
  lemma {:induction false} TurningAwayGoesFurther(w: World, s: Step, going: set<SessionId>, good: set<TaskId>,
                                                  at: Phase)
    requires Enabled(w, s) && s.TurnsAway? && Sound(w.backlog) && at == Next(w, s).threads[s.i].at
    requires good == OfThese(w.backlog.tasks, going)
    ensures CarriesStrays(good)(at) == 0
    ensures if w.threads[s.i].at.task in good then NotStopping(going)(at) == 0
            else CarriesStrays(good)(w.threads[s.i].at) == 1
  {
    var ts, us, id := w.backlog.tasks, Next(w, s).backlog.tasks, w.threads[s.i].at.task;
    if id in good {
      var k :| 0 <= k < |ts| && ts[k].session.Some? && ts[k].session.value in going && ts[k].id == id;
      WorkersLeaveOthers(w, s, k);
      WorkersKeepTheGraph(w, s);
      SameGraphFinds(ts, us, id);
      assert IndexOf(ts, id) == k;
    }
  }

  /** How far there is still to go in all but what there is to do, after a thread moves on by itself. */
  lemma {:induction false} OthersGoNoFurtherBack(w: World, s: Step, going: set<SessionId>, good: set<TaskId>, at: Phase)
    requires Enabled(w, s) && Internal(s) && !s.Decides? && SessionsSound(w)
    requires going == Going(w.sessions) && good == OfThese(w.backlog.tasks, going) && at == Next(w, s).threads[s.i].at
    requires !(s.Stops? && w.threads[s.i].at.session in going)
    ensures var one, another := WayToGo(Next(w, s)), WayToGo(w);
            && one.going == another.going && one.late <= another.late && one.strays <= another.strays
            && one.unstopping + NotStopping(going)(w.threads[s.i].at) == another.unstopping + NotStopping(going)(at)
            && (s.TurnsAway? ==>
                  one.strays + CarriesStrays(good)(w.threads[s.i].at) == another.strays + CarriesStrays(good)(at))
  {
    var _ := OneThreadMoves(w, s);
    var t := w.threads[s.i].(at := at);
    GoingStays(w, s);
    SameAreOfThese(w, s, going);
    WeighedAfterOne(w.threads, s.i, t, IsLate(going));
    WeighedAfterOne(w.threads, s.i, t, CarriesStrays(good));
    WeighedAfterOne(w.threads, s.i, t, NotStopping(going));
    NoneComesLate(w, s, at);
    StraysAreCarriedOn(w, s, good, at);
  }

  lemma {:induction false} OthersGoFurther(w: World, s: Step)
    requires Enabled(w, s) && Internal(s) && !s.Decides? && Sound(w.backlog) && SessionsSound(w)
    requires !(s.Stops? && w.threads[s.i].at.session in Going(w.sessions))
    ensures Further(WayToGo(Next(w, s)), WayToGo(w))
  {
    var going := Going(w.sessions);
    var good := OfThese(w.backlog.tasks, going);
    var at := OneThreadMoves(w, s);
    OthersGoNoFurtherBack(w, s, going, good, at);
    StoppingGoesOn(w, s, going, at);
    if s.TurnsAway? {
      TurningAwayGoesFurther(w, s, going, good, at);
    } else {
      WorkLeavesLess(w, s);
    }
  }

  lemma {:induction false} StoppingGoesFurther(w: World, s: Step)
    requires Enabled(w, s) && s.Stops? && SessionsSound(w) && w.threads[s.i].at.session in Going(w.sessions)
    ensures Further(WayToGo(Next(w, s)), WayToGo(w))
  {
    StoppingTheOneThatRuns(w, s);
  }

  lemma {:induction false} LateDecisionsGoFurther(w: World, s: Step)
    requires Enabled(w, s) && s.Decides? && w.threads[s.i].at.held.id !in Going(w.sessions)
    ensures Further(WayToGo(Next(w, s)), WayToGo(w))
  {
    var at := OneThreadMoves(w, s);
    GoingStays(w, s);
    WeighedAfterOne(w.threads, s.i, w.threads[s.i].(at := at), IsLate(Going(w.sessions)));
  }

  lemma {:induction false} FewerStray(ids: seq<TaskId>, good: set<TaskId>, more: set<TaskId>)
    requires good <= more
    ensures StrayIds(ids, more) <= StrayIds(ids, good)
  {
    if ids != [] {
      FewerStray(ids[1..], good, more);
    }
  }

  lemma {:induction false} FewerAreStrays(threads: seq<Thread>, good: set<TaskId>, more: set<TaskId>)
    requires good <= more
    ensures Weighed(threads, CarriesStrays(more)) <= Weighed(threads, CarriesStrays(good))
  {
    forall at: Phase ensures CarriesStrays(more)(at) <= CarriesStrays(good)(at) {
      match at
      case Noting(_, _, Started(tasks)) => FewerStray(tasks, good, more);
      case Queuing(tasks) => FewerStray(tasks, good, more);
      case _ =>
    }
    WeighsNoMore(threads, CarriesStrays(more), CarriesStrays(good));
  }

  lemma {:induction false} NoneStray(ids: seq<TaskId>, good: set<TaskId>)
    requires forall id :: Times(ids, id) > 0 ==> id in good
    ensures StrayIds(ids, good) == 0
  {
    if ids != [] {
      forall id | Times(ids[1..], id) > 0 ensures id in good {
        TakenOff(ids, id);
      }
      assert Times(ids, ids[0]) > 0;
      NoneStray(ids[1..], good);
    }
  }

  /** What a decision hands over is of its session, and no task leaves a session that runs but for that one. */
  lemma {:induction false} HandedAreOfIt(w: World, s: Step, going: set<SessionId>)
    requires Enabled(w, s) && s.Decides? && Sound(w.backlog) && w.threads[s.i].at.held.id in going
    ensures OfThese(w.backlog.tasks, going) <= OfThese(Next(w, s).backlog.tasks, going)
    ensures forall id: TaskId :: PickedUp(w, s, id) > 0 ==> id in OfThese(Next(w, s).backlog.tasks, going)
  {
    var ts, us := w.backlog.tasks, Next(w, s).backlog.tasks;
    LengthAfter(w, s);
    forall k | 0 <= k < |ts| ensures StaysOrGoesTo(ts[k], us[k], going) {
      HandedOrNotPickedUp(w, s, k);
    }
    forall id: TaskId | PickedUp(w, s, id) > 0 ensures id in OfThese(us, going) {
      PickedUpIsHandedOver(w, s, id);
      assert us[IndexOf(ts, id)].id == id;
    }
    HandedOnStayOfThese(ts, us, going);
  }

  predicate StaysOrGoesTo(t: Task, u: Task, going: set<SessionId>) {
    u.id == t.id && (u.session == t.session || (u.session.Some? && u.session.value in going))
  }

  lemma {:induction false} HandedOnStayOfThese(ts: seq<Task>, us: seq<Task>, going: set<SessionId>)
    requires |us| == |ts| && forall k :: 0 <= k < |ts| ==> StaysOrGoesTo(ts[k], us[k], going)
    ensures OfThese(ts, going) <= OfThese(us, going)
  {
    forall id | id in OfThese(ts, going) ensures id in OfThese(us, going) {
      var k :| 0 <= k < |ts| && ts[k].session.Some? && ts[k].session.value in going && ts[k].id == id;
      assert StaysOrGoesTo(ts[k], us[k], going);
      assert us[k].session.Some? && us[k].session.value in going && us[k].id == id;
    }
  }

  lemma {:induction false} NothingHandedStrays(w: World, s: Step, good: set<TaskId>, at: Phase)
    requires Enabled(w, s) && s.Decides? && at == Next(w, s).threads[s.i].at
    requires forall id: TaskId :: PickedUp(w, s, id) > 0 ==> id in good
    ensures CarriesStrays(good)(at) == 0
  {
    if at.verdict.Started? {
      forall id | Times(at.verdict.tasks, id) > 0 ensures id in good {
        assert PickedUp(w, s, id) == Times(at.verdict.tasks, id);
      }
      NoneStray(at.verdict.tasks, good);
    }
  }

  lemma {:induction false} TimelyDecisionsGoFurther(w: World, s: Step)
    requires Enabled(w, s) && s.Decides? && Sound(w.backlog) && w.threads[s.i].at.held.id in Going(w.sessions)
    ensures Further(WayToGo(Next(w, s)), WayToGo(w))
  {
    var going := Going(w.sessions);
    var good, more := OfThese(w.backlog.tasks, going), OfThese(Next(w, s).backlog.tasks, going);
    var at := OneThreadMoves(w, s);
    var t := w.threads[s.i].(at := at);
    GoingStays(w, s);
    HandedAreOfIt(w, s, going);
    NothingHandedStrays(w, s, more, at);
    FewerStray(w.queue, good, more);
    FewerAreStrays(w.threads, good, more);
    WeighedAfterOne(w.threads, s.i, t, IsLate(going));
    WeighedAfterOne(w.threads, s.i, t, CarriesStrays(more));
    WeighedAfterOne(w.threads, s.i, t, NotStopping(going));
    WorkLeavesLess(w, s);
  }

  /** Every step the daemon takes by itself takes it further, whatever the vendor turns away. */
  lemma {:induction false} StepsLeaveLess(w: World, s: Step)
    requires Enabled(w, s) && Internal(s) && Sound(w.backlog) && SessionsSound(w)
    ensures Further(WayToGo(Next(w, s)), WayToGo(w))
  {
    if s.Decides? {
      if w.threads[s.i].at.held.id in Going(w.sessions) {
        TimelyDecisionsGoFurther(w, s);
      } else {
        LateDecisionsGoFurther(w, s);
      }
    } else if s.Stops? && w.threads[s.i].at.session in Going(w.sessions) {
      StoppingGoesFurther(w, s);
    } else {
      OthersGoFurther(w, s);
    }
  }

  // ---------------------------------------------------------------- how many runs can end

  function CarriedCount(at: Phase): nat {
    match at
    case Looking(_) => 1
    case Preparing(_) => 1
    case Working(_) => 1
    case Noting(_, _, Started(tasks)) => |tasks|
    case Queuing(tasks) => |tasks|
    case _ => 0
  }

  function CountAmong(threads: seq<Thread>, n: nat): nat
    requires n <= |threads|
  {
    if n == 0 then 0 else CountAmong(threads, n - 1) + CarriedCount(threads[n - 1].at)
  }

  /** The runs still to end: those being carried, and one for every task waiting. */
  function RunsAhead(w: World): nat {
    PendingIn(w) + |w.queue| + CountAmong(w.threads, |w.threads|)
  }

  function Endings(steps: seq<Step>): nat {
    if steps == [] then 0 else (if steps[0].Ends? then 1 else 0) + Endings(steps[1..])
  }

  lemma {:induction false} CountAfterOne(threads: seq<Thread>, i: nat, t: Thread, n: nat)
    requires i < |threads| && n <= |threads|
    ensures CountAmong(threads[i := t], n)
         == CountAmong(threads, n) + if i < n then CarriedCount(t.at) - CarriedCount(threads[i].at) else 0
  {
    if n > 0 {
      CountAfterOne(threads, i, t, n - 1);
    }
  }

  lemma MovingOnCarriesNoMore(w: World, s: Step)
    requires Enabled(w, s) && Internal(s) && !s.Decides? && OnItsOwn(s)
    ensures CarriedCount(Next(w, s).threads[s.i].at) + (if s.Ends? then 1 else 0) <= CarriedCount(w.threads[s.i].at)
  {
  }

  lemma {:induction false} WaitingAgainAddsOne(ts: seq<Task>, us: seq<Task>, at: nat, n: nat)
    requires n <= |ts| == |us|
    requires forall k :: 0 <= k < |ts| && k != at ==> (us[k].state.Pending? <==> ts[k].state.Pending?)
    ensures PendingAmong(us, n) <= PendingAmong(ts, n) + if at < n then 1 else 0
  {
    if n > 0 {
      WaitingAgainAddsOne(ts, us, at, n - 1);
    }
  }

  /** A run turned away is one fewer to carry, and its task one more that waits. */
  lemma {:induction false} TurningAwayAddsNoRun(w: World, s: Step)
    requires Enabled(w, s) && s.TurnsAway? && Sound(w.backlog)
    ensures PendingIn(Next(w, s)) <= PendingIn(w) + 1
    ensures CarriedCount(Next(w, s).threads[s.i].at) + 1 == CarriedCount(w.threads[s.i].at)
  {
    var ts, us, id := w.backlog.tasks, Next(w, s).backlog.tasks, w.threads[s.i].at.task;
    var recorded := Record(ts, id, s.consumed);
    forall k | 0 <= k < |ts| && k != IndexOf(ts, id) ensures us[k].state == ts[k].state {
      assert recorded[k].id == ts[k].id && recorded[k].state == ts[k].state;
      assert ts[k].id != ts[if IndexOf(ts, id) < |ts| then IndexOf(ts, id) else k].id || IndexOf(ts, id) == |ts|;
    }
    WaitingAgainAddsOne(ts, us, IndexOf(ts, id), |ts|);
  }

  lemma {:induction false} OthersUseUpRuns(w: World, s: Step)
    requires Enabled(w, s) && Internal(s) && !s.Decides? && !s.TurnsAway?
    ensures RunsAhead(Next(w, s)) + (if s.Ends? then 1 else 0) <= RunsAhead(w)
  {
    CountAfterOne(w.threads, s.i, Next(w, s).threads[s.i], |w.threads|);
    OnlyDecidingTakesPending(w, s);
    if OnItsOwn(s) {
      MovingOnCarriesNoMore(w, s);
      BesidesTheThread(w, s);
    }
  }

  lemma {:induction false} EndingsUseUpRuns(w: World, s: Step)
    requires Enabled(w, s) && Internal(s) && Sound(w.backlog)
    ensures RunsAhead(Next(w, s)) + (if s.Ends? then 1 else 0) <= RunsAhead(w)
  {
    if s.Decides? || s.TurnsAway? {
      CountAfterOne(w.threads, s.i, Next(w, s).threads[s.i], |w.threads|);
      BesidesTheThread(w, s);
      if s.Decides? {
        DecidingUsesUpPending(w, s);
      } else {
        TurningAwayAddsNoRun(w, s);
      }
    } else {
      OthersUseUpRuns(w, s);
    }
  }

  // ---------------------------------------------------------------- how many runs can be turned away

  function TurnedAways(steps: seq<Step>): nat {
    if steps == [] then 0 else (if steps[0].TurnsAway? then 1 else 0) + TurnedAways(steps[1..])
  }

  lemma {:induction false} WeighsAtMost(threads: seq<Thread>, weight: Phase -> nat)
    requires forall at :: weight(at) <= 1
    ensures Weighed(threads, weight) <= |threads|
  {
    if threads != [] {
      WeighsAtMost(threads[..|threads| - 1], weight);
    }
  }

  lemma {:induction false} StraysAreAmongThem(ids: seq<TaskId>, good: set<TaskId>)
    ensures StrayIds(ids, good) <= |ids|
  {
    if ids != [] {
      StraysAreAmongThem(ids[1..], good);
    }
  }

  lemma {:induction false} StraysAreCarried(threads: seq<Thread>, good: set<TaskId>, n: nat)
    requires n <= |threads|
    ensures Weighed(threads[..n], CarriesStrays(good)) <= CountAmong(threads, n)
  {
    if n > 0 {
      StraysAreCarried(threads, good, n - 1);
      assert threads[..n][..n - 1] == threads[..n - 1];
      match threads[n - 1].at
      case Noting(_, _, Started(tasks)) => StraysAreAmongThem(tasks, good);
      case Queuing(tasks) => StraysAreAmongThem(tasks, good);
      case _ =>
    }
  }

  predicate InReach(way: Way, threads: nat, runs: nat) {
    way.going <= 1 && way.late <= threads && way.strays <= runs && way.unstopping <= threads
  }

  lemma {:induction false} EveryWayIsInReach(w: World, runs: nat)
    requires RunsAhead(w) <= runs
    ensures InReach(WayToGo(w), |w.threads|, runs)
  {
    var going := Going(w.sessions);
    var good := OfThese(w.backlog.tasks, going);
    WeighsAtMost(w.threads, IsLate(going));
    WeighsAtMost(w.threads, NotStopping(going));
    StraysAreAmongThem(w.queue, good);
    StraysAreCarried(w.threads, good, |w.threads|);
    assert w.threads[..|w.threads|] == w.threads;
  }

  /** The way to go but for what there is to do, as one number. */
  function TurnsLeft(way: Way, threads: nat, runs: nat): nat {
    ((way.going * (threads + 1) + way.late) * (runs + 1) + way.strays) * (threads + 1) + way.unstopping
  }

  lemma {:induction false} FirstDigitCounts(a: nat, b: nat, c: nat, d: nat, base: nat)
    requires a < b && c < base
    ensures a * base + c < b * base + d
  {
    assert (a + 1) * base == a * base + base;
    ProductRises(a + 1, b, base);
  }

  lemma {:induction false} TurningFurtherLeavesFewer(one: Way, another: Way, threads: nat, runs: nat)
    requires InReach(one, threads, runs) && TurnedFurther(one, another)
    ensures TurnsLeft(one, threads, runs) < TurnsLeft(another, threads, runs)
  {
    var a, b := one.going * (threads + 1) + one.late, another.going * (threads + 1) + another.late;
    var c, d := a * (runs + 1) + one.strays, b * (runs + 1) + another.strays;
    if one.going < another.going {
      FirstDigitCounts(one.going, another.going, one.late, another.late, threads + 1);
    }
    if a < b {
      FirstDigitCounts(a, b, one.strays, another.strays, runs + 1);
    }
    if c < d {
      FirstDigitCounts(c, d, one.unstopping, another.unstopping, threads + 1);
    }
  }

  /** The most there can be to do, with so many runs ahead and so many threads. */
  function MostToDo(threads: nat, runs: nat): nat {
    13 * runs + 10 * threads
  }

  lemma {:induction false} AheadIsBounded(threads: seq<Thread>, n: nat)
    requires n <= |threads|
    ensures AheadAmong(threads, n) <= 10 * n + 12 * CountAmong(threads, n)
  {
    if n > 0 {
      AheadIsBounded(threads, n - 1);
    }
  }

  lemma {:induction false} NoMoreThanTheMost(w: World, runs: nat)
    requires RunsAhead(w) <= runs
    ensures LeftToDo(w) <= MostToDo(|w.threads|, runs)
  {
    AheadIsBounded(w.threads, |w.threads|);
  }

  /** One number, of which the first counts more than the most the last can be. */
  function Counting(first: nat, most: nat, last: nat): nat {
    first * (most + 1) + last
  }

  /** Everything there is left for the daemon to do by itself, whatever the vendor turns away. */
  function StepsLeft(w: World, runs: nat): nat {
    Counting(TurnsLeft(WayToGo(w), |w.threads|, runs), MostToDo(|w.threads|, runs), LeftToDo(w))
  }

  // ---------------------------------------------------------------- something can always move

  /** The first of the worker threads is one; there is at least one hand. */
  predicate HasHands(w: World) {
    w.threads != [] && w.threads[0].hand
  }

  /** A thread that is not idle has a step to take, whatever anybody answers it. */
  lemma BusyThreadsCanMove(w: World, j: nat) returns (s: Step)
    requires j < |w.threads| && !w.threads[j].at.Idle?
    ensures Enabled(w, s) && Internal(s)
  {
    match w.threads[j].at
    case Looking(_) => s := Looks(j);
    case Preparing(_) => s := Prepares(j, "");
    case Working(_) => s := Ends(j, TaskState.Error, Some(""), None, NotYet, 0);
    case Measuring(_) => s := Measures(j);
    case Asking(_) => s := Asks(j, None, 0);
    case Deferring(_, _) => s := Reads(j);
    case Deciding(_, _) => s := Decides(j, Figures(Sizings.Sizings(map[], None), Sizings.Sizings(map[], None)), 0);
    case Noting(_, _, _) => s := Notes(j, 0);
    case Queuing(_) => s := Queues(j);
    case Resetting(_) => s := Resets(j, None);
    case Stopping(_, _) => s := Stops(j, 0);
    case Cutting(_, _) => s := Step.Cuts(j, 0);
  }

  lemma {:induction false} CarryingThreadsAreBusy(threads: seq<Thread>, n: nat, id: TaskId) returns (j: nat)
    requires n <= |threads| && CarriedAmong(threads, n, id) > 0
    ensures j < n && !threads[j].at.Idle?
  {
    if CarriedBy(threads[n - 1].at, id) > 0 {
      j := n - 1;
    } else {
      j := CarryingThreadsAreBusy(threads, n - 1, id);
    }
  }

  /** While a session is running, some thread can take a step. */
  lemma SomethingCanMove(w: World, i: nat) returns (s: Step)
    requires Kept(w) && HasHands(w) && i < |w.sessions| && w.sessions[i].state.Running?
    ensures Enabled(w, s) && Internal(s)
  {
    var session := w.sessions[i].id;
    if j :| 0 <= j < |w.threads| && Owes(w.threads[j].at, session) {
      s := BusyThreadsCanMove(w, j);
    } else {
      var k :| 0 <= k < |w.backlog.tasks| && w.backlog.tasks[k].RunsFor(session);
      if !w.threads[0].at.Idle? {
        s := BusyThreadsCanMove(w, 0);
      } else if w.queue != [] {
        s := Takes(0);
      } else {
        var j := CarryingThreadsAreBusy(w.threads, |w.threads|, w.backlog.tasks[k].id);
        s := BusyThreadsCanMove(w, j);
      }
    }
  }

  // ---------------------------------------------------------------- over whole runs

  lemma StepsKeepHands(w: World, s: Step)
    requires Enabled(w, s) && HasHands(w)
    ensures HasHands(Next(w, s))
  {
  }

  lemma {:induction false} RunsKeepHands(w: World, steps: seq<Step>)
    requires CanRun(w, steps) && HasHands(w)
    ensures HasHands(Ran(w, steps))
    decreases steps
  {
    if steps != [] {
      StepsKeepHands(w, steps[0]);
      RunsKeepHands(Next(w, steps[0]), steps[1..]);
    }
  }

  lemma {:induction false} StepsAreCounted(w: World, s: Step, runs: nat)
    requires Enabled(w, s) && Internal(s) && Sound(w.backlog) && SessionsSound(w) && RunsAhead(w) <= runs
    ensures |Next(w, s).threads| == |w.threads| && RunsAhead(Next(w, s)) <= runs
    ensures var n := |w.threads|;
            TurnsLeft(WayToGo(Next(w, s)), n, runs) + (if s.TurnsAway? then 1 else 0) <= TurnsLeft(WayToGo(w), n, runs)
    ensures StepsLeft(Next(w, s), runs) < StepsLeft(w, runs)
  {
    var at := OneThreadMoves(w, s);
    EndingsUseUpRuns(w, s);
    StepsLeaveLess(w, s);
    EveryWayIsInReach(Next(w, s), runs);
    NoMoreThanTheMost(Next(w, s), runs);
    Counted(WayToGo(Next(w, s)), WayToGo(w), |w.threads|, runs);
    if s.TurnsAway? {
      TurningAwayTurnsFurther(w, s);
    }
  }

  lemma {:induction false} Counted(one: Way, another: Way, threads: nat, runs: nat)
    requires InReach(one, threads, runs) && Further(one, another) && one.toDo <= MostToDo(threads, runs)
    ensures TurnedFurther(one, another) ==> TurnsLeft(one, threads, runs) < TurnsLeft(another, threads, runs)
    ensures TurnsLeft(one, threads, runs) <= TurnsLeft(another, threads, runs)
    ensures Counting(TurnsLeft(one, threads, runs), MostToDo(threads, runs), one.toDo)
          < Counting(TurnsLeft(another, threads, runs), MostToDo(threads, runs), another.toDo)
  {
    if TurnedFurther(one, another) {
      TurningFurtherLeavesFewer(one, another, threads, runs);
      FirstDigitCounts(TurnsLeft(one, threads, runs), TurnsLeft(another, threads, runs), one.toDo, another.toDo,
                       MostToDo(threads, runs) + 1);
    }
  }

  lemma {:induction false} TurningAwayTurnsFurther(w: World, s: Step)
    requires Enabled(w, s) && s.TurnsAway? && Sound(w.backlog) && SessionsSound(w)
    ensures TurnedFurther(WayToGo(Next(w, s)), WayToGo(w))
  {
    var going := Going(w.sessions);
    var good := OfThese(w.backlog.tasks, going);
    var at := OneThreadMoves(w, s);
    OthersGoNoFurtherBack(w, s, going, good, at);
    TurningAwayGoesFurther(w, s, going, good, at);
  }

  lemma {:induction false} RunsAreBounded(w: World, steps: seq<Step>, runs: nat)
    requires CanRun(w, steps) && AllInternal(steps) && Sound(w.backlog) && SessionsSound(w) && RunsAhead(w) <= runs
    ensures |steps| + StepsLeft(Ran(w, steps), runs) <= StepsLeft(w, runs)
    ensures TurnedAways(steps) <= TurnsLeft(WayToGo(w), |w.threads|, runs)
    ensures Endings(steps) + RunsAhead(Ran(w, steps)) <= RunsAhead(w)
    decreases steps
  {
    if steps != [] {
      var s := steps[0];
      StepsAreCounted(w, s, runs);
      EndingsUseUpRuns(w, s);
      BacklogStaysSound(w, s);
      SessionsStaySound(w, s);
      RunsAreBounded(Next(w, s), steps[1..], runs);
    }
  }

  /** A session ends. Take the daemon anywhere it can be, and let it go on by itself in any order, whatever
      the vendor turns away: it takes no more steps than there are left, no more runs are turned away than
      there are turns left, no more end than were waiting or being carried, and where it can go no further no
      session is running. */
  lemma {:induction false} EverySessionStops(atOnce: nat, policy: Policy, before: seq<Step>, steps: seq<Step>)
    requires atOnce > 0 && CanRun(NewDaemon(atOnce, policy), before)
    requires CanRun(Ran(NewDaemon(atOnce, policy), before), steps) && AllInternal(steps)
    ensures var w := Ran(NewDaemon(atOnce, policy), before);
            var v := Ran(w, steps);
            && |steps| <= StepsLeft(w, RunsAhead(w))
            && TurnedAways(steps) <= TurnsLeft(WayToGo(w), |w.threads|, RunsAhead(w))
            && Endings(steps) <= RunsAhead(w)
            && ((forall s :: Internal(s) ==> !Enabled(v, s)) ==>
                  forall i :: 0 <= i < |v.sessions| ==> v.sessions[i].state.Stopped?)
  {
    var w0 := NewDaemon(atOnce, policy);
    var w := Ran(w0, before);
    var v := Ran(w, steps);
    ADaemonStartsKept(atOnce, policy);
    RunsKeep(w0, before);
    RunsKeep(w, steps);
    RunsKeepHands(w0, before);
    RunsKeepHands(w, steps);
    RunsAreBounded(w, steps, RunsAhead(w));
    forall i | 0 <= i < |v.sessions| && v.sessions[i].state.Running?
      ensures exists s :: Internal(s) && Enabled(v, s)
    {
      var s := SomethingCanMove(v, i);
    }
  }
}
