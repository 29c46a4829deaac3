/** No session sits idle: whatever order the holds come in, a running session has a task running, or
    somebody who owes it a decision, or a stop on its way; and every running task has a run being
    carried. */
module NoIdle {
  import opened Wrappers
  import opened Numbers
  import opened Spendings
  import opened Tasks
  import opened Graph
  import opened Closure
  import opened SessionValues
  import opened Decisions
  import opened Settling
  import opened Protocol
  import opened Steps

  // ---------------------------------------------------------------- what is known of the numbers in flight

  /** The session a thread is at, if it is at one. */
  function Names(at: Phase): Option<SessionId> {
    match at
    case Measuring(session) => Some(session)
    case Asking(session) => Some(session)
    case Deferring(session, _) => Some(session)
    case Deciding(held, _) => Some(held.id)
    case Noting(session, _, _) => Some(session)
    case Resetting(session) => Some(session)
    case Stopping(session, _) => Some(session)
    case Cutting(session, _) => Some(session)
    case _ => None
  }

  predicate Known(ss: seq<Session>, session: Option<SessionId>) {
    session.Some? ==> Keeps(ss, session.value)
  }

  predicate TasksKnown(w: World) {
    forall k :: 0 <= k < |w.backlog.tasks| ==> Known(w.sessions, w.backlog.tasks[k].session)
  }

  /** A thread's session is on the list, was read from it as it stands, and is stopped before its tasks are cut. */
  predicate PhaseKnown(ss: seq<Session>, at: Phase) {
    && Known(ss, Names(at))
    && (at.Cutting? ==> !Runs(ss, at.session))
    && (at.Deciding? ==> HeldAs(ss, at.held.id).budget == at.held.budget)
  }

  predicate ThreadsKnown(w: World) {
    forall j :: 0 <= j < |w.threads| ==> PhaseKnown(w.sessions, w.threads[j].at)
  }

  lemma KnownStays(ss: seq<Session>, us: seq<Session>, session: Option<SessionId>)
    requires Grown(ss, us) && Known(ss, session)
    ensures Known(us, session)
  {
    if session.Some? {
      GrownFinds(ss, us, session.value);
    }
  }

  lemma PhaseKnownStays(ss: seq<Session>, us: seq<Session>, at: Phase)
    requires Grown(ss, us) && PhaseKnown(ss, at)
    ensures PhaseKnown(us, at)
  {
    if Names(at).Some? {
      GrownFinds(ss, us, Names(at).value);
    }
  }

  /** What a task keeps when another one's run ends, and when its own does. */
  predicate LeftBy(t: Task, u: Task, id: TaskId) {
    && u.id == t.id && u.session == t.session && u.after == t.after && u.ceiling == t.ceiling
    && (t.id != id ==> u.state == t.state) && (u.state.Running? ==> t.state.Running?)
  }

  lemma EndedLeaves(ts: seq<Task>, id: TaskId, state: TaskState, reason: Option<string>, conversation: Option<string>,
                    consumed: Observation, now: U64, at: nat)
    requires at < |ts| && state.Ended()
    ensures LeftBy(ts[at], Ended(ts, id, state, reason, conversation, consumed, now)[at], id)
  {
    var finished := Finish(ts, id, state, reason, now);
    var recorded := Record(finished, id, consumed);
    assert LeftBy(ts[at], finished[at], id);
    assert recorded[at] == finished[at].(consumed := recorded[at].consumed);
  }

  lemma TurnedAwayLeaves(ts: seq<Task>, id: TaskId, consumed: Observation, now: U64, at: nat)
    requires at < |ts|
    ensures LeftBy(ts[at], TurnedAway(ts, id, consumed, now)[at], id)
  {
    var recorded := Record(ts, id, consumed);
    assert recorded[at] == ts[at].(consumed := recorded[at].consumed);
  }

  /** A worker's step leaves the sessions of tasks, and every state but that of the task it is at. */
  lemma WorkersLeaveOthers(w: World, s: Step, at: nat)
    requires Enabled(w, s) && (s.Ends? || s.TurnsAway?) && at < |w.backlog.tasks|
    ensures |Next(w, s).backlog.tasks| == |w.backlog.tasks|
    ensures LeftBy(w.backlog.tasks[at], Next(w, s).backlog.tasks[at], w.threads[s.i].at.task)
  {
    var ts, id := w.backlog.tasks, w.threads[s.i].at.task;
    if s.Ends? {
      EndedLeaves(ts, id, s.state, s.reason, s.conversation, s.consumed, s.now, at);
    } else {
      TurnedAwayLeaves(ts, id, s.consumed, s.now, at);
    }
  }

  lemma WorkersKeepTheGraph(w: World, s: Step)
    requires Enabled(w, s) && (s.Ends? || s.TurnsAway?)
    ensures SameGraph(w.backlog.tasks, Next(w, s).backlog.tasks)
  {
    forall at | 0 <= at < |w.backlog.tasks|
      ensures LeftBy(w.backlog.tasks[at], Next(w, s).backlog.tasks[at], w.threads[s.i].at.task)
    {
      WorkersLeaveOthers(w, s, at);
    }
  }

  /** Where a task of the next backlog was before, and the session it is in. */
  lemma WhereATaskWas(w: World, s: Step, k: nat) returns (was: nat)
    requires Enabled(w, s) && !s.Decides? && k < |Next(w, s).backlog.tasks|
    requires !(s.Commands? && s.command.Register? && k == |w.backlog.tasks|)
    ensures was < |w.backlog.tasks|
    ensures Next(w, s).backlog.tasks[k].id == w.backlog.tasks[was].id
    ensures Next(w, s).backlog.tasks[k].session == w.backlog.tasks[was].session
    ensures !(s.Commands? && s.command.Remove?) ==> was == k
    ensures s.Commands? && s.command.Remove? ==> Next(w, s).backlog.tasks[k].state == w.backlog.tasks[was].state
  {
    was := k;
    if s.Commands? && s.command.Remove? && Next(w, s).backlog != w.backlog {
      was := Before(IndexOf(w.backlog.tasks, s.command.id), k);
    } else if s.Ends? || s.TurnsAway? {
      WorkersLeaveOthers(w, s, k);
    }
  }

  lemma {:induction false} AssignedTo(ts: seq<Task>, allowed: seq<Allowance>, to: SessionId, now: U64,
                                      fallback: Option<string>, k: nat)
    requires k < |ts|
    ensures var us := AssignAll(ts, allowed, to, now, fallback).0;
            us[k].session == ts[k].session || us[k].session == Some(to)
  {
    if allowed != [] {
      AssignedTo(ts, allowed[..|allowed| - 1], to, now, fallback, k);
    }
  }

  lemma TasksStayKnown(w: World, s: Step)
    requires Enabled(w, s) && TasksKnown(w) && ThreadsKnown(w)
    ensures TasksKnown(Next(w, s))
  {
    SessionsOnlyGrow(w, s);
    var ts, us := w.backlog.tasks, Next(w, s).backlog.tasks;
    forall k | 0 <= k < |us| ensures Known(Next(w, s).sessions, us[k].session) {
      if s.Commands? && s.command.Register? && k == |ts| {
      } else if s.Decides? {
        var held, read := w.threads[s.i].at.held, w.threads[s.i].at.read;
        var decision := Judged(ts, held, read, s.before, w.policy, s.now);
        if decision.Start? {
          AssignedTo(ts, Taken(ts, held, decision.allowed, w.atOnce), held.id, s.now, held.model, k);
        }
        assert PhaseKnown(w.sessions, w.threads[s.i].at);
        KnownStays(w.sessions, Next(w, s).sessions, us[k].session);
      } else {
        var was := WhereATaskWas(w, s, k);
        KnownStays(w.sessions, Next(w, s).sessions, ts[was].session);
      }
    }
  }

  lemma WorkerMovesToAKnownPhase(w: World, s: Step)
    requires Enabled(w, s) && (s.Ends? || s.TurnsAway?)
    requires TasksKnown(w) && ThreadsKnown(w)
    ensures PhaseKnown(Next(w, s).sessions, Next(w, s).threads[s.i].at)
  {
    TasksStayKnown(w, s);
    var us, id := Next(w, s).backlog.tasks, w.threads[s.i].at.task;
    if Has(us, id) {
      assert Known(w.sessions, us[IndexOf(us, id)].session);
    }
  }

  lemma HaltedNoLongerRuns(ss: seq<Session>, id: SessionId, why: StoppedReason, now: U64)
    ensures !Runs(Halt(ss, id, why, now), id)
  {
  }

  predicate Decider(s: Step) {
    s.Measures? || s.Asks? || s.Reads? || s.Decides? || s.Notes? || s.Resets? || s.Stops?
  }

  /** Whoever is at a session stays at it until done with it. */
  lemma StaysAtItsSession(w: World, s: Step)
    requires Enabled(w, s) && Decider(s)
    ensures Names(w.threads[s.i].at).Some?
    ensures var at := Next(w, s).threads[s.i].at;
            && (Names(at).Some? ==> Names(at) == Names(w.threads[s.i].at))
            && (at.Cutting? ==> s.Stops?)
            && (at.Deciding?
                ==> s.Reads? && at.held == HeldAs(w.sessions, at.held.id) && Next(w, s).sessions == w.sessions)
  {
  }

  lemma StoppingStops(w: World, s: Step)
    requires Enabled(w, s) && s.Stops?
    ensures !Runs(Next(w, s).sessions, w.threads[s.i].at.session)
  {
    HaltedNoLongerRuns(w.sessions, w.threads[s.i].at.session, w.threads[s.i].at.why, s.now);
  }

  lemma DeciderMovesToAKnownPhase(w: World, s: Step)
    requires Enabled(w, s) && Decider(s) && ThreadsKnown(w)
    ensures PhaseKnown(Next(w, s).sessions, Next(w, s).threads[s.i].at)
  {
    SessionsOnlyGrow(w, s);
    StaysAtItsSession(w, s);
    assert PhaseKnown(w.sessions, w.threads[s.i].at);
    GrownFinds(w.sessions, Next(w, s).sessions, Names(w.threads[s.i].at).value);
    if s.Stops? {
      StoppingStops(w, s);
    }
  }

  /** The phase a thread moves to is known where the one it leaves was. */
  lemma MovesToAKnownPhase(w: World, s: Step)
    requires Enabled(w, s) && !s.Commands? && !s.Opens? && !s.AsksToStop?
    requires TasksKnown(w) && ThreadsKnown(w)
    ensures s.i < |w.threads| && PhaseKnown(Next(w, s).sessions, Next(w, s).threads[s.i].at)
  {
    if s.Ends? || s.TurnsAway? {
      WorkerMovesToAKnownPhase(w, s);
    } else if Decider(s) {
      DeciderMovesToAKnownPhase(w, s);
    }
  }

  lemma ThreadsStayKnown(w: World, s: Step)
    requires Enabled(w, s) && TasksKnown(w) && ThreadsKnown(w) && SessionsSound(w)
    ensures ThreadsKnown(Next(w, s))
  {
    SessionsOnlyGrow(w, s);
    forall j | 0 <= j < |Next(w, s).threads| ensures PhaseKnown(Next(w, s).sessions, Next(w, s).threads[j].at) {
      if !s.Commands? && !s.Opens? && !s.AsksToStop? && j == s.i {
        MovesToAKnownPhase(w, s);
      } else if j < |w.threads| {
        assert Next(w, s).threads[j] == w.threads[j];
        PhaseKnownStays(w.sessions, Next(w, s).sessions, w.threads[j].at);
      } else if s.Opens? {
        assert Next(w, s).sessions[|w.sessions|].id == w.nextSession;
      }
    }
  }

  // ---------------------------------------------------------------- every running task is carried

  predicate AllCarried(w: World) {
    forall k :: 0 <= k < |w.backlog.tasks| && w.backlog.tasks[k].state.Running?
      ==> Carried(w, w.backlog.tasks[k].id) > 0
  }

  /** The task a worker's step ends, where it ends one. */
  predicate EndsTheRunOf(w: World, s: Step, id: TaskId) {
    (s.Ends? || s.TurnsAway?) && s.i < |w.threads|
    && (w.threads[s.i].at.Preparing? || w.threads[s.i].at.Working?) && w.threads[s.i].at.task == id
  }

  /** Only a decision starts a task. What runs after any other step ran before it, for the same
      session, and is not the task whose run that step ended. */
  lemma NothingElseStartsOne(w: World, s: Step, k: nat) returns (was: nat)
    requires Enabled(w, s) && !s.Decides? && k < |Next(w, s).backlog.tasks|
    requires Next(w, s).backlog.tasks[k].state.Running?
    ensures was < |w.backlog.tasks| && w.backlog.tasks[was].state.Running?
    ensures Next(w, s).backlog.tasks[k].id == w.backlog.tasks[was].id
    ensures !EndsTheRunOf(w, s, w.backlog.tasks[was].id)
  {
    was := WhereATaskWas(w, s, k);
    if s.Ends? {
      var id := w.threads[s.i].at.task;
      var finished := Finish(w.backlog.tasks, id, s.state, s.reason, s.now);
      assert Record(finished, id, s.consumed)[was].state == finished[was].state;
    } else if s.TurnsAway? {
      assert Record(w.backlog.tasks, w.threads[s.i].at.task, s.consumed)[was].state == w.backlog.tasks[was].state;
    }
  }

  /** A step puts down only runs it ended, or that were no longer running. */
  lemma OnlyPutsDownWhatIsOver(w: World, s: Step, at: nat)
    requires Enabled(w, s) && Distinct(w.backlog.tasks)
    requires at < |w.backlog.tasks| && w.backlog.tasks[at].state.Running?
    requires !EndsTheRunOf(w, s, w.backlog.tasks[at].id)
    ensures PutDown(w, s, w.backlog.tasks[at].id) == 0
  {
    assert IndexOf(w.backlog.tasks, w.backlog.tasks[at].id) == at;
  }

  lemma {:induction false} NamedContains(allowed: seq<Allowance>, k: nat)
    requires k < |allowed|
    ensures Times(Named(allowed), allowed[k].task) > 0
  {
    if k < |allowed| - 1 {
      NamedContains(allowed[..|allowed| - 1], k);
    }
  }

  lemma WhatDecidingDoes(w: World, s: Step, us: seq<Task>, verdict: Verdict)
    requires Enabled(w, s) && s.Decides?
    requires (us, verdict)
          == Settle(w.backlog.tasks, w.threads[s.i].at.held, w.threads[s.i].at.read, s.before, w.policy, s.now,
                    w.atOnce)
    ensures Next(w, s).backlog.tasks == us
    ensures Next(w, s).threads[s.i].at.Noting? && Next(w, s).threads[s.i].at.verdict == verdict
  {
  }

  lemma SettlingHandsOver(ts: seq<Task>, held: Session, read: Option<Measured>, before: Figures, policy: Policy,
                          now: U64, atOnce: nat)
    returns (taken: seq<Allowance>)
    requires Distinct(ts)
    ensures HandsOver(ts, Settle(ts, held, read, before, policy, now, atOnce).0, taken, held.id, now, held.model)
    ensures StillWaiting(ts, taken)
    ensures var verdict := Settle(ts, held, read, before, policy, now, atOnce).1;
            if verdict.Started? then verdict.tasks == Named(taken) else taken == []
  {
    if Judged(ts, held, read, before, policy, now).Start? {
      taken := SettlingStartsWhatFits(ts, held, read, before, policy, now, atOnce);
    } else {
      taken := [];
    }
  }

  /** What a decision hands over, and that its thread picks up exactly that. */
  lemma WhatADecisionHandsOver(w: World, s: Step, id: TaskId) returns (taken: seq<Allowance>)
    requires Enabled(w, s) && s.Decides? && Distinct(w.backlog.tasks)
    ensures var held := w.threads[s.i].at.held;
            HandsOver(w.backlog.tasks, Next(w, s).backlog.tasks, taken, held.id, s.now, held.model)
    ensures StillWaiting(w.backlog.tasks, taken)
    ensures PickedUp(w, s, id) == Times(Named(taken), id)
  {
    var held, read := w.threads[s.i].at.held, w.threads[s.i].at.read;
    taken := SettlingHandsOver(w.backlog.tasks, held, read, s.before, w.policy, s.now, w.atOnce);
  }

  lemma HandedOverIsNamed(ts: seq<Task>, us: seq<Task>, taken: seq<Allowance>, to: SessionId, now: U64,
                          fallback: Option<string>, k: nat)
    requires Distinct(ts) && HandsOver(ts, us, taken, to, now, fallback) && StillWaiting(ts, taken) && k < |ts|
    ensures |us| == |ts| && us[k].id == ts[k].id
    ensures us[k] == ts[k] || (ts[k].state.Pending? && Times(Named(taken), ts[k].id) > 0)
  {
    var at := NamedAt(taken, ts[k].id);
    if at < |taken| {
      NamedContains(taken, at);
      assert IndexOf(ts, taken[at].task) == k;
    }
  }

  /** What a decision does to one task: nothing, or it hands it over and picks its run up. */
  lemma DecidingCarriesWhatItStarts(w: World, s: Step, k: nat)
    requires Enabled(w, s) && s.Decides? && Distinct(w.backlog.tasks) && k < |w.backlog.tasks|
    ensures |Next(w, s).backlog.tasks| == |w.backlog.tasks|
    ensures Next(w, s).backlog.tasks[k].id == w.backlog.tasks[k].id
    ensures Next(w, s).backlog.tasks[k] == w.backlog.tasks[k]
            || (w.backlog.tasks[k].state.Pending? && PickedUp(w, s, w.backlog.tasks[k].id) > 0)
  {
    var held := w.threads[s.i].at.held;
    var taken := WhatADecisionHandsOver(w, s, w.backlog.tasks[k].id);
    HandedOverIsNamed(w.backlog.tasks, Next(w, s).backlog.tasks, taken, held.id, s.now, held.model, k);
  }

  lemma RunningTasksStayCarried(w: World, s: Step)
    requires Enabled(w, s) && Distinct(w.backlog.tasks) && AllCarried(w)
    ensures AllCarried(Next(w, s))
  {
    var us := Next(w, s).backlog.tasks;
    forall k | 0 <= k < |us| && us[k].state.Running? ensures Carried(Next(w, s), us[k].id) > 0 {
      WhatAStepCarries(w, s, us[k].id);
      if s.Decides? {
        DecidingCarriesWhatItStarts(w, s, k);
      } else {
        var was := NothingElseStartsOne(w, s, k);
        OnlyPutsDownWhatIsOver(w, s, was);
      }
    }
  }

  // ---------------------------------------------------------------- every running session is attended

  /** A thread that will decide for the session, or stop it. */
  predicate Owes(at: Phase, session: SessionId) {
    match at
    case Measuring(id) => id == session
    case Asking(id) => id == session
    case Deferring(id, _) => id == session
    case Deciding(held, _) => held.id == session
    case Noting(id, _, verdict) => id == session && verdict.Halting?
    case Resetting(id) => id == session
    case Stopping(id, _) => id == session
    case _ => false
  }

  predicate SomethingRunsFor(w: World, session: SessionId) {
    exists k :: 0 <= k < |w.backlog.tasks| && w.backlog.tasks[k].RunsFor(session)
  }

  predicate SomebodyOwes(w: World, session: SessionId) {
    exists j :: 0 <= j < |w.threads| && Owes(w.threads[j].at, session)
  }

  predicate Attended(w: World, session: SessionId) {
    SomethingRunsFor(w, session) || SomebodyOwes(w, session)
  }

  predicate AllAttended(w: World) {
    forall i :: 0 <= i < |w.sessions| && w.sessions[i].state.Running? ==> Attended(w, w.sessions[i].id)
  }

  /** Whoever owes a running session something still does after its own step, or started a task for it. */
  lemma OwingPassesOn(w: World, s: Step, session: SessionId)
    requires Enabled(w, s) && OnItsOwn(s) && Owes(w.threads[s.i].at, session)
    requires Runs(Next(w, s).sessions, session) && Runs(w.sessions, session)
    requires SessionsSound(w) && Distinct(w.backlog.tasks) && w.atOnce > 0
    ensures Owes(Next(w, s).threads[s.i].at, session) || SomethingRunsFor(Next(w, s), session)
  {
    if s.Stops? {
      StoppingStops(w, s);
    } else if s.Decides? {
      var held, read := w.threads[s.i].at.held, w.threads[s.i].at.read;
      StartingIsGoing(w.backlog.tasks, held, read, s.before, w.policy, s.now, w.atOnce);
    }
  }

  lemma StartingIsGoing(ts: seq<Task>, held: Session, read: Option<Measured>, before: Figures, policy: Policy, now: U64,
                        atOnce: nat)
    requires Distinct(ts) && atOnce > 0
    ensures var (us, verdict) := Settle(ts, held, read, before, policy, now, atOnce);
            verdict.Started? ==> exists k :: 0 <= k < |us| && us[k].RunsFor(held.id)
  {
    if Judged(ts, held, read, before, policy, now).Start? {
      var _ := SettlingStartsWhatFits(ts, held, read, before, policy, now, atOnce);
      SomethingRuns(Settle(ts, held, read, before, policy, now, atOnce).0, held.id, |ts|);
    }
  }

  /** A task running for a session that runs on still runs after a step, or the worker whose run of it
      ended owes the session what comes next. */
  lemma RunningPassesOn(w: World, s: Step, session: SessionId, at: nat)
    requires Enabled(w, s) && at < |w.backlog.tasks| && w.backlog.tasks[at].RunsFor(session)
    requires Runs(w.sessions, session) && ThreadsKnown(w) && Distinct(w.backlog.tasks)
    ensures SomethingRunsFor(Next(w, s), session)
            || (OnItsOwn(s) && s.i < |w.threads| && Owes(Next(w, s).threads[s.i].at, session))
  {
    var ts, us := w.backlog.tasks, Next(w, s).backlog.tasks;
    match s
    case Commands(c) => RunningOutlivesCommands(w.backlog, c, session, at);
    case Ends(i, _, _, _, _, _) => EndedOrStillRunning(w, s, session, at);
    case TurnsAway(i, _, _) => EndedOrStillRunning(w, s, session, at);
    case Decides(i, _, _) =>
      DecidingCarriesWhatItStarts(w, s, at);
      assert us[at].RunsFor(session);
    case Cuts(i, _) =>
      assert PhaseKnown(w.sessions, w.threads[i].at);
      assert us[at].RunsFor(session);
    case Opens(_, _, _, _) =>
    case _ => assert us[at].RunsFor(session);
  }

  lemma RunningOutlivesCommands(b: Shelf, c: Command, session: SessionId, at: nat)
    requires FromAPerson(c) && at < |b.tasks| && b.tasks[at].RunsFor(session) && Distinct(b.tasks)
    ensures exists k :: 0 <= k < |Apply(b, c).tasks| && Apply(b, c).tasks[k].RunsFor(session)
  {
    var us := Apply(b, c).tasks;
    if c.Remove? && Apply(b, c) != b {
      var gone := IndexOf(b.tasks, c.id);
      var k := if at < gone then at else at - 1;
      assert us[k].RunsFor(session);
    } else {
      assert us[at].RunsFor(session);
    }
  }

  lemma EndedOrStillRunning(w: World, s: Step, session: SessionId, at: nat)
    requires Enabled(w, s) && (s.Ends? || s.TurnsAway?) && at < |w.backlog.tasks|
    requires w.backlog.tasks[at].RunsFor(session)
    requires Distinct(w.backlog.tasks)
    ensures SomethingRunsFor(Next(w, s), session) || Owes(Next(w, s).threads[s.i].at, session)
  {
    var ts, us, id := w.backlog.tasks, Next(w, s).backlog.tasks, w.threads[s.i].at.task;
    WorkersLeaveOthers(w, s, at);
    WorkersKeepTheGraph(w, s);
    if ts[at].id == id {
      SameGraphFinds(ts, us, id);
      assert IndexOf(ts, id) == at;
    } else {
      assert us[at].RunsFor(session);
    }
  }

  lemma SessionsStayAttended(w: World, s: Step)
    requires Enabled(w, s) && AllAttended(w) && w.atOnce > 0
    requires SessionsSound(w) && Distinct(w.backlog.tasks) && ThreadsKnown(w)
    ensures AllAttended(Next(w, s))
  {
    SessionsOnlyGrow(w, s);
    SessionsStaySound(w, s);
    var v := Next(w, s);
    forall i | 0 <= i < |v.sessions| && v.sessions[i].state.Running? ensures Attended(v, v.sessions[i].id) {
      if i == |w.sessions| {
        assert Owes(v.threads[|w.threads|].at, v.sessions[i].id);
      } else {
        assert GoesOn(w.sessions[i], v.sessions[i]);
        AttendingPassesOn(w, s, i);
      }
    }
  }

  lemma OwedByAThread(w: World, s: Step, session: SessionId, j: nat)
    requires Enabled(w, s) && j < |w.threads| && Owes(w.threads[j].at, session)
    requires Runs(Next(w, s).sessions, session) && Runs(w.sessions, session)
    requires SessionsSound(w) && Distinct(w.backlog.tasks) && w.atOnce > 0
    ensures Attended(Next(w, s), session)
  {
    if OnItsOwn(s) && s.i == j {
      OwingPassesOn(w, s, session);
      BesidesTheThread(w, s);
    } else {
      assert Owes(Next(w, s).threads[j].at, session);
    }
  }

  lemma AttendedByATask(w: World, s: Step, session: SessionId, at: nat)
    requires Enabled(w, s) && at < |w.backlog.tasks| && w.backlog.tasks[at].RunsFor(session)
    requires Runs(w.sessions, session) && ThreadsKnown(w) && Distinct(w.backlog.tasks)
    ensures Attended(Next(w, s), session)
  {
    RunningPassesOn(w, s, session, at);
    if OnItsOwn(s) {
      BesidesTheThread(w, s);
    }
  }

  lemma AttendingPassesOn(w: World, s: Step, i: nat)
    requires Enabled(w, s) && w.atOnce > 0 && SessionsSound(w) && Distinct(w.backlog.tasks) && ThreadsKnown(w)
    requires i < |w.sessions| && i < |Next(w, s).sessions|
    requires w.sessions[i].state.Running? && Next(w, s).sessions[i].state.Running?
    requires Next(w, s).sessions[i].id == w.sessions[i].id && DistinctSessions(Next(w, s).sessions)
    requires Attended(w, w.sessions[i].id)
    ensures Attended(Next(w, s), w.sessions[i].id)
  {
    var session := w.sessions[i].id;
    assert IndexOfSession(w.sessions, session) == i && IndexOfSession(Next(w, s).sessions, session) == i;
    if at :| 0 <= at < |w.backlog.tasks| && w.backlog.tasks[at].RunsFor(session) {
      AttendedByATask(w, s, session, at);
    } else {
      var j :| 0 <= j < |w.threads| && Owes(w.threads[j].at, session);
      OwedByAThread(w, s, session, j);
    }
  }

  // ---------------------------------------------------------------- over whole runs

  predicate Kept(w: World) {
    && w.atOnce > 0 && SessionsSound(w) && TasksKnown(w) && ThreadsKnown(w)
    && AllCarried(w) && AllAttended(w)
  }

  lemma StepsKeep(w: World, s: Step)
    requires Enabled(w, s) && Sound(w.backlog) && Kept(w)
    ensures Sound(Next(w, s).backlog) && Kept(Next(w, s))
  {
    BacklogStaysSound(w, s);
    SessionsStaySound(w, s);
    TasksStayKnown(w, s);
    ThreadsStayKnown(w, s);
    RunningTasksStayCarried(w, s);
    SessionsStayAttended(w, s);
  }

  lemma {:induction false} RunsKeep(w: World, steps: seq<Step>)
    requires CanRun(w, steps) && Sound(w.backlog) && Kept(w)
    ensures Sound(Ran(w, steps).backlog) && Kept(Ran(w, steps))
    decreases steps
  {
    if steps != [] {
      StepsKeep(w, steps[0]);
      RunsKeep(Next(w, steps[0]), steps[1..]);
    }
  }

  lemma ADaemonStartsKept(atOnce: nat, policy: Policy)
    requires atOnce > 0
    ensures Sound(NewDaemon(atOnce, policy).backlog) && Kept(NewDaemon(atOnce, policy))
  {
    assert Ranked(EMPTY.tasks, map[]);
  }

  /** No session sits idle, and no task is left running with nobody to run it: after any interleaving of
      the daemon's holds, from its start, one at most is running, that one has a task running or
      somebody who owes it a decision or a stop, and every running task is queued, about to be, or in a
      worker's hands. */
  lemma NoSessionSitsIdle(atOnce: nat, policy: Policy, steps: seq<Step>)
    requires atOnce > 0 && CanRun(NewDaemon(atOnce, policy), steps)
    ensures var w := Ran(NewDaemon(atOnce, policy), steps);
            && OneAtATime(w.sessions)
            && (forall i :: 0 <= i < |w.sessions| && w.sessions[i].state.Running? ==>
                  SomethingRunsFor(w, w.sessions[i].id) || SomebodyOwes(w, w.sessions[i].id))
            && (forall k :: 0 <= k < |w.backlog.tasks| && w.backlog.tasks[k].state.Running? ==>
                  Carried(w, w.backlog.tasks[k].id) > 0)
  {
    ADaemonStartsKept(atOnce, policy);
    RunsKeep(NewDaemon(atOnce, policy), steps);
  }
}
