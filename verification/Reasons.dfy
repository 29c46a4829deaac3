/** Whether the reason a session is stopped for is still true as the stop lands, some steps after the hold
    that decided it. */
module Reasons {
  import opened Wrappers
  import opened Numbers
  import opened Spendings
  import opened Tasks
  import opened Graph
  import opened Closure
  import opened SessionValues
  import opened Decisions
  import opened Settling
  import opened Protocol
  import opened NoIdle

  /** All a decision asks of a task is answered the same. */
  predicate SameAnswer(t: Task, u: Task) {
    && u.id == t.id && u.state == t.state && u.session == t.session && u.after == t.after && u.model == t.model
    && u.ceiling == t.ceiling && u.consumed == t.consumed
  }

  predicate SameAnswers(ts: seq<Task>, us: seq<Task>) {
    |us| == |ts| && forall k :: 0 <= k < |ts| ==> SameAnswer(ts[k], us[k])
  }

  lemma {:induction false} SameMayStart(ts: seq<Task>, us: seq<Task>, k: nat)
    requires SameAnswers(ts, us) && k < |ts|
    ensures MayStart(us, us[k]) <==> MayStart(ts, ts[k])
  {
    assert SameAnswer(ts[k], us[k]);
    if ts[k].after.Some? {
      var id := ts[k].after.value;
      assert IndexOf(us, id) == IndexOf(ts, id) by {
        assert forall j :: 0 <= j < |ts| ==> SameAnswer(ts[j], us[j]);
      }
    }
  }

  lemma {:induction false} SameWaiting(ts: seq<Task>, us: seq<Task>, n: nat)
    requires SameAnswers(ts, us) && n <= |ts|
    ensures WaitingAmong(us, n) == WaitingAmong(ts, n)
  {
    if n > 0 {
      SameWaiting(ts, us, n - 1);
      SameMayStart(ts, us, n - 1);
      assert SameAnswer(ts[n - 1], us[n - 1]);
    }
  }

  lemma {:induction false} SameFigures(ts: seq<Task>, us: seq<Task>, session: SessionId, n: nat)
    requires SameAnswers(ts, us) && n <= |ts|
    ensures RunningAmong(us, session, n) == RunningAmong(ts, session, n)
    ensures RoomAmong(us, session, n) == RoomAmong(ts, session, n)
    ensures CountedAmong(us, session, n) == CountedAmong(ts, session, n)
  {
    if n > 0 {
      SameFigures(ts, us, session, n - 1);
      assert SameAnswer(ts[n - 1], us[n - 1]);
    }
  }

  lemma {:induction false} SameQuestions(ts: seq<Task>, us: seq<Task>, session: SessionId)
    requires SameAnswers(ts, us)
    ensures SomePending(us) <==> SomePending(ts)
    ensures Unread(us, session) <==> Unread(ts, session)
  {
    forall k | 0 <= k < |ts|
      ensures (us[k].state.Pending? <==> ts[k].state.Pending?) && us[k].session == ts[k].session
      ensures us[k].consumed == ts[k].consumed
    {
      assert SameAnswer(ts[k], us[k]);
    }
  }

  lemma {:induction false} SameStanding(ts: seq<Task>, us: seq<Task>, held: Session, read: Option<Measured>,
                                        before: Figures, policy: Policy, now: U64)
    requires SameAnswers(ts, us)
    ensures StandsAt(us, held, read, before, policy, now) == StandsAt(ts, held, read, before, policy, now)
  {
    SameWaiting(ts, us, |ts|);
    SameFigures(ts, us, held.id, |ts|);
    SameQuestions(ts, us, held.id);
  }

  /** Steps that change nothing a decision asks of the backlog: no command, no run ended or turned away, no
      other decision, and nobody cut off. */
  predicate LeavesAnswers(s: Step) {
    !s.Commands? && !s.Ends? && !s.TurnsAway? && !s.Decides? && !s.Cuts?
  }

  lemma {:induction false} StepsLeaveAnswers(w: World, s: Step)
    requires Enabled(w, s) && LeavesAnswers(s)
    ensures SameAnswers(w.backlog.tasks, Next(w, s).backlog.tasks)
  {
  }

  lemma {:induction false} RunsLeaveAnswers(w: World, steps: seq<Step>)
    requires CanRun(w, steps) && forall i :: 0 <= i < |steps| ==> LeavesAnswers(steps[i])
    ensures SameAnswers(w.backlog.tasks, Ran(w, steps).backlog.tasks)
    decreases steps
  {
    if steps != [] {
      StepsLeaveAnswers(w, steps[0]);
      RunsLeaveAnswers(Next(w, steps[0]), steps[1..]);
      InTurn(w.backlog.tasks, Next(w, steps[0]).backlog.tasks, Ran(w, steps).backlog.tasks);
    }
  }

  lemma {:induction false} InTurn(ts: seq<Task>, us: seq<Task>, vs: seq<Task>)
    requires SameAnswers(ts, us) && SameAnswers(us, vs)
    ensures SameAnswers(ts, vs)
  {
    forall k | 0 <= k < |ts| ensures SameAnswer(ts[k], vs[k]) {
      assert SameAnswer(ts[k], us[k]) && SameAnswer(us[k], vs[k]);
    }
  }

  /** A reason is true of a backlog exactly where deciding over it would give it. */
  lemma {:induction false} TrueWhereItWouldBeGiven(ts: seq<Task>, held: Session, read: Option<Measured>,
                                                                   before: Figures, policy: Policy, now: U64,
                                                                   why: StoppedReason)
    ensures Says(why, ts, StandsAt(ts, held, read, before, policy, now))
       <==> Judged(ts, held, read, before, policy, now) == Stop(why)
  {
    StopReasonsAreTrue(ts, held, SpentBy(ts, held, read), before, policy, now, held.budget.usage.InShare? && read.None?,
                       why);
  }

  /** The reason a decision recorded is still true as the stop lands, however many steps come between, where
      none of them changes what a decision asks. */
  lemma {:induction false} ReasonsStayTrue(w: World, s: Step, why: StoppedReason, between: seq<Step>)
    requires Enabled(w, s) && s.Decides? && Next(w, s).threads[s.i].at.Noting?
    requires Next(w, s).threads[s.i].at.verdict == Halting(why)
    requires CanRun(Next(w, s), between) && forall i :: 0 <= i < |between| ==> LeavesAnswers(between[i])
    ensures var held, read, ts := w.threads[s.i].at.held, w.threads[s.i].at.read,
            Ran(Next(w, s), between).backlog.tasks;
            Says(why, ts, StandsAt(ts, held, read, s.before, w.policy, s.now))
  {
    var held, read := w.threads[s.i].at.held, w.threads[s.i].at.read;
    var ts, us := w.backlog.tasks, Ran(Next(w, s), between).backlog.tasks;
    StoppingChangesNothing(w, s, why);
    RunsLeaveAnswers(Next(w, s), between);
    SameStanding(ts, us, held, read, s.before, w.policy, s.now);
    TrueWhereItWouldBeGiven(us, held, read, s.before, w.policy, s.now, why);
  }

  lemma {:induction false} StoppingChangesNothing(w: World, s: Step, why: StoppedReason)
    requires Enabled(w, s) && s.Decides? && Next(w, s).threads[s.i].at.Noting?
    requires Next(w, s).threads[s.i].at.verdict == Halting(why)
    ensures Next(w, s).backlog == w.backlog
    ensures Judged(w.backlog.tasks, w.threads[s.i].at.held, w.threads[s.i].at.read, s.before, w.policy, s.now)
         == Stop(why)
  {
  }

  /** A task registered between makes it untrue that all is done. */
  lemma {:induction false} ARegistrationLeavesMoreToDo(w: World, c: Command, st: Standing)
    requires Enabled(w, Commands(c)) && Registers(w.backlog, c)
    ensures !Says(AllDone, Next(w, Commands(c)).backlog.tasks, st)
  {
    var us := Next(w, Commands(c)).backlog.tasks;
    assert us[|us| - 1].state.Pending?;
  }
}
