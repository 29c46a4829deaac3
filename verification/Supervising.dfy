/** The supervisor: one decision, one stop, and one look of the clock, each taken as one step over the
    backlog and the sessions. */
module Supervising {
  import opened Wrappers
  import opened Numbers
  import opened Spendings
  import opened Tasks
  import opened Graph
  import opened SessionValues
  import opened Decisions
  import opened Settling
  import Backlogs
  import Sessions

  /** No task runs for a session that has stopped. */
  predicate NothingOutlivesItsSession(ts: seq<Task>, ss: seq<Session>) {
    forall k :: 0 <= k < |ts| && ts[k].state.Running? && ts[k].session.Some? ==> Runs(ss, ts[k].session.value)
  }

  lemma AssignOneMore(ts: seq<Task>, allowed: seq<Allowance>, i: nat, to: SessionId, now: U64, fallback: Option<string>)
    requires i < |allowed|
    ensures var (us, started) := AssignAll(ts, allowed[..i], to, now, fallback);
            AssignAll(ts, allowed[..i + 1], to, now, fallback)
            == (Tasks.Assign(us, allowed[i].task, to, allowed[i].ceiling, now, fallback),
                if Assignable(us, allowed[i].task) then started + [allowed[i].task] else started)
  {
    assert allowed[..i + 1][..i] == allowed[..i] && allowed[..i + 1] != [];
    assert AssignAll(ts, allowed[..i], to, now, fallback).1 + [] == AssignAll(ts, allowed[..i], to, now, fallback).1;
  }

  class Supervisor {
    const tasks: Backlogs.Backlog
    const sessions: Sessions.Sessions
    const policy: Policy
    const atOnce: nat

    constructor (tasks: Backlogs.Backlog, sessions: Sessions.Sessions, policy: Policy, atOnce: nat)
      ensures this.tasks == tasks && this.sessions == sessions && this.policy == policy && this.atOnce == atOnce
    {
      this.tasks, this.sessions, this.policy, this.atOnce := tasks, sessions, policy, atOnce;
    }

    /** The session, if it is one this still decides for. */
    method Held(session: SessionId) returns (held: Option<Session>)
      ensures held == if Runs(sessions.sessions, session)
                      then Some(sessions.sessions[IndexOfSession(sessions.sessions, session)]) else None
    {
      var at := IndexOfSession(sessions.sessions, session);
      if at == |sessions.sessions| || !sessions.sessions[at].state.Running? {
        return None;
      }
      held := Some(sessions.sessions[at]);
    }

    /** Hands over what there are hands for, one at a time, and says which. */
    method AssignThese(allowed: seq<Allowance>, held: Session, now: U64) returns (assigned': seq<TaskId>)
      modifies tasks
      ensures tasks.nextId == old(tasks.nextId)
      ensures (tasks.tasks, assigned')
           == AssignAll(old(tasks.tasks), Taken(old(tasks.tasks), held, allowed, atOnce), held.id, now, held.model)
    {
      var running := RunningIn(tasks.tasks, held.id);
      var free := if running <= atOnce then atOnce - running else 0;
      ghost var taken := Taken(tasks.tasks, held, allowed, atOnce);
      assigned' := [];
      var i := 0;
      while i < |allowed| && i < free
        invariant i <= |taken| && |taken| == Min(|allowed|, free)
        invariant tasks.nextId == old(tasks.nextId)
        invariant (tasks.tasks, assigned') == AssignAll(old(tasks.tasks), taken[..i], held.id, now, held.model)
      {
        AssignOneMore(old(tasks.tasks), taken, i, held.id, now, held.model);
        assert taken[i] == allowed[i];
        var handed := tasks.Assign(allowed[i].task, held.id, allowed[i].ceiling, now, held.model);
        if handed.Some? {
          assigned' := assigned' + [handed.value];
        }
        i := i + 1;
      }
      assert taken[..i] == taken;
    }

    /** One decision: whether the session carries on, and with what. */
    method Settle(session: SessionId, read: Option<Measured>, before: Figures, now: U64) returns (started: seq<TaskId>)
      modifies tasks, sessions
      ensures tasks.nextId == old(tasks.nextId) && sessions.nextId == old(sessions.nextId)
      ensures !Runs(old(sessions.sessions), session) ==>
                started == [] && tasks.tasks == old(tasks.tasks) && sessions.sessions == old(sessions.sessions)
      ensures Runs(old(sessions.sessions), session) ==>
                var held := old(sessions.sessions)[IndexOfSession(old(sessions.sessions), session)];
                var (us, verdict) := Settling.Settle(old(tasks.tasks), held, read, before, policy, now, atOnce);
                var noted := NoteEach(old(sessions.sessions), session, SpentBy(old(tasks.tasks), held, read), now);
                match verdict
                case Started(ids) => started == ids && tasks.tasks == us && sessions.sessions == noted
                case Halting(why) =>
                  started == [] && sessions.sessions == Halt(noted, session, why, now)
                  && tasks.tasks == Interrupt(us, session, Spelled(why), now)
      ensures old(sessions.Valid()) && (read.Some? ==> read.value.spent.Share?) ==> sessions.Valid()
    {
      var found := Held(session);
      if found.None? {
        return [];
      }
      var held := found.value;
      var unread := held.budget.usage.InShare? && read.None?;
      var spent :=
        if held.budget.usage.InTokens? then Tokens(Spendings.Total(CountedIn(tasks.tasks, session)).Tokens())
        else if read.Some? then read.value.spent
        else held.consumed;
      var decision := Decide(StandingOf(tasks.tasks, held, spent, before, policy, now, unread));
      match decision
      case Stop(why) =>
        sessions.Record(session, spent, now);
        var _ := Stop(session, why, now);
        started := [];
      case Start(allowed) =>
        started := AssignThese(allowed, held, now);
        sessions.Record(session, spent, now);
    }

    /** Stops the session and ends whatever it still had running. Answers with the tasks that were running
        and now are not, which are those whose agents were told to end first. */
    method Stop(session: SessionId, why: StoppedReason, now: U64) returns (ended: seq<TaskId>)
      modifies tasks, sessions
      ensures tasks.nextId == old(tasks.nextId) && sessions.nextId == old(sessions.nextId)
      ensures sessions.sessions == Halt(old(sessions.sessions), session, why, now)
      ensures tasks.tasks == Interrupt(old(tasks.tasks), session, Spelled(why), now)
      ensures ended == CutAmong(old(tasks.tasks), session, |old(tasks.tasks)|)
      ensures old(sessions.Valid()) ==> sessions.Valid()
    {
      sessions.Stop(session, why, now);
      ended := tasks.Interrupt(session, Spelled(why), now);
    }

    /** Stops the running session where it has had the time it declared and nothing is left going. */
    method StopIfOutOfTime(now: U64)
      modifies tasks, sessions
      ensures tasks.nextId == old(tasks.nextId) && sessions.nextId == old(sessions.nextId)
      ensures var ss, ts := old(sessions.sessions), old(tasks.tasks);
              var at := RunningAt(ss);
              if at < |ss| && DoneWaiting(ss[at].TimeLeft(now), RunningIn(ts, ss[at].id))
              then sessions.sessions == Halt(ss, ss[at].id, SaidByTheClock(ts), now)
                   && tasks.tasks == Interrupt(ts, ss[at].id, Spelled(SaidByTheClock(ts)), now)
              else sessions.sessions == ss && tasks.tasks == ts
      ensures old(sessions.Valid()) ==> sessions.Valid()
    {
      var at := RunningAt(sessions.sessions);
      if at == |sessions.sessions| {
        return;
      }
      var held := sessions.sessions[at];
      if !DoneWaiting(held.TimeLeft(now), RunningIn(tasks.tasks, held.id)) {
        return;
      }
      var _ := Stop(held.id, NothingMore(Waiting(tasks.tasks) != [], AllBlocked(tasks.tasks), true), now);
    }
  }

  // ---------------------------------------------------------------- what each step keeps

  lemma HaltingLeavesNothingRunning(ts: seq<Task>, ss: seq<Session>, session: SessionId, why: StoppedReason, now: U64)
    requires NothingOutlivesItsSession(ts, ss)
    ensures NothingOutlivesItsSession(Interrupt(ts, session, Spelled(why), now), Halt(ss, session, why, now))
  {
    var us, ds := Interrupt(ts, session, Spelled(why), now), Halt(ss, session, why, now);
    forall k | 0 <= k < |us| && us[k].state.Running? && us[k].session.Some? ensures Runs(ds, us[k].session.value) {
      assert us[k] == ts[k] && Runs(ss, ts[k].session.value);
      OthersStillRun(ss, session, why, now, ts[k].session.value);
    }
  }

  lemma OthersStillRun(ss: seq<Session>, session: SessionId, why: StoppedReason, now: U64, other: SessionId)
    requires Runs(ss, other) && other != session
    ensures Runs(Halt(ss, session, why, now), other)
  {
    var ds, at := Halt(ss, session, why, now), IndexOfSession(ss, other);
    assert ds[at] == ss[at];
    assert forall j :: 0 <= j < |ss| ==> ds[j].id == ss[j].id;
    assert IndexOfSession(ds, other) == at;
  }

  lemma NotingStopsNothing(ss: seq<Session>, session: SessionId, consumed: Spending, now: U64, other: SessionId)
    ensures Runs(NoteEach(ss, session, consumed, now), other) <==> Runs(ss, other)
  {
    var ds := NoteEach(ss, session, consumed, now);
    assert forall j :: 0 <= j < |ss| ==> ds[j].id == ss[j].id && ds[j].state == ss[j].state;
    if Keeps(ss, other) {
      assert IndexOfSession(ds, other) == IndexOfSession(ss, other);
    }
  }

  /** One decision over both stores, taken as one step: whichever way it goes, no task is left running for
      a session that has stopped; and the session it was made for has stopped, or has a task running. */
  lemma OneDecisionLeavesNothingBehind(ts: seq<Task>, ss: seq<Session>, session: SessionId, read: Option<Measured>,
                                       before: Figures, policy: Policy, now: U64, atOnce: nat)
    requires Distinct(ts) && Runs(ss, session) && NothingOutlivesItsSession(ts, ss) && atOnce > 0
    ensures var held := ss[IndexOfSession(ss, session)];
            var (us, verdict) := Settling.Settle(ts, held, read, before, policy, now, atOnce);
            var noted := NoteEach(ss, session, SpentBy(ts, held, read), now);
            match verdict
            case Started(ids) => NothingOutlivesItsSession(us, noted) && RunningIn(us, session) > 0
            case Halting(why) =>
              NothingOutlivesItsSession(Interrupt(us, session, Spelled(why), now), Halt(noted, session, why, now))
              && !Runs(Halt(noted, session, why, now), session)
  {
    var held := ss[IndexOfSession(ss, session)];
    var (us, verdict) := Settling.Settle(ts, held, read, before, policy, now, atOnce);
    var noted := NoteEach(ss, session, SpentBy(ts, held, read), now);
    forall other: SessionId ensures Runs(noted, other) <==> Runs(ss, other) {
      NotingStopsNothing(ss, session, SpentBy(ts, held, read), now, other);
    }
    assert NothingOutlivesItsSession(ts, noted);
    match verdict
    case Started(ids) => StartingLeavesNothing(ts, noted, held, read, before, policy, now, atOnce);
    case Halting(why) => HaltingLeavesNothingRunning(ts, noted, session, why, now);
  }

  lemma StartingLeavesNothing(ts: seq<Task>, ss: seq<Session>, held: Session, read: Option<Measured>, before: Figures,
                              policy: Policy, now: U64, atOnce: nat)
    requires Distinct(ts) && Runs(ss, held.id) && NothingOutlivesItsSession(ts, ss) && atOnce > 0
    requires Judged(ts, held, read, before, policy, now).Start?
    ensures var us := Settling.Settle(ts, held, read, before, policy, now, atOnce).0;
            NothingOutlivesItsSession(us, ss) && RunningIn(us, held.id) > 0
  {
    var us := Settling.Settle(ts, held, read, before, policy, now, atOnce).0;
    var taken := SettlingStartsWhatFits(ts, held, read, before, policy, now, atOnce);
    forall k | 0 <= k < |us| && us[k].state.Running? && us[k].session.Some? ensures Runs(ss, us[k].session.value) {
      assert us[k] == HandedOver(ts[k], taken, held.id, now, held.model);
    }
  }
}
