/** What a session declared in tokens is committed to: what its tasks say they consumed, and the ceilings
    of every run of it still to be recorded. It stays within what was declared, but for terms each step
    names. Nothing about that depends on any figure being right. */
module BudgetBound {
  import opened Wrappers
  import opened Numbers
  import opened Spendings
  import opened Tasks
  import opened Graph
  import opened Closure
  import opened SessionValues
  import opened Decisions
  import opened Settling
  import opened Protocol
  import opened Steps
  import opened NoIdle
  import opened Commitments

  // ---------------------------------------------------------------- what a decision measures

  /** What a session's tasks reported, when no counter has a top. */
  function ExactAmong(ts: seq<Task>, session: SessionId, n: nat): nat
    requires n <= |ts|
  {
    if n == 0 then 0
    else ExactAmong(ts, session, n - 1) + if ts[n - 1].session == Some(session) then CountOf(ts[n - 1].consumed) else 0
  }

  lemma {:induction false} ExactIsCounted(ts: seq<Task>, session: SessionId, n: nat)
    requires n <= |ts|
    ensures ExactTotal(CountedAmong(ts, session, n)) == ExactAmong(ts, session, n)
  {
    if n > 0 {
      ExactIsCounted(ts, session, n - 1);
      var before, t := CountedAmong(ts, session, n - 1), ts[n - 1];
      if t.session == Some(session) && t.consumed.Spent? {
        assert (before + [t.consumed.spent])[..|before|] == before;
      } else {
        assert before + [] == before;
      }
    }
  }

  /** What a run holds against its session that was cut off under its worker: it is still to be recorded,
      and a decision no longer books room for it. */
  function UnbookedBy(w: World, session: SessionId, t: Task): nat {
    if t.session == Some(session) && Carried(w, t.id) > 0 && !t.state.Running? then CeilingOf(t) else 0
  }

  function UnbookedAmong(w: World, session: SessionId, n: nat): nat
    requires n <= |w.backlog.tasks|
  {
    if n == 0 then 0 else UnbookedAmong(w, session, n - 1) + UnbookedBy(w, session, w.backlog.tasks[n - 1])
  }

  function Unbooked(w: World, session: SessionId): nat {
    UnbookedAmong(w, session, |w.backlog.tasks|)
  }

  /** What a session is committed to is the two figures a decision takes off the budget, what its tasks
      say they consumed and what its running tasks are allowed, and the ceilings of runs cut off. */
  lemma {:induction false} WhatADecisionTakesOff(w: World, session: SessionId, n: nat)
    requires n <= |w.backlog.tasks| && AllCarried(w)
    ensures CommittedAmong(w, session, n)
         == ExactAmong(w.backlog.tasks, session, n) + RoomAmong(w.backlog.tasks, session, n)
           + UnbookedAmong(w, session, n)
  {
    if n > 0 {
      WhatADecisionTakesOff(w, session, n - 1);
    }
  }

  /** While a session runs none of its runs are cut off. */
  lemma {:induction false} NothingUnbookedWhileItRuns(w: World, session: SessionId, n: nat)
    requires n <= |w.backlog.tasks| && Runs(w.sessions, session) && CarriedRuns(w)
    ensures UnbookedAmong(w, session, n) == 0
  {
    if n > 0 {
      NothingUnbookedWhileItRuns(w, session, n - 1);
      assert CarriedRunsAt(w, w.backlog.tasks[n - 1]);
    }
  }

  // ---------------------------------------------------------------- room never passes what was declared

  predicate RoomBounded(w: World) {
    AllBounded(w.backlog.tasks, w.sessions)
  }

  predicate AllBounded(ts: seq<Task>, ss: seq<Session>) {
    forall i :: 0 <= i < |ss| ==> RoomAmong(ts, ss[i].id, |ts|) <= ss[i].budget.Declared()
  }

  lemma {:induction false} RoomOnlyFalls(ts: seq<Task>, us: seq<Task>, session: SessionId, n: nat)
    requires n <= |ts| && n <= |us|
    requires forall k :: 0 <= k < n ==> RoomOf(us[k], session) <= RoomOf(ts[k], session)
    ensures RoomAmong(us, session, n) <= RoomAmong(ts, session, n)
  {
    if n > 0 {
      RoomOnlyFalls(ts, us, session, n - 1);
    }
  }

  lemma {:induction false} NoRoomAtAll(ts: seq<Task>, session: SessionId, n: nat)
    requires n <= |ts| && forall k :: 0 <= k < n ==> ts[k].session != Some(session)
    ensures RoomAmong(ts, session, n) == 0
  {
    if n > 0 {
      NoRoomAtAll(ts, session, n - 1);
    }
  }

  lemma {:induction false} RoomSpliced(ts: seq<Task>, at: nat, session: SessionId, n: nat)
    requires at < |ts| && n <= |ts| - 1
    ensures RoomAmong(Spliced(ts, at), session, n) <= RoomAmong(ts, session, if n <= at then n else n + 1)
  {
    if n > 0 {
      RoomSpliced(ts, at, session, n - 1);
      assert RoomOf(Spliced(ts, at)[n - 1], session) == RoomOf(ts[Before(at, n - 1)], session);
    }
  }

  predicate Removes(w: World, s: Step)
    requires Enabled(w, s)
  {
    s.Commands? && s.command.Remove? && Next(w, s).backlog != w.backlog
  }

  lemma RemovingGivesNoRoom(w: World, s: Step, session: SessionId)
    requires Enabled(w, s) && Removes(w, s)
    ensures RoomAmong(Next(w, s).backlog.tasks, session, |Next(w, s).backlog.tasks|)
         <= RoomAmong(w.backlog.tasks, session, |w.backlog.tasks|)
  {
    RoomSpliced(w.backlog.tasks, IndexOf(w.backlog.tasks, s.command.id), session, |Next(w, s).backlog.tasks|);
  }

  lemma LengthAfterWork(w: World, s: Step)
    requires Enabled(w, s) && !s.Decides? && !Removes(w, s)
    ensures var us := Next(w, s).backlog.tasks;
            |us| == |w.backlog.tasks|
              || (|us| == |w.backlog.tasks| + 1 && us[|us| - 1].state.Pending? && us[|us| - 1].session == None)
  {
  }

  /** Only deciding gives room. */
  lemma WorkGivesNoRoom(w: World, s: Step, session: SessionId)
    requires Enabled(w, s) && !s.Decides? && Sound(w.backlog)
    ensures RoomAmong(Next(w, s).backlog.tasks, session, |Next(w, s).backlog.tasks|)
         <= RoomAmong(w.backlog.tasks, session, |w.backlog.tasks|)
  {
    if Removes(w, s) {
      RemovingGivesNoRoom(w, s, session);
    } else {
      var ts, us := w.backlog.tasks, Next(w, s).backlog.tasks;
      LengthAfterWork(w, s);
      forall k | 0 <= k < |ts| ensures RoomOf(us[k], session) <= RoomOf(ts[k], session) {
        KeepsItsCeiling(w, s, k);
      }
      RoomOnlyFalls(ts, us, session, |ts|);
    }
  }

  /** What a step other than a decision does to the run a task is having: nothing, or it ends. */
  lemma KeepsItsCeiling(w: World, s: Step, k: nat)
    requires Enabled(w, s) && !s.Decides? && Sound(w.backlog) && k < |w.backlog.tasks|
    requires !Removes(w, s)
    ensures k < |Next(w, s).backlog.tasks|
    ensures var t, u := w.backlog.tasks[k], Next(w, s).backlog.tasks[k];
            u.id == t.id && u.session == t.session && (u.state.Running? ==> t.state.Running? && u.ceiling == t.ceiling)
  {
    if s.Ends? || s.TurnsAway? {
      WorkersLeaveOthers(w, s, k);
    }
  }

  lemma SettlingHandsOutWhatIsFree(ts: seq<Task>, held: Session, read: Option<Measured>, before: Figures,
                                   policy: Policy, now: U64, atOnce: nat)
    returns (taken: seq<Allowance>)
    requires Distinct(ts)
    ensures var us := Settle(ts, held, read, before, policy, now, atOnce).0;
            HandsOver(ts, us, taken, held.id, now, held.model) && Grows(ts, us, taken, held.id)
    ensures Decisions.Total(taken) <= StandsAt(ts, held, read, before, policy, now).Free() && StillWaiting(ts, taken)
  {
    if Judged(ts, held, read, before, policy, now).Start? {
      taken := SettlingStartsWhatFits(ts, held, read, before, policy, now, atOnce);
    } else {
      taken := [];
    }
  }

  /** What a decision hands over, out of what was free of the budget. */
  lemma HandedOutOfWhatIsFree(w: World, s: Step) returns (taken: seq<Allowance>)
    requires Enabled(w, s) && s.Decides? && Distinct(w.backlog.tasks)
    ensures var held := w.threads[s.i].at.held;
            && HandsOver(w.backlog.tasks, Next(w, s).backlog.tasks, taken, held.id, s.now, held.model)
            && Grows(w.backlog.tasks, Next(w, s).backlog.tasks, taken, held.id)
            && Decisions.Total(taken) <= StandsAt(w.backlog.tasks, held, w.threads[s.i].at.read, s.before, w.policy,
                                                  s.now).Free()
            && StillWaiting(w.backlog.tasks, taken)
  {
    var held, read := w.threads[s.i].at.held, w.threads[s.i].at.read;
    taken := SettlingHandsOutWhatIsFree(w.backlog.tasks, held, read, s.before, w.policy, s.now, w.atOnce);
  }

  /** The room a decision finds booked is the room there is: it never passed what was declared, so the
      64-bit sum never wrapped. */
  lemma BookedExactly(w: World, id: SessionId)
    requires RoomBounded(w) && Keeps(w.sessions, id)
    ensures BookedIn(w.backlog.tasks, id) == RoomAmong(w.backlog.tasks, id, |w.backlog.tasks|)
    ensures RoomAmong(w.backlog.tasks, id, |w.backlog.tasks|) <= HeldAs(w.sessions, id).budget.Declared()
  {
  }

  /** A session gives up the room of a task another one is handed, and gets none. */
  lemma OthersGetNoRoom(ts: seq<Task>, us: seq<Task>, taken: seq<Allowance>, to: SessionId, now: U64,
                        fallback: Option<string>, session: SessionId)
    requires HandsOver(ts, us, taken, to, now, fallback) && session != to
    ensures RoomAmong(us, session, |us|) <= RoomAmong(ts, session, |ts|)
  {
    forall k | 0 <= k < |ts| ensures RoomOf(us[k], session) <= RoomOf(ts[k], session) {
      assert us[k] == HandedOver(ts[k], taken, to, now, fallback);
    }
    RoomOnlyFalls(ts, us, session, |ts|);
  }

  lemma HandingOverStaysBounded(ts: seq<Task>, us: seq<Task>, taken: seq<Allowance>, held: Session, now: U64,
                                ss: seq<Session>)
    requires HandsOver(ts, us, taken, held.id, now, held.model) && Grows(ts, us, taken, held.id)
    requires DistinctSessions(ss) && Keeps(ss, held.id) && HeldAs(ss, held.id).budget == held.budget
    requires AllBounded(ts, ss)
    requires Decisions.Total(taken) <= SatSub(held.budget.Declared(), RoomAmong(ts, held.id, |ts|))
    ensures AllBounded(us, ss)
  {
    forall i | 0 <= i < |ss| ensures RoomAmong(us, ss[i].id, |us|) <= ss[i].budget.Declared() {
      if ss[i].id == held.id {
        assert i == IndexOfSession(ss, held.id);
      } else {
        OthersGetNoRoom(ts, us, taken, held.id, now, held.model, ss[i].id);
      }
    }
  }

  lemma WhatIsFreeLeavesTheRoomBooked(ts: seq<Task>, held: Session, read: Option<Measured>, before: Figures,
                                      policy: Policy, now: U64)
    requires BookedIn(ts, held.id) == RoomAmong(ts, held.id, |ts|)
    ensures StandsAt(ts, held, read, before, policy, now).Free()
         <= SatSub(held.budget.Declared(), RoomAmong(ts, held.id, |ts|))
  {
  }

  lemma DecidingLeavesSessions(w: World, s: Step)
    requires Enabled(w, s) && s.Decides?
    ensures Next(w, s).sessions == w.sessions
  {
  }

  lemma DecisionsKeepRoomBounded(w: World, s: Step)
    requires Enabled(w, s) && s.Decides? && Distinct(w.backlog.tasks) && ThreadsKnown(w)
    requires SessionsSound(w) && RoomBounded(w)
    ensures RoomBounded(Next(w, s))
  {
    var held := w.threads[s.i].at.held;
    var taken := HandedOutOfWhatIsFree(w, s);
    assert PhaseKnown(w.sessions, w.threads[s.i].at);
    BookedExactly(w, held.id);
    WhatIsFreeLeavesTheRoomBooked(w.backlog.tasks, held, w.threads[s.i].at.read, s.before, w.policy, s.now);
    HandingOverStaysBounded(w.backlog.tasks, Next(w, s).backlog.tasks, taken, held, s.now, w.sessions);
    DecidingLeavesSessions(w, s);
  }

  /** The ceilings of a session's running tasks never pass what it declared, whatever order steps come in. */
  lemma StepsKeepRoomBounded(w: World, s: Step)
    requires Enabled(w, s) && Sound(w.backlog) && TasksKnown(w) && ThreadsKnown(w)
    requires SessionsSound(w) && RoomBounded(w)
    ensures RoomBounded(Next(w, s))
  {
    if s.Decides? {
      DecisionsKeepRoomBounded(w, s);
    } else {
      SessionsOnlyGrow(w, s);
      var ts, us, v := w.backlog.tasks, Next(w, s).backlog.tasks, Next(w, s);
      forall i | 0 <= i < |v.sessions|
        ensures RoomAmong(us, v.sessions[i].id, |us|) <= v.sessions[i].budget.Declared()
      {
        WorkGivesNoRoom(w, s, v.sessions[i].id);
        if i < |w.sessions| {
          assert GoesOn(w.sessions[i], v.sessions[i]);
        } else {
          forall k | 0 <= k < |ts| ensures ts[k].session != Some(v.sessions[i].id) {
            assert Known(w.sessions, ts[k].session);
          }
          NoRoomAtAll(ts, v.sessions[i].id, |ts|);
        }
      }
    }
  }

  // ---------------------------------------------------------------- what each step adds

  /** How far past its ceiling a recorded run went. */
  function Excess(consumed: Observation, ceiling: nat): nat {
    if CountOf(consumed) > ceiling then CountOf(consumed) - ceiling else 0
  }

  /** What the tasks a decision hands over had already reported to another session. */
  function BroughtAmong(ts: seq<Task>, us: seq<Task>, session: SessionId, n: nat): nat
    requires n <= |ts| && n <= |us|
  {
    if n == 0 then 0
    else BroughtAmong(ts, us, session, n - 1)
         + if us[n - 1].session == Some(session) && ts[n - 1].session != Some(session) then CountOf(ts[n - 1].consumed)
           else 0
  }

  /** Whose run a worker's step records, if its session is this one. */
  predicate RecordsFor(w: World, s: Step, session: SessionId)
    requires Enabled(w, s)
  {
    (s.Ends? || s.TurnsAway?)
    && var id := w.threads[s.i].at.task;
       Has(w.backlog.tasks, id) && w.backlog.tasks[IndexOf(w.backlog.tasks, id)].session == Some(session)
  }

  /** How far past its ceiling the run a step records for a session went. */
  function WentPast(w: World, s: Step, session: SessionId): nat
    requires Enabled(w, s)
  {
    if RecordsFor(w, s, session)
    then Excess(s.consumed, CeilingOf(w.backlog.tasks[IndexOf(w.backlog.tasks, w.threads[s.i].at.task)]))
    else 0
  }

  /** What a decision for a session books no room for, though it is still to be recorded: nothing, while
      the session runs. */
  function NotBooked(w: World, s: Step, session: SessionId): nat
    requires Enabled(w, s)
  {
    if s.Decides? && w.threads[s.i].at.held.id == session then Unbooked(w, session) else 0
  }

  /** What one step may add to what a session is committed to beyond what it declared, where decisions book
      all that is still to be recorded. */
  function Beyond(w: World, s: Step, session: SessionId): nat
    requires Enabled(w, s)
  {
    WentPast(w, s, session)
    + if s.Decides? then BroughtAmong(w.backlog.tasks, Next(w, s).backlog.tasks, session, |w.backlog.tasks|) else 0
  }

  /** A task holds no more than it did, but for the one at a place, which may hold so much more. */
  predicate HoldsNoMore(w: World, v: World, session: SessionId, k: nat, at: nat, more: nat)
    requires k < |w.backlog.tasks| && k < |v.backlog.tasks|
  {
    HoldsAgainst(v, session, v.backlog.tasks[k])
    <= HoldsAgainst(w, session, w.backlog.tasks[k]) + if k == at then more else 0
  }

  lemma {:induction false} CommittedMoves(w: World, v: World, session: SessionId, at: nat, more: nat, n: nat)
    requires n <= |w.backlog.tasks| && n <= |v.backlog.tasks|
    requires forall k :: 0 <= k < n ==> HoldsNoMore(w, v, session, k, at, more)
    ensures CommittedAmong(v, session, n) <= CommittedAmong(w, session, n) + if at < n then more else 0
  {
    if n > 0 {
      CommittedMoves(w, v, session, at, more, n - 1);
      assert HoldsNoMore(w, v, session, n - 1, at, more);
    }
  }

  /** What a worker's step that ends a run does to what the task holds against its session: the ceiling
      goes, and what was reported comes, which is more only by what went past the ceiling. */
  lemma RecordingTradesTheCeiling(w: World, s: Step, session: SessionId, k: nat)
    requires Enabled(w, s) && (s.Ends? || s.TurnsAway?) && Sound(w.backlog) && OneRunEach(w) && k < |w.backlog.tasks|
    ensures |Next(w, s).backlog.tasks| == |w.backlog.tasks|
    ensures HoldsNoMore(w, Next(w, s), session, k, IndexOf(w.backlog.tasks, w.threads[s.i].at.task),
                        Beyond(w, s, session))
  {
    var id, ts, us := w.threads[s.i].at.task, w.backlog.tasks, Next(w, s).backlog.tasks;
    WhatARecordLeaves(w, s, k);
    WhatAStepCarries(w, s, ts[k].id);
    if ts[k].id == id {
      assert IndexOf(ts, id) == k;
    }
  }

  lemma WhatARecordLeaves(w: World, s: Step, k: nat)
    requires Enabled(w, s) && (s.Ends? || s.TurnsAway?) && k < |w.backlog.tasks|
    ensures |Next(w, s).backlog.tasks| == |w.backlog.tasks|
    ensures var t, u := w.backlog.tasks[k], Next(w, s).backlog.tasks[k];
            && u.id == t.id && u.session == t.session && u.ceiling == t.ceiling
            && u.consumed == if t.id == w.threads[s.i].at.task then s.consumed else t.consumed
  {
    var id, ts := w.threads[s.i].at.task, w.backlog.tasks;
    if s.Ends? {
      var finished := Finish(ts, id, s.state, s.reason, s.now);
      var recorded := Record(finished, id, s.consumed);
      assert finished[k].(state := ts[k].state, reason := ts[k].reason, endedAt := ts[k].endedAt) == ts[k];
      assert recorded[k] == if ts[k].id == id then finished[k].(consumed := s.consumed) else finished[k];
    } else {
      var recorded := Record(ts, id, s.consumed);
      assert recorded[k] == if ts[k].id == id then ts[k].(consumed := s.consumed) else ts[k];
    }
  }

  /** A thread's step that neither decides nor ends a run leaves what a task holds: it may put down a run
      that is over, and that is all. */
  lemma OtherWorkHoldsNoMore(w: World, s: Step, session: SessionId, k: nat)
    requires Enabled(w, s) && !s.Commands? && !s.Decides? && !s.Ends? && !s.TurnsAway? && k < |w.backlog.tasks|
    ensures |Next(w, s).backlog.tasks| == |w.backlog.tasks|
    ensures HoldsNoMore(w, Next(w, s), session, k, 0, 0)
  {
    WhatAStepCarries(w, s, w.backlog.tasks[k].id);
    OtherWorkLeaves(w, s, k);
  }

  lemma OtherWorkLeaves(w: World, s: Step, k: nat)
    requires Enabled(w, s) && !s.Commands? && !s.Decides? && !s.Ends? && !s.TurnsAway? && k < |w.backlog.tasks|
    ensures |Next(w, s).backlog.tasks| == |w.backlog.tasks|
    ensures var t, u := w.backlog.tasks[k], Next(w, s).backlog.tasks[k];
            u.id == t.id && u.session == t.session && u.ceiling == t.ceiling && u.consumed == t.consumed
  {
  }

  /** A retry gives up the ceiling of a run nobody carries, and a registration is in no session yet. */
  lemma CommandsHoldNoMore(w: World, s: Step, session: SessionId, k: nat)
    requires Enabled(w, s) && s.Commands? && !s.command.Remove? && RetriesInTime(w, s) && k < |w.backlog.tasks|
    ensures |Next(w, s).backlog.tasks| >= |w.backlog.tasks|
    ensures HoldsNoMore(w, Next(w, s), session, k, 0, 0)
  {
    WhatAStepCarries(w, s, w.backlog.tasks[k].id);
    if s.command.Register? && Registers(w.backlog, s.command) {
      assert Next(w, s).backlog.tasks[k] == w.backlog.tasks[k];
    }
  }

  lemma {:induction false} CommittedSpliced(w: World, v: World, at: nat, session: SessionId, n: nat)
    requires at < |w.backlog.tasks| && v == w.Holding(Spliced(w.backlog.tasks, at)) && n <= |v.backlog.tasks|
    ensures CommittedAmong(v, session, n) <= CommittedAmong(w, session, if n <= at then n else n + 1)
  {
    if n > 0 {
      CommittedSpliced(w, v, at, session, n - 1);
      var t, u := w.backlog.tasks[Before(at, n - 1)], v.backlog.tasks[n - 1];
      assert u.id == t.id && u.session == t.session && u.ceiling == t.ceiling && u.consumed == t.consumed;
      assert Carried(v, t.id) == Carried(w, t.id);
    }
  }

  lemma CommandsCommitNoMore(w: World, s: Step, session: SessionId)
    requires Enabled(w, s) && s.Commands? && RetriesInTime(w, s)
    ensures Committed(Next(w, s), session) <= Committed(w, session)
  {
    var ts, v := w.backlog.tasks, Next(w, s);
    if s.command.Remove? {
      if v.backlog != w.backlog {
        CommittedSpliced(w, v, IndexOf(ts, s.command.id), session, |v.backlog.tasks|);
      }
    } else {
      forall k | 0 <= k < |ts| ensures HoldsNoMore(w, v, session, k, 0, 0) {
        CommandsHoldNoMore(w, s, session, k);
      }
      CommittedMoves(w, v, session, 0, 0, |ts|);
      if s.command.Register? && Registers(w.backlog, s.command) {
        assert v.backlog.tasks[|ts|].session == None;
      }
    }
  }

  /** No step but a decision commits a session to more, save by what a recorded run went past its ceiling. */
  lemma WorkCommitsNoMore(w: World, s: Step, session: SessionId)
    requires Enabled(w, s) && !s.Decides? && Sound(w.backlog) && OneRunEach(w) && RetriesInTime(w, s)
    ensures Committed(Next(w, s), session) <= Committed(w, session) + Beyond(w, s, session)
  {
    var ts, us := w.backlog.tasks, Next(w, s).backlog.tasks;
    if s.Ends? || s.TurnsAway? {
      var at := IndexOf(ts, w.threads[s.i].at.task);
      forall k | 0 <= k < |ts| ensures HoldsNoMore(w, Next(w, s), session, k, at, Beyond(w, s, session)) {
        RecordingTradesTheCeiling(w, s, session, k);
      }
      CommittedMoves(w, Next(w, s), session, at, Beyond(w, s, session), |ts|);
    } else if s.Commands? {
      CommandsCommitNoMore(w, s, session);
    } else {
      forall k | 0 <= k < |ts| ensures HoldsNoMore(w, Next(w, s), session, k, 0, 0) {
        OtherWorkHoldsNoMore(w, s, session, k);
      }
      OtherWorkKeepsTheCount(w, s);
      CommittedMoves(w, Next(w, s), session, 0, 0, |ts|);
    }
  }

  lemma OtherWorkKeepsTheCount(w: World, s: Step)
    requires Enabled(w, s) && !s.Commands? && !s.Decides?
    ensures |Next(w, s).backlog.tasks| == |w.backlog.tasks|
  {
  }

  // ---------------------------------------------------------------- what a decision commits

  lemma {:induction false} BroughtAlong(ts: seq<Task>, us: seq<Task>, allowed: seq<Allowance>, to: SessionId, now: U64,
                                        fallback: Option<string>, n: nat)
    requires HandsOver(ts, us, allowed, to, now, fallback) && n <= |ts|
    ensures ExactAmong(us, to, n) == ExactAmong(ts, to, n) + BroughtAmong(ts, us, to, n)
  {
    if n > 0 {
      BroughtAlong(ts, us, allowed, to, now, fallback, n - 1);
      assert us[n - 1] == HandedOver(ts[n - 1], allowed, to, now, fallback);
    }
  }

  lemma GivenUpOrKept(w: World, s: Step, session: SessionId, k: nat)
    requires Enabled(w, s) && s.Decides? && Distinct(w.backlog.tasks) && session != w.threads[s.i].at.held.id
    requires k < |w.backlog.tasks|
    ensures |Next(w, s).backlog.tasks| == |w.backlog.tasks|
    ensures HoldsNoMore(w, Next(w, s), session, k, 0, 0)
  {
    var id := w.backlog.tasks[k].id;
    WhatAStepCarries(w, s, id);
    HandedOrNotPickedUp(w, s, k);
  }

  lemma HandedOrNotPickedUp(w: World, s: Step, k: nat)
    requires Enabled(w, s) && s.Decides? && Distinct(w.backlog.tasks) && k < |w.backlog.tasks|
    ensures |Next(w, s).backlog.tasks| == |w.backlog.tasks| && Next(w, s).backlog.tasks[k].id == w.backlog.tasks[k].id
    ensures Next(w, s).backlog.tasks[k].session == Some(w.threads[s.i].at.held.id)
            || (Next(w, s).backlog.tasks[k] == w.backlog.tasks[k] && PickedUp(w, s, w.backlog.tasks[k].id) == 0)
  {
    var ts, held := w.backlog.tasks, w.threads[s.i].at.held;
    assert IndexOf(ts, ts[k].id) == k;
    PickedUpIsHandedOver(w, s, ts[k].id);
    var taken := WhatADecisionHandsOver(w, s, ts[k].id);
    assert Next(w, s).backlog.tasks[k] == HandedOver(ts[k], taken, held.id, s.now, held.model);
  }

  /** Another session is committed to no more than it was: a task it gives up takes what it reported along. */
  lemma OthersAreCommittedToNoMore(w: World, s: Step, session: SessionId)
    requires Enabled(w, s) && s.Decides? && Distinct(w.backlog.tasks) && session != w.threads[s.i].at.held.id
    ensures Committed(Next(w, s), session) <= Committed(w, session)
  {
    forall k | 0 <= k < |w.backlog.tasks| ensures HoldsNoMore(w, Next(w, s), session, k, 0, 0) {
      GivenUpOrKept(w, s, session, k);
    }
    CommittedMoves(w, Next(w, s), session, 0, 0, |w.backlog.tasks|);
  }

  /** What is free of a budget in tokens: what was declared, less what the session's tasks reported, less
      the room its running tasks have. */
  lemma FreeOfTokens(w: World, held: Session, read: Option<Measured>, before: Figures, now: U64)
    requires RoomBounded(w) && Keeps(w.sessions, held.id) && held.budget.usage.InTokens?
    ensures StandsAt(w.backlog.tasks, held, read, before, w.policy, now).Free()
         == SatSub(SatSub(held.budget.Declared(), Clamp(ExactAmong(w.backlog.tasks, held.id, |w.backlog.tasks|))),
                   RoomAmong(w.backlog.tasks, held.id, |w.backlog.tasks|))
  {
    BookedExactly(w, held.id);
    ExactIsCounted(w.backlog.tasks, held.id, |w.backlog.tasks|);
    TotalIsTheClampedSum(CountedIn(w.backlog.tasks, held.id));
  }

  lemma UnbookedStays(w: World, s: Step, session: SessionId, k: nat)
    requires Enabled(w, s) && s.Decides? && Sound(w.backlog) && OneRunEach(w) && k < |w.backlog.tasks|
    requires w.threads[s.i].at.held.id == session
    ensures |Next(w, s).backlog.tasks| == |w.backlog.tasks|
    ensures UnbookedBy(Next(w, s), session, Next(w, s).backlog.tasks[k]) == UnbookedBy(w, session, w.backlog.tasks[k])
  {
    var ts, id := w.backlog.tasks, w.backlog.tasks[k].id;
    assert IndexOf(ts, id) == k;
    WhatAStepCarries(w, s, id);
    PickedUpIsHandedOver(w, s, id);
    DecidingCarriesWhatItStarts(w, s, k);
  }

  lemma {:induction false} UnbookedAlike(w: World, v: World, session: SessionId, n: nat)
    requires n <= |w.backlog.tasks| && n <= |v.backlog.tasks|
    requires forall k :: 0 <= k < n ==>
               UnbookedBy(v, session, v.backlog.tasks[k]) == UnbookedBy(w, session, w.backlog.tasks[k])
    ensures UnbookedAmong(v, session, n) == UnbookedAmong(w, session, n)
  {
    if n > 0 {
      UnbookedAlike(w, v, session, n - 1);
    }
  }

  lemma {:induction false} UnbookedStaysAmong(w: World, s: Step, session: SessionId, n: nat)
    requires Enabled(w, s) && s.Decides? && Sound(w.backlog) && OneRunEach(w)
    requires w.threads[s.i].at.held.id == session && n <= |w.backlog.tasks| == |Next(w, s).backlog.tasks|
    ensures UnbookedAmong(Next(w, s), session, n) == UnbookedAmong(w, session, n)
  {
    var v := Next(w, s);
    forall k | 0 <= k < n
      ensures UnbookedBy(v, session, v.backlog.tasks[k]) == UnbookedBy(w, session, w.backlog.tasks[k])
    {
      UnbookedStays(w, s, session, k);
    }
    UnbookedAlike(w, v, session, n);
  }

  /** To the last token, what a decision leaves its session committed to, whenever it is made: what it found
      taken off the budget, the ceilings of runs cut off, what it hands out of what it found free, and what
      the tasks it hands over had consumed elsewhere. */
  lemma WhatADecisionCommits(w: World, s: Step) returns (taken: seq<Allowance>)
    requires Enabled(w, s) && s.Decides? && Sound(w.backlog) && Kept(w) && OneRunEach(w)
    ensures var held, ts, us := w.threads[s.i].at.held, w.backlog.tasks, Next(w, s).backlog.tasks;
            && HandsOver(ts, us, taken, held.id, s.now, held.model) && StillWaiting(ts, taken)
            && Decisions.Total(taken) <= StandsAt(ts, held, w.threads[s.i].at.read, s.before, w.policy, s.now).Free()
            && Committed(w, held.id)
              == ExactAmong(ts, held.id, |ts|) + RoomAmong(ts, held.id, |ts|) + Unbooked(w, held.id)
            && Committed(Next(w, s), held.id)
               == Committed(w, held.id) + Decisions.Total(taken) + BroughtAmong(ts, us, held.id, |ts|)
  {
    var ts, us, held := w.backlog.tasks, Next(w, s).backlog.tasks, w.threads[s.i].at.held;
    taken := HandedOutOfWhatIsFree(w, s);
    BroughtAlong(ts, us, taken, held.id, s.now, held.model, |ts|);
    RunningTasksStayCarried(w, s);
    WhatADecisionTakesOff(w, held.id, |ts|);
    WhatADecisionTakesOff(Next(w, s), held.id, |us|);
    UnbookedStaysAmong(w, s, held.id, |ts|);
  }

  /** The session a decision is for, whenever it is made, is committed to no more than it was, or within
      what it declared but for the ceilings of its runs cut off and for what the tasks it took on brought
      with them. */
  lemma DecidingCommitsWithinWhatIsDeclared(w: World, s: Step)
    requires Enabled(w, s) && s.Decides? && Sound(w.backlog) && Kept(w) && OneRunEach(w) && RoomBounded(w)
    requires w.threads[s.i].at.held.budget.usage.InTokens?
    ensures var id := w.threads[s.i].at.held.id;
            Committed(Next(w, s), id)
            <= Max(Committed(w, id), w.threads[s.i].at.held.budget.Declared() + Unbooked(w, id))
               + BroughtAmong(w.backlog.tasks, Next(w, s).backlog.tasks, id, |w.backlog.tasks|)
  {
    var held := w.threads[s.i].at.held;
    assert PhaseKnown(w.sessions, w.threads[s.i].at);
    FreeOfTokens(w, held, w.threads[s.i].at.read, s.before, s.now);
    var _ := WhatADecisionCommits(w, s);
  }

  /** And when those ceilings are harmful: where anything was free, exactly where they come to more than
      the decision left free. */
  lemma WhatADecisionPasses(w: World, s: Step) returns (taken: seq<Allowance>)
    requires Enabled(w, s) && s.Decides? && Sound(w.backlog) && Kept(w) && OneRunEach(w) && RoomBounded(w)
    requires w.threads[s.i].at.held.budget.usage.InTokens?
    ensures var held := w.threads[s.i].at.held;
            HandsOver(w.backlog.tasks, Next(w, s).backlog.tasks, taken, held.id, s.now, held.model)
    ensures var held, ts, us := w.threads[s.i].at.held, w.backlog.tasks, Next(w, s).backlog.tasks;
            var free := StandsAt(ts, held, w.threads[s.i].at.read, s.before, w.policy, s.now).Free();
            free > 0 ==>
              (Committed(Next(w, s), held.id) > held.budget.Declared() + BroughtAmong(ts, us, held.id, |ts|)
               <==> Unbooked(w, held.id) > free - Decisions.Total(taken))
  {
    var held := w.threads[s.i].at.held;
    assert PhaseKnown(w.sessions, w.threads[s.i].at);
    FreeOfTokens(w, held, w.threads[s.i].at.read, s.before, s.now);
    taken := WhatADecisionCommits(w, s);
  }

  // ---------------------------------------------------------------- over whole runs

  /** A session declared in tokens is committed to no more than it declared and so much more. One not
      opened yet is committed to nothing. */
  predicate Within(w: World, session: SessionId, more: nat) {
    if Keeps(w.sessions, session) then
      HeldAs(w.sessions, session).budget.usage.InTokens? ==>
        Committed(w, session) <= HeldAs(w.sessions, session).budget.Declared() + more
    else Committed(w, session) == 0
  }

  lemma {:induction false} NothingCommitted(w: World, session: SessionId, n: nat)
    requires n <= |w.backlog.tasks| && TasksKnown(w) && !Keeps(w.sessions, session)
    ensures CommittedAmong(w, session, n) == 0
  {
    if n > 0 {
      NothingCommitted(w, session, n - 1);
      assert Known(w.sessions, w.backlog.tasks[n - 1].session);
    }
  }

  /** What every step of a run relies on. */
  predicate Accounted(w: World) {
    OneRunEach(w) && CarriedRuns(w) && RoomBounded(w)
  }

  lemma StepsKeepAccounted(w: World, s: Step)
    requires Enabled(w, s) && RetriesInTime(w, s) && Sound(w.backlog) && Kept(w) && Accounted(w)
    ensures Accounted(Next(w, s))
  {
    StepsKeepOneRunEach(w, s);
    StepsKeepCarriedRuns(w, s);
    StepsKeepRoomBounded(w, s);
  }

  lemma DecisionsStayWithin(w: World, s: Step, session: SessionId, more: nat)
    requires Enabled(w, s) && s.Decides? && RetriesInTime(w, s) && Sound(w.backlog) && Kept(w) && Accounted(w)
    requires Within(w, session, more)
    ensures Within(Next(w, s), session, more + Beyond(w, s, session) + NotBooked(w, s, session))
  {
    var held := w.threads[s.i].at.held;
    assert PhaseKnown(w.sessions, w.threads[s.i].at);
    if held.id != session {
      OthersAreCommittedToNoMore(w, s, session);
    } else if held.budget.usage.InTokens? {
      DecidingCommitsWithinWhatIsDeclared(w, s);
    }
  }

  lemma WorkStaysWithin(w: World, s: Step, session: SessionId, more: nat)
    requires Enabled(w, s) && !s.Decides? && RetriesInTime(w, s) && Sound(w.backlog) && Kept(w) && Accounted(w)
    requires Within(w, session, more)
    ensures Within(Next(w, s), session, more + Beyond(w, s, session) + NotBooked(w, s, session))
  {
    SessionsOnlyGrow(w, s);
    WorkCommitsNoMore(w, s, session);
    if Keeps(w.sessions, session) {
      GrownFinds(w.sessions, Next(w, s).sessions, session);
    } else {
      NobodyRecordsForIt(w, s, session);
    }
  }

  lemma NobodyRecordsForIt(w: World, s: Step, session: SessionId)
    requires Enabled(w, s) && !s.Decides? && TasksKnown(w) && !Keeps(w.sessions, session)
    ensures Beyond(w, s, session) == 0
  {
    if s.Ends? || s.TurnsAway? {
      var at := IndexOf(w.backlog.tasks, w.threads[s.i].at.task);
      if at < |w.backlog.tasks| {
        assert Known(w.sessions, w.backlog.tasks[at].session);
      }
    }
  }

  predicate AllDecideInTime(w: World, steps: seq<Step>)
    requires CanRun(w, steps)
    decreases steps
  {
    steps == [] || (DecidesInTime(w, steps[0]) && AllDecideInTime(Next(w, steps[0]), steps[1..]))
  }

  predicate AllRetryInTime(w: World, steps: seq<Step>)
    requires CanRun(w, steps)
    decreases steps
  {
    steps == [] || (RetriesInTime(w, steps[0]) && AllRetryInTime(Next(w, steps[0]), steps[1..]))
  }

  /** Every step of a run is timely. */
  predicate AllTimely(w: World, steps: seq<Step>)
    requires CanRun(w, steps)
  {
    AllDecideInTime(w, steps) && AllRetryInTime(w, steps)
  }

  /** How far past their ceilings the runs a session recorded went, and what the tasks it took on had
      already reported elsewhere. */
  function BeyondAll(w: World, steps: seq<Step>, session: SessionId): nat
    requires CanRun(w, steps)
    decreases steps
  {
    if steps == [] then 0 else Beyond(w, steps[0], session) + BeyondAll(Next(w, steps[0]), steps[1..], session)
  }

  function AllNotBooked(w: World, steps: seq<Step>, session: SessionId): nat
    requires CanRun(w, steps)
    decreases steps
  {
    if steps == [] then 0 else NotBooked(w, steps[0], session) + AllNotBooked(Next(w, steps[0]), steps[1..], session)
  }

  lemma {:induction false} RunsStayWithin(w: World, steps: seq<Step>, session: SessionId, more: nat)
    requires CanRun(w, steps) && AllRetryInTime(w, steps) && Sound(w.backlog) && Kept(w) && Accounted(w)
    requires Within(w, session, more)
    ensures Within(Ran(w, steps), session, more + BeyondAll(w, steps, session) + AllNotBooked(w, steps, session))
    ensures Kept(Ran(w, steps)) && Accounted(Ran(w, steps))
    decreases steps
  {
    if steps != [] {
      var s := steps[0];
      StepsKeep(w, s);
      StepsKeepAccounted(w, s);
      if s.Decides? {
        DecisionsStayWithin(w, s, session, more);
      } else {
        WorkStaysWithin(w, s, session, more);
      }
      RunsStayWithin(Next(w, s), steps[1..], session, more + Beyond(w, s, session) + NotBooked(w, s, session));
    }
  }

  lemma {:induction false} IdleHandsCarryNothing(threads: seq<Thread>, n: nat, id: TaskId)
    requires n <= |threads| && forall j :: 0 <= j < n ==> threads[j].at.Idle?
    ensures CarriedAmong(threads, n, id) == 0
  {
    if n > 0 {
      IdleHandsCarryNothing(threads, n - 1, id);
    }
  }

  lemma ADaemonStartsAccounted(atOnce: nat, policy: Policy)
    ensures Accounted(NewDaemon(atOnce, policy))
  {
    var w := NewDaemon(atOnce, policy);
    forall id: TaskId ensures Carried(w, id) == 0 {
      IdleHandsCarryNothing(w.threads, |w.threads|, id);
    }
  }

  lemma TimelyDecisionsBookEverything(w: World, s: Step, session: SessionId)
    requires Enabled(w, s) && DecidesInTime(w, s) && CarriedRuns(w)
    ensures NotBooked(w, s, session) == 0
  {
    if s.Decides? && w.threads[s.i].at.held.id == session {
      NothingUnbookedWhileItRuns(w, session, |w.backlog.tasks|);
    }
  }

  lemma {:induction false} TimelyRunsBookEverything(w: World, steps: seq<Step>, session: SessionId)
    requires CanRun(w, steps) && AllTimely(w, steps) && Sound(w.backlog) && Kept(w) && Accounted(w)
    ensures AllNotBooked(w, steps, session) == 0
    decreases steps
  {
    if steps != [] {
      var s := steps[0];
      TimelyDecisionsBookEverything(w, s, session);
      StepsKeep(w, s);
      StepsKeepAccounted(w, s);
      TimelyRunsBookEverything(Next(w, s), steps[1..], session);
    }
  }

  /** Over any run of the daemon from its start whose retries come in time, what a session's tasks say they
      consumed and the whole ceilings of its runs still to be recorded come to no more than it declared,
      plus how far recorded runs went past their ceilings, plus what tasks it took on had reported in
      sessions before, plus what late decisions booked no room for: nothing, where none is late. */
  lemma WhatTasksSayStaysWithin(atOnce: nat, policy: Policy, steps: seq<Step>, session: SessionId)
    requires atOnce > 0 && CanRun(NewDaemon(atOnce, policy), steps) && AllRetryInTime(NewDaemon(atOnce, policy), steps)
    requires Keeps(Ran(NewDaemon(atOnce, policy), steps).sessions, session)
    requires HeldAs(Ran(NewDaemon(atOnce, policy), steps).sessions, session).budget.usage.InTokens?
    ensures var w := Ran(NewDaemon(atOnce, policy), steps);
            Committed(w, session)
            <= HeldAs(w.sessions, session).budget.Declared() + BeyondAll(NewDaemon(atOnce, policy), steps, session)
               + AllNotBooked(NewDaemon(atOnce, policy), steps, session)
    ensures AllTimely(NewDaemon(atOnce, policy), steps) ==> AllNotBooked(NewDaemon(atOnce, policy), steps, session) == 0
  {
    ADaemonStartsKept(atOnce, policy);
    ADaemonStartsAccounted(atOnce, policy);
    RunsStayWithin(NewDaemon(atOnce, policy), steps, session, 0);
    if AllTimely(NewDaemon(atOnce, policy), steps) {
      TimelyRunsBookEverything(NewDaemon(atOnce, policy), steps, session);
    }
  }

  // ---------------------------------------------------------------- tasks that had reported nothing

  /** A decision takes on only tasks that reported nothing yet. */
  predicate TakesOnNewTasks(w: World, s: Step)
    requires Enabled(w, s)
  {
    s.Decides? ==> forall k :: 0 <= k < |w.backlog.tasks| && Next(w, s).backlog.tasks[k] != w.backlog.tasks[k] ==>
      w.backlog.tasks[k].consumed.NotYet?
  }

  predicate AllTakeOnNewTasks(w: World, steps: seq<Step>)
    requires CanRun(w, steps)
    decreases steps
  {
    steps == [] || (TakesOnNewTasks(w, steps[0]) && AllTakeOnNewTasks(Next(w, steps[0]), steps[1..]))
  }

  function AllWentPast(w: World, steps: seq<Step>, session: SessionId): nat
    requires CanRun(w, steps)
    decreases steps
  {
    if steps == [] then 0 else WentPast(w, steps[0], session) + AllWentPast(Next(w, steps[0]), steps[1..], session)
  }

  lemma {:induction false} NothingBrought(ts: seq<Task>, us: seq<Task>, session: SessionId, n: nat)
    requires n <= |ts| && n <= |us| && forall k :: 0 <= k < n && us[k] != ts[k] ==> ts[k].consumed.NotYet?
    ensures BroughtAmong(ts, us, session, n) == 0
  {
    if n > 0 {
      NothingBrought(ts, us, session, n - 1);
    }
  }

  lemma {:induction false} NewTasksBringNothing(w: World, steps: seq<Step>, session: SessionId)
    requires CanRun(w, steps) && AllTakeOnNewTasks(w, steps)
    ensures BeyondAll(w, steps, session) == AllWentPast(w, steps, session)
    decreases steps
  {
    if steps != [] {
      if steps[0].Decides? {
        NothingBrought(w.backlog.tasks, Next(w, steps[0]).backlog.tasks, session, |w.backlog.tasks|);
      }
      NewTasksBringNothing(Next(w, steps[0]), steps[1..], session);
    }
  }

  /** Where decisions come in time too and every task was new to being run when it was handed over, what
      tasks say, and so the figure the daemon counts, passes what was declared only by what runs went past
      their own ceilings. */
  lemma WhatIsCountedStaysWithin(atOnce: nat, policy: Policy, steps: seq<Step>, session: SessionId)
    requires atOnce > 0 && CanRun(NewDaemon(atOnce, policy), steps) && AllTimely(NewDaemon(atOnce, policy), steps)
    requires AllTakeOnNewTasks(NewDaemon(atOnce, policy), steps)
    requires Keeps(Ran(NewDaemon(atOnce, policy), steps).sessions, session)
    requires HeldAs(Ran(NewDaemon(atOnce, policy), steps).sessions, session).budget.usage.InTokens?
    ensures var w := Ran(NewDaemon(atOnce, policy), steps);
            && Committed(w, session)
               <= HeldAs(w.sessions, session).budget.Declared() + AllWentPast(NewDaemon(atOnce, policy), steps, session)
            && Spendings.Total(CountedIn(w.backlog.tasks, session)).Tokens() <= Committed(w, session)
  {
    var w := Ran(NewDaemon(atOnce, policy), steps);
    WhatTasksSayStaysWithin(atOnce, policy, steps, session);
    NewTasksBringNothing(NewDaemon(atOnce, policy), steps, session);
    ExactIsCounted(w.backlog.tasks, session, |w.backlog.tasks|);
    TotalIsTheClampedSum(CountedIn(w.backlog.tasks, session));
    CountedIsCommitted(w, session, |w.backlog.tasks|);
  }

  lemma {:induction false} CountedIsCommitted(w: World, session: SessionId, n: nat)
    requires n <= |w.backlog.tasks|
    ensures ExactAmong(w.backlog.tasks, session, n) <= CommittedAmong(w, session, n)
  {
    if n > 0 {
      CountedIsCommitted(w, session, n - 1);
    }
  }
}
