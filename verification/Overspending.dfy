/** When a decision can take a session past what it declared, told by how things stand before it is made and
    whatever the policy: exactly where something was forgotten, or a run cut off is still out, that what the
    session's tasks say at the moment does not make up for. */
module Overspending {
  import opened Wrappers
  import opened Numbers
  import opened Spendings
  import opened Tasks
  import opened Graph
  import opened Closure
  import opened SessionValues
  import Sizings
  import opened Decisions
  import opened Settling
  import opened FirstInLine
  import opened Protocol
  import opened Steps
  import opened NoIdle
  import opened Commitments
  import opened BudgetBound
  import opened Reports

  /** Somebody is about to decide for a session of tokens that has time left, nothing unread and something
      not taken, while a task waits and a hand is free for it. */
  predicate CanHandOut(w: World, i: nat, now: U64) {
    && i < |w.threads| && w.threads[i].at.Deciding?
    && var ts, held := w.backlog.tasks, w.threads[i].at.held;
       && held.budget.usage.InTokens? && held.TimeLeft(now) > 0 && !Unread(ts, held.id) && Waiting(ts) != []
       && RunningIn(ts, held.id) < w.atOnce
       && ExactAmong(ts, held.id, |ts|) + RoomAmong(ts, held.id, |ts|) < held.budget.Declared()
  }

  // ---------------------------------------------------------------- handing out all there is

  /** One run of this model took just so much, and no run has a length. */
  function JustEnough(model: Option<string>, free: U64): Figures {
    Figures(Sizings.With(Sizings.Sizings(map[], None), model, Sizings.Sizing(free, free, 1, 0)),
            Sizings.Sizings(map[], None))
  }

  lemma {:induction false} JustEnoughIsOffered(st: Standing, model: Option<string>, free: U64, alone: bool)
    requires st.before == JustEnough(model, free) && free > 0
    ensures Offered(st, model, free, alone) == Some(free)
  {
    assert st.before.cost.Model(model).value.Allowing() == free;
  }

  /** By these figures a decision hands whoever waits first all that is free. */
  lemma {:induction false} AllIsAllowed(ts: seq<Task>, held: Session, read: Option<Measured>, policy: Policy, now: U64,
                                        free: U64) returns (before: Figures)
    requires held.TimeLeft(now) > 0 && !Unread(ts, held.id) && Waiting(ts) != [] && held.budget.usage.InTokens?
    requires forall before :: StandsAt(ts, held, read, before, policy, now).Free() == free
    requires free > 0
    ensures Judged(ts, held, read, before, policy, now) == Decision.Start([Allowance(Waiting(ts)[0].0, free)])
  {
    var model := Waiting(ts)[0].1;
    before := JustEnough(model, free);
    var st := StandsAt(ts, held, read, before, policy, now);
    JustEnoughIsOffered(st, model, free, st.running == 0);
    TheFirstIsAllowedAll(st);
  }

  lemma {:induction false} OneStillWaits(ts: seq<Task>, free: U64) returns (taken: seq<Allowance>)
    requires Distinct(ts) && Waiting(ts) != []
    ensures taken == [Allowance(Waiting(ts)[0].0, free)] && StillWaiting(ts, taken) && Decisions.Total(taken) == free
  {
    taken := [Allowance(Waiting(ts)[0].0, free)];
    var at := SomebodyIsFirst(ts, |ts|);
    FoundFirst(ts, at);
    TotalOfOneMore([], Waiting(ts)[0].0, Some(free));
    assert [] + taken == taken;
  }

  lemma {:induction false} FoundFirst(ts: seq<Task>, at: nat)
    requires Distinct(ts) && at < |ts|
    ensures IndexOf(ts, ts[at].id) == at
  {
  }

  /** So it can leave the room of what runs, and all that was free besides. */
  lemma {:induction false} AllIsHandedOut(w: World, i: nat, now: U64) returns (before: Figures)
    requires CanHandOut(w, i, now) && Distinct(w.backlog.tasks) && RoomBounded(w)
    requires Keeps(w.sessions, w.threads[i].at.held.id)
    ensures Enabled(w, Decides(i, before, now))
    ensures var us, held := Next(w, Decides(i, before, now)).backlog.tasks, w.threads[i].at.held;
            RoomAmong(us, held.id, |us|)
            == held.budget.Declared() - ExactAmong(w.backlog.tasks, held.id, |w.backlog.tasks|)
  {
    var ts, held, read := w.backlog.tasks, w.threads[i].at.held, w.threads[i].at.read;
    var free := held.budget.Declared() - ExactAmong(ts, held.id, |ts|) - RoomAmong(ts, held.id, |ts|);
    forall before ensures StandsAt(ts, held, read, before, w.policy, now).Free() == free {
      FreeOfTokens(w, held, read, before, now);
    }
    before := AllIsAllowed(ts, held, read, w.policy, now, free);
    var taken := OneStillWaits(ts, free);
    SettledSo(now, ts, held, read, before, w.policy, w.atOnce, taken);
    AssigningHandsOverExactlyThese(ts, taken, held.id, now, held.model);
  }

  // ---------------------------------------------------------------- what a decision can leave

  /** What a decision leaves its session committed to, and what it leaves outstanding, by the room it leaves. */
  lemma {:induction false} WhatADecisionLeaves(w: World, s: Step)
    requires Enabled(w, s) && s.Decides? && Sound(w.backlog) && Kept(w) && OneRunEach(w)
    ensures var id, ts, us := w.threads[s.i].at.held.id, w.backlog.tasks, Next(w, s).backlog.tasks;
            && |us| == |ts| && Outstanding(Next(w, s), id) == RoomAmong(us, id, |us|) + Unbooked(w, id)
            && Committed(Next(w, s), id)
               == ExactAmong(ts, id, |ts|) + BroughtAmong(ts, us, id, |ts|) + RoomAmong(us, id, |us|) + Unbooked(w, id)
  {
    var held, ts, us := w.threads[s.i].at.held, w.backlog.tasks, Next(w, s).backlog.tasks;
    var taken := HandedOutOfWhatIsFree(w, s);
    BroughtAlong(ts, us, taken, held.id, s.now, held.model, |ts|);
    RunningTasksStayCarried(w, s);
    WhatIsOutstanding(Next(w, s), held.id);
    WhatADecisionTakesOff(Next(w, s), held.id, |us|);
    UnbookedStaysAmong(w, s, held.id, |ts|);
  }

  lemma {:induction false} RoomLeftIsBounded(w: World, s: Step)
    requires Enabled(w, s) && s.Decides? && CanHandOut(w, s.i, s.now) && Distinct(w.backlog.tasks) && RoomBounded(w)
    requires Keeps(w.sessions, w.threads[s.i].at.held.id)
    ensures var us, held := Next(w, s).backlog.tasks, w.threads[s.i].at.held;
            RoomAmong(us, held.id, |us|)
            <= held.budget.Declared() - ExactAmong(w.backlog.tasks, held.id, |w.backlog.tasks|)
  {
    var held := w.threads[s.i].at.held;
    var taken := HandedOutOfWhatIsFree(w, s);
    FreeOfTokens(w, held, w.threads[s.i].at.read, s.before, s.now);
  }

  /** After so much was reported to the session, the decision leaves it past what it declared. */
  predicate PassesReported(w: World, s: Step, reported: nat) {
    && Enabled(w, s) && s.Decides?
    && reported + Outstanding(Next(w, s), w.threads[s.i].at.held.id) > w.threads[s.i].at.held.budget.Declared()
  }

  /** The decision leaves the session committed past what it declared, whatever its new tasks bring along. */
  predicate PassesCommitted(w: World, s: Step) {
    && Enabled(w, s) && s.Decides?
    && var id, ts, us := w.threads[s.i].at.held.id, w.backlog.tasks, Next(w, s).backlog.tasks;
       |us| == |ts|
       && Committed(Next(w, s), id) > w.threads[s.i].at.held.budget.Declared() + BroughtAmong(ts, us, id, |ts|)
  }

  lemma {:induction false} DeciderIsKnown(w: World, i: nat)
    requires Kept(w) && i < |w.threads| && w.threads[i].at.Deciding?
    ensures Keeps(w.sessions, w.threads[i].at.held.id)
  {
    assert PhaseKnown(w.sessions, w.threads[i].at);
  }

  /** Late or in time, and whatever the policy, some figures make a decision commit its session past what it
      declared exactly where the ceiling of a run cut off is still out. */
  lemma {:induction false} RunsCutOffAreHarmfulExactlyWhere(w: World, i: nat, now: U64)
    requires Sound(w.backlog) && Kept(w) && OneRunEach(w) && RoomBounded(w) && CanHandOut(w, i, now)
    ensures (exists before :: PassesCommitted(w, Decides(i, before, now))) <==> Unbooked(w, w.threads[i].at.held.id) > 0
  {
    DeciderIsKnown(w, i);
    if Unbooked(w, w.threads[i].at.held.id) > 0 {
      var before := AllIsHandedOut(w, i, now);
      WhatADecisionLeaves(w, Decides(i, before, now));
      assert PassesCommitted(w, Decides(i, before, now));
    }
    forall before | PassesCommitted(w, Decides(i, before, now)) ensures Unbooked(w, w.threads[i].at.held.id) > 0 {
      RoomLeftIsBounded(w, Decides(i, before, now));
      WhatADecisionLeaves(w, Decides(i, before, now));
    }
  }

  /** And some figures make it take what was ever reported to the session, with what is outstanding, past what
      was declared exactly where what was forgotten and what runs cut off may still spend come to more than
      what those of its tasks with a run out had told it. */
  lemma {:induction false} ForgettingIsHarmfulExactlyWhere(w: World, i: nat, now: U64, reported: nat, forgot: nat)
    requires Sound(w.backlog) && Kept(w) && OneRunEach(w) && RoomBounded(w) && CanHandOut(w, i, now)
    requires reported == Settled(w, w.threads[i].at.held.id) + forgot
    ensures var id := w.threads[i].at.held.id;
            (exists before :: PassesReported(w, Decides(i, before, now), reported))
            <==> Settled(w, id) + forgot + Unbooked(w, id) > ExactAmong(w.backlog.tasks, id, |w.backlog.tasks|)
  {
    var id := w.threads[i].at.held.id;
    DeciderIsKnown(w, i);
    if Settled(w, id) + forgot + Unbooked(w, id) > ExactAmong(w.backlog.tasks, id, |w.backlog.tasks|) {
      var before := AllIsHandedOut(w, i, now);
      WhatADecisionLeaves(w, Decides(i, before, now));
      assert PassesReported(w, Decides(i, before, now), reported);
    }
    forall before | PassesReported(w, Decides(i, before, now), reported)
      ensures Settled(w, id) + forgot + Unbooked(w, id) > ExactAmong(w.backlog.tasks, id, |w.backlog.tasks|)
    {
      RoomLeftIsBounded(w, Decides(i, before, now));
      WhatADecisionLeaves(w, Decides(i, before, now));
    }
  }

  // ---------------------------------------------------------------- after whole runs

  lemma {:induction false} RunsKeepAccounted(w: World, steps: seq<Step>)
    requires CanRun(w, steps) && AllRetryInTime(w, steps) && Sound(w.backlog) && Kept(w) && Accounted(w)
    ensures Sound(Ran(w, steps).backlog) && Kept(Ran(w, steps)) && Accounted(Ran(w, steps))
    decreases steps
  {
    if steps != [] {
      StepsKeep(w, steps[0]);
      StepsKeepAccounted(w, steps[0]);
      RunsKeepAccounted(Next(w, steps[0]), steps[1..]);
    }
  }

  /** With nothing of a running session going, all its tasks say stands. */
  lemma {:induction false} NothingGoingAllStands(w: World, session: SessionId, n: nat)
    requires n <= |w.backlog.tasks| && Runs(w.sessions, session) && CarriedRuns(w)
    requires RunningIn(w.backlog.tasks, session) == 0
    ensures Sum(SettledEach(w, session)[..n]) == ExactAmong(w.backlog.tasks, session, n)
  {
    if n > 0 {
      NothingGoingAllStands(w, session, n - 1);
      OneMore(SettledEach(w, session), n);
      assert CarriedRunsAt(w, w.backlog.tasks[n - 1]);
      SomethingRuns(w.backlog.tasks, session, |w.backlog.tasks|);
    }
  }

  lemma {:induction false} WithNothingGoing(w: World, session: SessionId)
    requires Runs(w.sessions, session) && CarriedRuns(w) && RunningIn(w.backlog.tasks, session) == 0
    ensures Settled(w, session) == ExactAmong(w.backlog.tasks, session, |w.backlog.tasks|)
  {
    NothingGoingAllStands(w, session, |w.backlog.tasks|);
    assert SettledEach(w, session)[..|w.backlog.tasks|] == SettledEach(w, session);
  }

  lemma {:induction false} WhatARunLeaves(atOnce: nat, policy: Policy, steps: seq<Step>, v: World, session: SessionId)
    requires atOnce > 0 && CanRun(NewDaemon(atOnce, policy), steps) && AllRetryInTime(NewDaemon(atOnce, policy), steps)
    requires v == Ran(NewDaemon(atOnce, policy), steps) && Runs(v.sessions, session)
    ensures Sound(v.backlog) && Kept(v) && Accounted(v) && Unbooked(v, session) == 0
    ensures var w0 := NewDaemon(atOnce, policy);
            ReportedOver(w0, steps, session) == Settled(v, session) + AllForgotten(w0, steps, session)
  {
    ADaemonStartsKept(atOnce, policy);
    ADaemonStartsAccounted(atOnce, policy);
    RunsKeepAccounted(NewDaemon(atOnce, policy), steps);
    WhatStandsIsWhatWasToldLessWhatWasForgotten(atOnce, policy, steps, session);
    NothingUnbookedWhileItRuns(v, session, |v.backlog.tasks|);
  }

  /** Whoever is about to decide for a session that runs, after any run of the daemon whose retries come in
      time and whatever the policy: some figures take all that was ever reported to the session, with all its
      runs may still spend, past what it declared exactly where it was made to forget more than those of its
      tasks with a run out had told it; and with nothing going, exactly where it was made to forget anything. */
  lemma {:induction false} ARunOverspendsExactlyWhere(atOnce: nat, policy: Policy, steps: seq<Step>, i: nat, now: U64)
    requires atOnce > 0 && CanRun(NewDaemon(atOnce, policy), steps) && AllRetryInTime(NewDaemon(atOnce, policy), steps)
    requires CanHandOut(Ran(NewDaemon(atOnce, policy), steps), i, now)
    requires var v := Ran(NewDaemon(atOnce, policy), steps);
             Runs(v.sessions, v.threads[i].at.held.id)
    ensures var w0, v := NewDaemon(atOnce, policy), Ran(NewDaemon(atOnce, policy), steps);
            var id := v.threads[i].at.held.id;
            (exists before :: PassesReported(v, Decides(i, before, now), ReportedOver(w0, steps, id)))
            <==> AllForgotten(w0, steps, id) > ExactAmong(v.backlog.tasks, id, |v.backlog.tasks|) - Settled(v, id)
    ensures var w0, v := NewDaemon(atOnce, policy), Ran(NewDaemon(atOnce, policy), steps);
            var id := v.threads[i].at.held.id;
            RunningIn(v.backlog.tasks, id) == 0 ==>
              ((exists before :: PassesReported(v, Decides(i, before, now), ReportedOver(w0, steps, id)))
               <==> AllForgotten(w0, steps, id) > 0)
  {
    var w0, v := NewDaemon(atOnce, policy), Ran(NewDaemon(atOnce, policy), steps);
    var id := v.threads[i].at.held.id;
    WhatARunLeaves(atOnce, policy, steps, v, id);
    ForgettingIsHarmfulExactlyWhere(v, i, now, ReportedOver(w0, steps, id), AllForgotten(w0, steps, id));
    if RunningIn(v.backlog.tasks, id) == 0 {
      WithNothingGoing(v, id);
    }
  }
}
