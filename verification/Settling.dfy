/** One decision, made over the backlog as it is held, and what its verdicts mean there. */
module Settling {
  import opened Wrappers
  import opened Numbers
  import opened Spendings
  import opened Tasks
  import opened Graph
  import opened SessionValues
  import opened Sizings
  import opened Decisions

  /** How a session stands, from the backlog as it is held. */
  function StandingOf(ts: seq<Task>, held: Session, spent: Spending, before: Figures, policy: Policy, now: U64,
                      unread: bool): Standing
  {
    Standing(
      held.budget.Declared(),
      if spent.Against(held.budget.usage).Some? then spent.Against(held.budget.usage).value else held.budget.Declared(),
      SatSub(now, held.startedAt),
      BookedIn(ts, held.id),
      before,
      held.TimeLeft(now),
      Waiting(ts),
      RunningIn(ts, held.id),
      AllBlocked(ts),
      unread || Unread(ts, held.id),
      policy.timing, policy.locking, policy.pacing)
  }

  /** What the session has consumed when the decision is made: the vendor's reading where its unit is a
      share, and the backlog's own sum where it is a count. */
  function SpentBy(ts: seq<Task>, held: Session, read: Option<Measured>): Spending {
    if held.budget.usage.InTokens? then Tokens(Spendings.Total(CountedIn(ts, held.id)).Tokens())
    else if read.Some? then read.value.spent
    else held.consumed
  }

  /** How the session stands when it is judged. A share nobody could read is unmeasurable. */
  function StandsAt(ts: seq<Task>, held: Session, read: Option<Measured>, before: Figures, policy: Policy,
                    now: U64): Standing {
    StandingOf(ts, held, SpentBy(ts, held, read), before, policy, now, held.budget.usage.InShare? && read.None?)
  }

  function Judged(ts: seq<Task>, held: Session, read: Option<Measured>, before: Figures, policy: Policy,
                  now: U64): Decision {
    Decide(StandsAt(ts, held, read, before, policy, now))
  }

  // ---------------------------------------------------------------- what a verdict says of the backlog

  lemma {:induction false} NothingRunsNothingIsBooked(ts: seq<Task>, to: SessionId, n: nat)
    requires n <= |ts| && RunningAmong(ts, to, n) == 0
    ensures RoomAmong(ts, to, n) == 0
  {
    if n > 0 {
      NothingRunsNothingIsBooked(ts, to, n - 1);
    }
  }

  /** Neither figure covers a run of this model: the clock would not let it finish, or what is left is
      under even what the cheap runs of it took. */
  predicate CannotBeCovered(st: Standing, model: Option<string>) {
    || !FitsTheClock(st, model)
    || (st.before.cost.Model(model).Some? && st.Left() < Max(st.before.cost.Model(model).value.fallback, 1)
        && st.Left() < Max(st.before.cost.Model(model).value.Allowing(), 1))
  }

  /** With nothing running, nothing is allowed exactly where none of the tasks that may start can be covered. */
  lemma NothingAllowedOverABacklog(ts: seq<Task>, st: Standing)
    requires st.pending == Waiting(ts) && st.running == 0 && st.booked == 0 && st.Left() > 0
    ensures Allowances(st) == []
            <==> forall i :: 0 <= i < |ts| && MayStart(ts, ts[i]) ==> CannotBeCovered(st, ts[i].model)
  {
    IdleAndNothingGiven(st);
    WaitingIsWhatMayStart(ts, |ts|);
    var places := PlacesAmong(ts, |ts|);
    forall k | 0 <= k < |Waiting(ts)| ensures Waiting(ts)[k].1 == ts[places[k]].model {
    }
    if forall k :: 0 <= k < |st.pending| ==> RefusedAlone(st, st.pending[k].1) {
      forall i | 0 <= i < |ts| && MayStart(ts, ts[i]) ensures CannotBeCovered(st, ts[i].model) {
        var k :| 0 <= k < |places| && places[k] == i;
        assert RefusedAlone(st, st.pending[k].1);
      }
    }
    if forall i :: 0 <= i < |ts| && MayStart(ts, ts[i]) ==> CannotBeCovered(st, ts[i].model) {
      forall k | 0 <= k < |st.pending| ensures RefusedAlone(st, st.pending[k].1) {
        assert MayStart(ts, ts[places[k]]);
      }
    }
  }

  /** What each reason says, over the backlog it was given over. */
  predicate Says(why: StoppedReason, ts: seq<Task>, st: Standing) {
    match why
    case ObservationUnreadable => st.unreadable
    case AllDone => !st.unreadable && st.running == 0 && !SomePending(ts)
    case Blocked => !st.unreadable && st.running == 0 && AllBlocked(ts)
    case NothingFits =>
      !st.unreadable && st.running == 0 && Waiting(ts) != [] && st.Left() > 0 && st.timeLeft > 0
      && forall i :: 0 <= i < |ts| && MayStart(ts, ts[i]) ==> CannotBeCovered(st, ts[i].model)
    case BudgetHardlock =>
      !st.unreadable
      && if st.running == 0 then Waiting(ts) != [] && (st.Left() == 0 || st.timeLeft == 0)
         else st.locking.Cuts? && st.Left() == 0
    case _ => false
  }

  /** Every stop a decision reaches, told by the backlog it was reached over: each reason is given
      exactly where what it says is so, and no other reason is ever given. */
  lemma StopReasonsAreTrue(ts: seq<Task>, held: Session, spent: Spending, before: Figures, policy: Policy, now: U64,
                           unread: bool, why: StoppedReason)
    ensures var st := StandingOf(ts, held, spent, before, policy, now, unread);
            Decide(st) == Stop(why) <==> Says(why, ts, st)
  {
    var st := StandingOf(ts, held, spent, before, policy, now, unread);
    NothingWaits(ts);
    assert !SomePending(ts) ==> Waiting(ts) == [];
    if st.running == 0 {
      NothingRunsNothingIsBooked(ts, held.id, |ts|);
      if st.Left() > 0 {
        NothingAllowedOverABacklog(ts, st);
      } else {
        IdleAndNothingGiven(st);
      }
    }
  }

  /** What the clock says of a session it finds out of time with nothing going. */
  function SaidByTheClock(ts: seq<Task>): StoppedReason {
    NothingMore(Waiting(ts) != [], AllBlocked(ts), true)
  }

  /** The clock and a decision never come to different answers: where what a session consumed can be
      read, what the clock stops it for is what deciding at that moment would have. */
  lemma TheClockAgreesWithTheDecision(ts: seq<Task>, held: Session, spent: Spending, before: Figures, policy: Policy,
                                      now: U64, unread: bool)
    requires DoneWaiting(held.TimeLeft(now), RunningIn(ts, held.id))
    ensures Decide(StandingOf(ts, held, spent, before, policy, now, unread)) == Stop(SaidByTheClock(ts))
       <==> !(unread || Unread(ts, held.id))
  {
  }

  // ---------------------------------------------------------------- handing tasks over

  /** Assigns what was allowed, one at a time, and says which were still there to assign. */
  function AssignAll(ts: seq<Task>, allowed: seq<Allowance>, to: SessionId, now: U64, fallback: Option<string>)
    : (r: (seq<Task>, seq<TaskId>))
    ensures |r.0| == |ts|
  {
    if allowed == [] then (ts, [])
    else
      var (us, started) := AssignAll(ts, allowed[..|allowed| - 1], to, now, fallback);
      var last := allowed[|allowed| - 1];
      (Assign(us, last.task, to, last.ceiling, now, fallback),
       started + if Assignable(us, last.task) then [last.task] else [])
  }

  /** How many of those allowed the machine has hands for. */
  function HandsFor(allowed: seq<Allowance>, atOnce: nat, running: nat): nat {
    Min(|allowed|, if running <= atOnce then atOnce - running else 0)
  }

  /** Each is on the list, still waiting, and named once. */
  predicate StillWaiting(ts: seq<Task>, allowed: seq<Allowance>) {
    && (forall k :: 0 <= k < |allowed| ==> Has(ts, allowed[k].task) && ts[IndexOf(ts, allowed[k].task)].state.Pending?)
    && (forall k, l :: 0 <= k < l < |allowed| ==> allowed[k].task != allowed[l].task)
  }

  lemma {:induction false} RunningAfterOne(ts: seq<Task>, at: nat, t: Task, to: SessionId, n: nat)
    requires n <= |ts| && at < |ts| && !ts[at].RunsFor(to) && t.RunsFor(to) && t.ceiling.Some?
    ensures RunningAmong(ts[at := t], to, n) == RunningAmong(ts, to, n) + if at < n then 1 else 0
    ensures RoomAmong(ts[at := t], to, n) == RoomAmong(ts, to, n) + if at < n then t.ceiling.value else 0
  {
    if n > 0 {
      RunningAfterOne(ts, at, t, to, n - 1);
    }
  }

  function NamedAt(allowed: seq<Allowance>, id: TaskId): (at: nat)
    ensures at <= |allowed|
    ensures at < |allowed| ==> allowed[at].task == id
    ensures forall k :: 0 <= k < at ==> allowed[k].task != id
  {
    if allowed == [] then 0
    else
      var before := NamedAt(allowed[..|allowed| - 1], id);
      assert forall k :: 0 <= k < |allowed| - 1 ==> allowed[k] == allowed[..|allowed| - 1][k];
      if before < |allowed| - 1 then before
      else if allowed[|allowed| - 1].task == id then |allowed| - 1
      else |allowed|
  }

  /** The task as it is once the list was assigned. */
  function HandedOver(t: Task, allowed: seq<Allowance>, to: SessionId, now: U64, fallback: Option<string>): Task {
    var at := NamedAt(allowed, t.id);
    if at < |allowed| then Handed(t, to, allowed[at].ceiling, now, fallback) else t
  }

  /** Every task handed over that was named, and every other as it was. */
  ghost predicate HandsOver(ts: seq<Task>, us: seq<Task>, allowed: seq<Allowance>, to: SessionId, now: U64,
                            fallback: Option<string>) {
    |us| == |ts| && forall i :: 0 <= i < |ts| ==> us[i] == HandedOver(ts[i], allowed, to, now, fallback)
  }

  /** The tasks and the room a session has going grew by what it was allowed. */
  ghost predicate Grows(ts: seq<Task>, us: seq<Task>, allowed: seq<Allowance>, to: SessionId) {
    && RunningIn(us, to) == RunningIn(ts, to) + |allowed|
    && RoomAmong(us, to, |us|) == RoomAmong(ts, to, |ts|) + Decisions.Total(allowed)
  }

  predicate NotNamed(allowed: seq<Allowance>, id: TaskId) {
    forall k :: 0 <= k < |allowed| ==> allowed[k].task != id
  }

  lemma NamedLast(allowed: seq<Allowance>, last: Allowance, id: TaskId)
    requires NotNamed(allowed, last.task)
    ensures NamedAt(allowed + [last], id)
         == if id == last.task then |allowed|
            else if NamedAt(allowed, id) < |allowed| then NamedAt(allowed, id)
            else |allowed| + 1
  {
    assert (allowed + [last])[..|allowed|] == allowed;
  }

  lemma StandsWhereItStood(ts: seq<Task>, us: seq<Task>, allowed: seq<Allowance>, last: Allowance, to: SessionId,
                           now: U64, fallback: Option<string>)
    requires Distinct(ts) && HandsOver(ts, us, allowed, to, now, fallback) && NotNamed(allowed, last.task)
    requires Has(ts, last.task) && ts[IndexOf(ts, last.task)].state.Pending?
    ensures PendingIndexOf(us, last.task) == IndexOf(ts, last.task)
    ensures us[IndexOf(ts, last.task)] == ts[IndexOf(ts, last.task)]
  {
    var at := IndexOf(ts, last.task);
    assert us[at] == HandedOver(ts[at], allowed, to, now, fallback);
    forall j | 0 <= j < |us| && j != at ensures us[j].id != last.task {
      assert us[j] == HandedOver(ts[j], allowed, to, now, fallback);
    }
  }

  /** Handing over one more. */
  lemma OneMoreHandedOver(ts: seq<Task>, us: seq<Task>, allowed: seq<Allowance>, last: Allowance, to: SessionId,
                          now: U64, fallback: Option<string>)
    requires Distinct(ts) && HandsOver(ts, us, allowed, to, now, fallback) && NotNamed(allowed, last.task)
    requires Has(ts, last.task) && ts[IndexOf(ts, last.task)].state.Pending?
    ensures Assignable(us, last.task)
    ensures HandsOver(ts, Assign(us, last.task, to, last.ceiling, now, fallback), allowed + [last], to, now, fallback)
  {
    StandsWhereItStood(ts, us, allowed, last, to, now, fallback);
    var at, vs := IndexOf(ts, last.task), Assign(us, last.task, to, last.ceiling, now, fallback);
    forall i | 0 <= i < |ts| ensures vs[i] == HandedOver(ts[i], allowed + [last], to, now, fallback) {
      NamedLast(allowed, last, ts[i].id);
      assert us[i] == HandedOver(ts[i], allowed, to, now, fallback);
    }
  }

  lemma OneMoreGrows(ts: seq<Task>, us: seq<Task>, allowed: seq<Allowance>, last: Allowance, to: SessionId, now: U64,
                     fallback: Option<string>)
    requires Distinct(ts) && HandsOver(ts, us, allowed, to, now, fallback) && NotNamed(allowed, last.task)
    requires Has(ts, last.task) && ts[IndexOf(ts, last.task)].state.Pending?
    requires Grows(ts, us, allowed, to)
    ensures Grows(ts, Assign(us, last.task, to, last.ceiling, now, fallback), allowed + [last], to)
  {
    StandsWhereItStood(ts, us, allowed, last, to, now, fallback);
    var at := IndexOf(ts, last.task);
    RunningAfterOne(us, at, Handed(us[at], to, last.ceiling, now, fallback), to, |us|);
    assert (allowed + [last])[..|allowed|] == allowed;
  }

  /** Assigning a list of waiting tasks hands over exactly those, each with its own ceiling, leaves every
      other task as it was, and adds their count and their ceilings to what the session has going. */
  lemma {:induction false} AssigningHandsOverExactlyThese(ts: seq<Task>, allowed: seq<Allowance>, to: SessionId,
                                                          now: U64, fallback: Option<string>)
    requires Distinct(ts) && StillWaiting(ts, allowed)
    ensures HandsOver(ts, AssignAll(ts, allowed, to, now, fallback).0, allowed, to, now, fallback)
    ensures Grows(ts, AssignAll(ts, allowed, to, now, fallback).0, allowed, to)
    ensures AssignAll(ts, allowed, to, now, fallback).1 == Named(allowed)
  {
    if allowed != [] {
      var front, last := allowed[..|allowed| - 1], allowed[|allowed| - 1];
      assert allowed == front + [last];
      assert StillWaiting(ts, front);
      AssigningHandsOverExactlyThese(ts, front, to, now, fallback);
      var us := AssignAll(ts, front, to, now, fallback).0;
      OneMoreHandedOver(ts, us, front, last, to, now, fallback);
      OneMoreGrows(ts, us, front, last, to, now, fallback);
    }
  }

  function Named(allowed: seq<Allowance>): seq<TaskId> {
    if allowed == [] then [] else Named(allowed[..|allowed| - 1]) + [allowed[|allowed| - 1].task]
  }

  // ---------------------------------------------------------------- one hold of the backlog

  datatype Verdict = Halting(why: StoppedReason) | Started(tasks: seq<TaskId>)

  /** What the machine has hands for, out of what was allowed. */
  function Taken(ts: seq<Task>, held: Session, allowed: seq<Allowance>, atOnce: nat): seq<Allowance> {
    allowed[..HandsFor(allowed, atOnce, RunningIn(ts, held.id))]
  }

  function Settle(ts: seq<Task>, held: Session, read: Option<Measured>, before: Figures, policy: Policy, now: U64,
                  atOnce: nat)
    : (r: (seq<Task>, Verdict))
    ensures |r.0| == |ts|
  {
    match Judged(ts, held, read, before, policy, now)
    case Stop(why) => (ts, Halting(why))
    case Start(allowed) =>
      var (us, started) := AssignAll(ts, Taken(ts, held, allowed, atOnce), held.id, now, held.model);
      (us, Started(started))
  }

  /** What was allowed is still there to assign: each allowance is for a task of its own that may start. */
  lemma AllowedMayStart(ts: seq<Task>, st: Standing)
    requires Distinct(ts) && st.pending == Waiting(ts)
    ensures StillWaiting(ts, Allowances(st))
    ensures forall k :: 0 <= k < |Allowances(st)| ==> MayStart(ts, ts[IndexOf(ts, Allowances(st)[k].task)])
  {
    forall k | 0 <= k < |Allowances(st)|
      ensures Allowances(st)[k].task == ts[PlaceOfAllowed(ts, st, k)].id && MayStart(ts, ts[PlaceOfAllowed(ts, st, k)])
      ensures IndexOf(ts, Allowances(st)[k].task) == PlaceOfAllowed(ts, st, k)
    {
      AllowedStandsAt(ts, st, k);
    }
    forall k, l | 0 <= k < l < |Allowances(st)| ensures Allowances(st)[k].task != Allowances(st)[l].task {
      assert PlaceOfAllowed(ts, st, k) < PlaceOfAllowed(ts, st, l);
    }
  }

  /** Where the task an allowance is for stands in the backlog. */
  ghost function PlaceOfAllowed(ts: seq<Task>, st: Standing, k: nat): (at: nat)
    requires st.pending == Waiting(ts) && k < |Allowances(st)|
    ensures at < |ts|
  {
    PlacesAmong(ts, |ts|)[PlacesGiven(st)[k]]
  }

  lemma AllowedStandsAt(ts: seq<Task>, st: Standing, k: nat)
    requires Distinct(ts) && st.pending == Waiting(ts) && k < |Allowances(st)|
    ensures Allowances(st)[k].task == ts[PlaceOfAllowed(ts, st, k)].id && MayStart(ts, ts[PlaceOfAllowed(ts, st, k)])
    ensures IndexOf(ts, Allowances(st)[k].task) == PlaceOfAllowed(ts, st, k)
  {
    AllowedWasOffered(st, k);
    WaitingIsWhatMayStart(ts, |ts|);
  }

  lemma TakenFit(ts: seq<Task>, st: Standing, allowed: seq<Allowance>, n: nat)
    requires Distinct(ts) && st.pending == Waiting(ts) && n <= |allowed|
    requires allowed == [] || allowed == Allowances(st)
    ensures StillWaiting(ts, allowed[..n]) && Decisions.Total(allowed[..n]) <= st.Free()
    ensures forall k :: 0 <= k < n ==> MayStart(ts, ts[IndexOf(ts, allowed[k].task)])
  {
    if allowed != [] {
      AllowedMayStart(ts, st);
      AllowancesFit(st);
      TotalOfThoseTaken(allowed, n);
    }
  }

  /** What one hold does when it starts tasks: it hands over the first that were allowed, as many as
      there are hands free, each a task that may start, together within what was free of the budget; it
      changes no other task, never takes the session past the hands there are, and never leaves it
      carrying on with nothing going. */
  lemma SettlingStartsWhatFits(ts: seq<Task>, held: Session, read: Option<Measured>, before: Figures, policy: Policy,
                               now: U64, atOnce: nat)
    returns (taken: seq<Allowance>)
    requires Distinct(ts) && Judged(ts, held, read, before, policy, now).Start?
    ensures taken <= Judged(ts, held, read, before, policy, now).allowed
    ensures |taken| == HandsFor(Judged(ts, held, read, before, policy, now).allowed, atOnce, RunningIn(ts, held.id))
    ensures Settle(ts, held, read, before, policy, now, atOnce).1 == Started(Named(taken))
    ensures HandsOver(ts, Settle(ts, held, read, before, policy, now, atOnce).0, taken, held.id, now, held.model)
    ensures Grows(ts, Settle(ts, held, read, before, policy, now, atOnce).0, taken, held.id)
    ensures StillWaiting(ts, taken)
    ensures forall k :: 0 <= k < |taken| ==> MayStart(ts, ts[IndexOf(ts, taken[k].task)]) && taken[k].ceiling >= 1
    ensures Decisions.Total(taken) <= StandsAt(ts, held, read, before, policy, now).Free()
    ensures RunningIn(Settle(ts, held, read, before, policy, now, atOnce).0, held.id)
         <= Max(RunningIn(ts, held.id), atOnce)
    ensures atOnce > 0 ==> RunningIn(Settle(ts, held, read, before, policy, now, atOnce).0, held.id) > 0
  {
    var st := StandsAt(ts, held, read, before, policy, now);
    var allowed := Judged(ts, held, read, before, policy, now).allowed;
    taken := Taken(ts, held, allowed, atOnce);
    CarryingOnIsNotIdle(st);
    WhatSettlingIs(ts, held, read, before, policy, now, atOnce);
    StartsWhatFits(ts, st, allowed, taken, held.id, now, held.model);
    HandsAreEnough(ts, AssignAll(ts, taken, held.id, now, held.model).0, st, allowed, taken, held.id, atOnce);
  }

  lemma WhatSettlingIs(ts: seq<Task>, held: Session, read: Option<Measured>, before: Figures, policy: Policy, now: U64,
                       atOnce: nat)
    requires Judged(ts, held, read, before, policy, now).Start?
    ensures var taken := Taken(ts, held, Judged(ts, held, read, before, policy, now).allowed, atOnce);
            var (us, started) := AssignAll(ts, taken, held.id, now, held.model);
            Settle(ts, held, read, before, policy, now, atOnce) == (us, Started(started))
  {
  }

  /** No more than there are hands for, and something going where there is a hand. */
  lemma HandsAreEnough(ts: seq<Task>, us: seq<Task>, st: Standing, allowed: seq<Allowance>, taken: seq<Allowance>,
                       to: SessionId, atOnce: nat)
    requires Grows(ts, us, taken, to) && |taken| == HandsFor(allowed, atOnce, RunningIn(ts, to))
    requires RunningIn(ts, to) > 0 || allowed != []
    ensures RunningIn(us, to) <= Max(RunningIn(ts, to), atOnce) && (atOnce > 0 ==> RunningIn(us, to) > 0)
  {
  }

  lemma StartsWhatFits(ts: seq<Task>, st: Standing, allowed: seq<Allowance>, taken: seq<Allowance>, to: SessionId,
                       now: U64, fallback: Option<string>)
    requires Distinct(ts) && st.pending == Waiting(ts) && (allowed == [] || allowed == Allowances(st))
    requires taken <= allowed
    ensures HandsOver(ts, AssignAll(ts, taken, to, now, fallback).0, taken, to, now, fallback)
    ensures Grows(ts, AssignAll(ts, taken, to, now, fallback).0, taken, to)
    ensures AssignAll(ts, taken, to, now, fallback).1 == Named(taken)
    ensures StillWaiting(ts, taken) && Decisions.Total(taken) <= st.Free()
    ensures forall k :: 0 <= k < |taken| ==> MayStart(ts, ts[IndexOf(ts, taken[k].task)]) && taken[k].ceiling >= 1
  {
    assert taken == allowed[..|taken|];
    TakenFit(ts, st, allowed, |taken|);
    TakenAreSomething(st, allowed, |taken|);
    AssigningHandsOverExactlyThese(ts, taken, to, now, fallback);
  }

  lemma TakenAreSomething(st: Standing, allowed: seq<Allowance>, n: nat)
    requires n <= |allowed| && (allowed == [] || allowed == Allowances(st))
    ensures forall k :: 0 <= k < n ==> allowed[k].ceiling >= 1
  {
    forall k | 0 <= k < n ensures allowed[k].ceiling >= 1 {
      AllowedWasOffered(st, k);
    }
  }

  lemma {:induction false} TotalOfThoseTaken(allowed: seq<Allowance>, n: nat)
    ensures n <= |allowed| ==> Decisions.Total(allowed[..n]) <= Decisions.Total(allowed)
  {
    if n < |allowed| {
      TotalOfThoseTaken(allowed[..|allowed| - 1], n);
      assert allowed[..|allowed| - 1][..n] == allowed[..n];
    } else if n == |allowed| {
      assert allowed[..n] == allowed;
    }
  }
}
