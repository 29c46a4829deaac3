/** Whom a decision hands something to first, and how much. */
module FirstInLine {
  import opened Wrappers
  import opened Numbers
  import opened Spendings
  import opened Tasks
  import opened Graph
  import opened SessionValues
  import Sizings
  import opened Decisions
  import opened Settling

  // ---------------------------------------------------------------- who waits first

  /** The first that may start, where none before it waits. */
  predicate IsFirst(ts: seq<Task>, at: nat) {
    at < |ts| && MayStart(ts, ts[at]) && forall k :: 0 <= k < at ==> !ts[k].state.Pending?
  }

  /** And the one behind it. */
  predicate IsNext(ts: seq<Task>, at: nat, next: nat) {
    at < next < |ts| && MayStart(ts, ts[next]) && forall k :: at < k < next ==> !ts[k].state.Pending?
  }

  lemma {:induction false} FirstWaiting(ts: seq<Task>, at: nat, n: nat)
    requires IsFirst(ts, at) && n <= |ts|
    ensures if n <= at then WaitingAmong(ts, n) == []
            else WaitingAmong(ts, n) != [] && WaitingAmong(ts, n)[0] == (ts[at].id, ts[at].model)
    ensures n == at + 1 ==> WaitingAmong(ts, n) == [(ts[at].id, ts[at].model)]
  {
    if n > 0 {
      FirstWaiting(ts, at, n - 1);
    }
  }

  lemma {:induction false} NextWaiting(ts: seq<Task>, at: nat, next: nat, n: nat)
    requires IsFirst(ts, at) && IsNext(ts, at, next) && at < n <= |ts|
    ensures var waiting := WaitingAmong(ts, n);
            if n <= next then waiting == [(ts[at].id, ts[at].model)]
            else |waiting| > 1 && waiting[0] == (ts[at].id, ts[at].model)
                 && waiting[1] == (ts[next].id, ts[next].model)
  {
    if n == at + 1 {
      FirstWaiting(ts, at, n);
    } else {
      NextWaiting(ts, at, next, n - 1);
    }
  }

  /** Whoever waits first stands somewhere. */
  lemma {:induction false} SomebodyIsFirst(ts: seq<Task>, n: nat) returns (at: nat)
    requires n <= |ts| && WaitingAmong(ts, n) != []
    ensures at < n && MayStart(ts, ts[at]) && WaitingAmong(ts, n)[0] == (ts[at].id, ts[at].model)
  {
    if WaitingAmong(ts, n - 1) != [] {
      at := SomebodyIsFirst(ts, n - 1);
    } else {
      at := n - 1;
    }
  }

  // ---------------------------------------------------------------- what they are given

  lemma {:induction false} TheFirstIsGivenAll(offer: Offer, pending: seq<Candidate>, free: U64, idle: bool)
    requires pending != [] && Covers(offer) && offer(pending[0].1, free, idle) == Some(free)
    ensures GivenBy(offer, pending, free, idle, |pending|) == [Allowance(pending[0].0, free)]
  {
    var one := [Allowance(pending[0].0, free)];
    assert GivenBy(offer, pending, free, idle, 0) == [];
    assert GivenBy(offer, pending, free, idle, 1) == one;
    TotalOfOneMore([], pending[0].0, Some(free));
    assert [] + one == one;
    NothingFreeNothingGiven(offer, pending, free, idle, 1, |pending|);
  }

  /** A decision that offers whoever waits first all there is starts that one, and nobody else. */
  lemma {:induction false} TheFirstIsAllowedAll(st: Standing)
    requires !st.unreadable && st.timeLeft > 0 && st.Free() > 0 && st.pending != []
    requires Offered(st, st.pending[0].1, st.Free(), st.running == 0) == Some(st.Free())
    ensures Decide(st) == Decision.Start([Allowance(st.pending[0].0, st.Free())])
  {
    OffersAreCovered(st);
    assert OfferOf(st)(st.pending[0].1, st.Free(), st.running == 0) == Some(st.Free());
    TheFirstIsGivenAll(OfferOf(st), st.pending, st.Free(), st.running == 0);
  }

  lemma {:induction false} TwoAreGivenEach(offer: Offer, pending: seq<Candidate>, each: U64, one: Allowance,
                                           two: Allowance)
    requires |pending| > 1 && one == Allowance(pending[0].0, each) && two == Allowance(pending[1].0, each)
    requires 2 * each <= U64_MAX && offer(pending[0].1, 2 * each, true) == Some(each)
    requires offer(pending[1].1, each, false) == Some(each)
    ensures GivenBy(offer, pending, 2 * each, true, 2) == [one, two]
    ensures Decisions.Total([one, two]) == 2 * each
  {
    assert GivenBy(offer, pending, 2 * each, true, 0) == [];
    assert [] + [one] == [one] && [one] + [two] == [one, two];
    TotalOfOneMore([], pending[0].0, Some(each));
    TotalOfOneMore([one], pending[1].0, Some(each));
    assert GivenBy(offer, pending, 2 * each, true, 1) == [one];
    assert GivenBy(offer, pending, 2 * each, true, 2) == [one, two];
  }

  /** With nothing going and just enough for two, a decision that offers each of the first two half of it
      starts both, and nobody else. */
  lemma {:induction false} TheFirstTwoAreAllowed(st: Standing, each: U64)
    requires !st.unreadable && st.timeLeft > 0 && st.running == 0 && st.Free() == 2 * each > 0 && |st.pending| > 1
    requires Offered(st, st.pending[0].1, 2 * each, true) == Some(each)
    requires Offered(st, st.pending[1].1, each, false) == Some(each)
    ensures Decide(st) == Decision.Start([Allowance(st.pending[0].0, each), Allowance(st.pending[1].0, each)])
  {
    OffersAreCovered(st);
    assert OfferOf(st)(st.pending[0].1, 2 * each, true) == Some(each);
    assert OfferOf(st)(st.pending[1].1, each, false) == Some(each);
    TwoAreGivenEach(OfferOf(st), st.pending, each, Allowance(st.pending[0].0, each), Allowance(st.pending[1].0, each));
    NothingFreeNothingGiven(OfferOf(st), st.pending, 2 * each, true, 2, |st.pending|);
  }

  // ---------------------------------------------------------------- handing it over

  lemma {:induction false} AssigningOne(now: U64, ts: seq<Task>, at: nat, ceiling: U64, to: SessionId,
                                        fallback: Option<string>)
    requires Distinct(ts) && at < |ts| && ts[at].state.Pending?
    ensures AssignAll(ts, [Allowance(ts[at].id, ceiling)], to, now, fallback)
         == (ts[at := Handed(ts[at], to, ceiling, now, fallback)], [ts[at].id])
  {
    var one := Allowance(ts[at].id, ceiling);
    assert [one][..|[one]| - 1] == [];
    assert AssignAll(ts, [], to, now, fallback) == (ts, []);
    assert PendingIndexOf(ts, one.task) == at;
    assert [] + [one.task] == [one.task];
  }

  lemma {:induction false} AssigningTwo(now: U64, ts: seq<Task>, at: nat, next: nat, ceiling: U64, to: SessionId,
                                        fallback: Option<string>)
    requires Distinct(ts) && at < next < |ts| && ts[at].state.Pending? && ts[next].state.Pending?
    ensures AssignAll(ts, [Allowance(ts[at].id, ceiling), Allowance(ts[next].id, ceiling)], to, now, fallback)
         == (ts[at := Handed(ts[at], to, ceiling, now, fallback)][next := Handed(ts[next], to, ceiling, now, fallback)],
             [ts[at].id, ts[next].id])
  {
    var one, two := Allowance(ts[at].id, ceiling), Allowance(ts[next].id, ceiling);
    var us := ts[at := Handed(ts[at], to, ceiling, now, fallback)];
    assert [one, two][..1] == [one];
    AssigningOne(now, ts, at, ceiling, to, fallback);
    assert PendingIndexOf(us, two.task) == next by {
      assert us[next] == ts[next];
      forall k | 0 <= k < |us| && k != next ensures us[k].id != two.task {
        assert us[k].id == ts[k].id;
      }
    }
    assert [one.task] + [two.task] == [one.task, two.task];
  }

  lemma {:induction false} SettledSo(now: U64, ts: seq<Task>, held: Session, read: Option<Measured>, before: Figures,
                                     policy: Policy, atOnce: nat, allowed: seq<Allowance>)
    requires Judged(ts, held, read, before, policy, now) == Decision.Start(allowed)
    requires RunningIn(ts, held.id) + |allowed| <= atOnce
    ensures var (us, started) := AssignAll(ts, allowed, held.id, now, held.model);
            Settle(ts, held, read, before, policy, now, atOnce) == (us, Started(started))
  {
    assert allowed[..|allowed|] == allowed;
  }
}
