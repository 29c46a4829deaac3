/** How many of the waiting tasks a session may start, each with what ceiling, or why it stops instead. */
module Decisions {
  import opened Wrappers
  import opened Numbers
  import opened Spendings
  import opened Tasks
  import opened SessionValues
  import opened Sizings

  datatype Timing = Fits | Any
  datatype Locking = Cuts | Waits
  datatype Pacing = Holds | Any

  datatype Policy = Policy(sizing: Rule, timing: Timing, locking: Locking, pacing: Pacing)

  /** The policy the daemon ships with. */
  const SHIPPED_POLICY := Policy(SHIPPED, Timing.Fits, Cuts, Holds)

  /** What the runs before this one came to: what one cost, and how long one took. */
  datatype Figures = Figures(cost: Sizings, lasting: Sizings)

  datatype Allowance = Allowance(task: TaskId, ceiling: U64)

  datatype Standing = Standing(
    declared: U64,
    spent: U64,
    elapsed: U64,
    booked: U64,
    before: Figures,
    timeLeft: U64,
    pending: seq<Candidate>,
    running: nat,
    blocked: bool,
    unreadable: bool,
    timing: Timing,
    locking: Locking,
    pacing: Pacing)
  {
    function Left(): U64 {
      SatSub(declared, spent)
    }

    /** What may still be handed out: what is left, less what the runs going are allowed. */
    function Free(): U64 {
      SatSub(Left(), booked)
    }

    /** How long the budget lasts at the rate it has been going. */
    function UntilGone(): Option<U64> {
      if spent == 0 || elapsed == 0 then None
      else Some(Quotient(SatMul(Left(), elapsed), spent))
    }
  }

  predicate FitsTheClock(st: Standing, model: Option<string>) {
    st.timing.Fits? ==>
      var lasts := st.before.lasting.Model(model);
      lasts.None? || lasts.value.estimate <= st.timeLeft
  }

  predicate FitsTheBudget(st: Standing, model: Option<string>, alone: bool) {
    st.pacing.Any? || alone || st.UntilGone().None?
    || var lasts := st.before.lasting.Model(model);
       lasts.None? || lasts.value.Allowing() <= st.UntilGone().value
  }

  function SetAside(st: Standing, model: Option<string>, free: U64, alone: bool): Option<U64> {
    var sizing := st.before.cost.Model(model);
    if sizing.None? then if alone then Some(free) else None
    else
      var want := Max(sizing.value.Allowing(), 1);
      if free >= want then Some(want)
      else if alone && free >= Max(sizing.value.fallback, 1) then Some(free)
      else None
  }

  /** What one waiting task is offered out of what is still free, or nothing where it is passed over. */
  function Offered(st: Standing, model: Option<string>, free: U64, alone: bool): Option<U64> {
    if free == 0 || !FitsTheClock(st, model) || !FitsTheBudget(st, model, alone) then None
    else SetAside(st, model, free, alone)
  }

  lemma AnOfferIsCovered(st: Standing, model: Option<string>, free: U64, alone: bool)
    ensures Offered(st, model, free, alone).Some? ==> 1 <= Offered(st, model, free, alone).value <= free
  {
  }

  /** How long the budget lasts is what the rate it has gone at so far leaves: a run as long spends no more. */
  lemma LastsAtTheRateItHasGone(st: Standing, length: nat)
    requires st.UntilGone().Some? && length <= st.UntilGone().value
    ensures length * st.spent <= st.Left() * st.elapsed
  {
    var product := SatMul(st.Left(), st.elapsed);
    QuotientFallsShort(product, st.spent);
    ProductRises(length, product / st.spent, st.spent);
  }

  /** What an offer promises: a run that fits the time the session has, out of what is free; with others
      going, exactly what busy runs took, widened, and a length, widened too, that the budget lasts for at
      the rate it has gone; alone, room for what the cheap ones took at least, where any did. */
  lemma WhatAnOfferPromises(st: Standing, model: Option<string>, free: U64, alone: bool)
    requires Offered(st, model, free, alone).Some?
    ensures var cost, lasts, offer := st.before.cost.Model(model), st.before.lasting.Model(model),
            Offered(st, model, free, alone).value;
            && 1 <= offer <= free
            && (st.timing.Fits? && lasts.Some? ==> lasts.value.estimate <= st.timeLeft)
            && (!alone ==> cost.Some? && offer == Max(cost.value.Allowing(), 1))
            && (!alone && st.pacing.Holds? && lasts.Some? && st.elapsed > 0 ==>
                  lasts.value.Allowing() * st.spent <= st.Left() * st.elapsed)
            && (alone && cost.Some? ==> offer >= Max(Min(cost.value.fallback, cost.value.Allowing()), 1))
  {
    SetAsidePromises(st, model, free, alone);
    if !alone && st.pacing.Holds? && st.before.lasting.Model(model).Some? && st.elapsed > 0 {
      PacingPromises(st, model, alone);
    }
    AnOfferIsCovered(st, model, free, alone);
  }

  lemma SetAsidePromises(st: Standing, model: Option<string>, free: U64, alone: bool)
    requires SetAside(st, model, free, alone).Some?
    ensures var cost, offer := st.before.cost.Model(model), SetAside(st, model, free, alone).value;
            && (!alone ==> cost.Some? && offer == Max(cost.value.Allowing(), 1))
            && (alone && cost.Some? ==> offer >= Max(Min(cost.value.fallback, cost.value.Allowing()), 1))
  {
  }

  lemma PacingPromises(st: Standing, model: Option<string>, alone: bool)
    requires FitsTheBudget(st, model, alone) && !alone && st.pacing.Holds? && st.before.lasting.Model(model).Some?
    requires st.elapsed > 0
    ensures st.before.lasting.Model(model).value.Allowing() * st.spent <= st.Left() * st.elapsed
  {
    var lasts := st.before.lasting.Model(model).value;
    if st.UntilGone().Some? {
      LastsAtTheRateItHasGone(st, lasts.Allowing());
    }
  }

  function Total(given: seq<Allowance>): nat {
    if given == [] then 0 else Total(given[..|given| - 1]) + given[|given| - 1].ceiling
  }

  // ---------------------------------------------------------------- giving in turn, whatever is offered

  /** What one is offered, by its model, what is still free, and whether it would be alone. */
  type Offer = (Option<string>, U64, bool) -> Option<U64>

  function Rest(free: U64, given: seq<Allowance>): U64 {
    if Total(given) <= free then free - Total(given) else 0
  }

  /** What the one at a place is offered when its turn comes, after so much was given. */
  function OfferAt(offer: Offer, pending: seq<Candidate>, free: U64, idle: bool, i: nat,
                   given: seq<Allowance>): Option<U64>
    requires i < |pending|
  {
    offer(pending[i].1, Rest(free, given), idle && given == [])
  }

  /** What is given once the first `n` waiting have been looked at, each in turn. */
  function GivenBy(offer: Offer, pending: seq<Candidate>, free: U64, idle: bool, n: nat): seq<Allowance>
    requires n <= |pending|
  {
    if n == 0 then []
    else
      var given := GivenBy(offer, pending, free, idle, n - 1);
      match OfferAt(offer, pending, free, idle, n - 1, given)
      case Some(ceiling) => given + [Allowance(pending[n - 1].0, ceiling)]
      case None => given
  }

  function OfferTurn(offer: Offer, pending: seq<Candidate>, free: U64, idle: bool, i: nat): Option<U64>
    requires i < |pending|
  {
    OfferAt(offer, pending, free, idle, i, GivenBy(offer, pending, free, idle, i))
  }

  /** Where those that were given something stand. */
  ghost function PlacesBy(offer: Offer, pending: seq<Candidate>, free: U64, idle: bool, n: nat): (places: seq<nat>)
    requires n <= |pending|
    ensures |places| == |GivenBy(offer, pending, free, idle, n)|
    ensures forall k :: 0 <= k < |places| ==> places[k] < n
    ensures forall k, l :: 0 <= k < l < |places| ==> places[k] < places[l]
  {
    if n == 0 then []
    else
      PlacesBy(offer, pending, free, idle, n - 1)
        + if OfferTurn(offer, pending, free, idle, n - 1).Some? then [n - 1] else []
  }

  predicate OfferedAt(offer: Offer, pending: seq<Candidate>, free: U64, idle: bool, i: nat, given: Allowance) {
    i < |pending| && OfferTurn(offer, pending, free, idle, i) == Some(given.ceiling) && given.task == pending[i].0
  }

  lemma {:induction false} GivenWasOffered(offer: Offer, pending: seq<Candidate>, free: U64, idle: bool, n: nat, k: nat)
    requires n <= |pending| && k < |GivenBy(offer, pending, free, idle, n)|
    ensures OfferedAt(offer, pending, free, idle, PlacesBy(offer, pending, free, idle, n)[k],
                      GivenBy(offer, pending, free, idle, n)[k])
  {
    if k < |GivenBy(offer, pending, free, idle, n - 1)| {
      GivenWasOffered(offer, pending, free, idle, n - 1, k);
    }
  }

  lemma {:induction false} OfferedIsGiven(offer: Offer, pending: seq<Candidate>, free: U64, idle: bool, n: nat, i: nat)
    requires i < n <= |pending| && OfferTurn(offer, pending, free, idle, i).Some?
    ensures i in PlacesBy(offer, pending, free, idle, n)
  {
    if i < n - 1 {
      OfferedIsGiven(offer, pending, free, idle, n - 1, i);
    }
  }

  ghost predicate Covers(offer: Offer) {
    forall model, free, alone :: offer(model, free, alone).Some? ==> 1 <= offer(model, free, alone).value <= free
  }

  lemma {:induction false} GivenIsCovered(offer: Offer, pending: seq<Candidate>, free: U64, idle: bool, n: nat)
    requires n <= |pending| && Covers(offer)
    ensures Total(GivenBy(offer, pending, free, idle, n)) <= free
  {
    if n > 0 {
      GivenIsCovered(offer, pending, free, idle, n - 1);
      TotalOfOneMore(GivenBy(offer, pending, free, idle, n - 1), pending[n - 1].0,
                     OfferTurn(offer, pending, free, idle, n - 1));
    }
  }

  lemma TotalOfOneMore(given: seq<Allowance>, task: TaskId, ceiling: Option<U64>)
    ensures ceiling.Some? ==> Total(given + [Allowance(task, ceiling.value)]) == Total(given) + ceiling.value
  {
    if ceiling.Some? {
      assert (given + [Allowance(task, ceiling.value)])[..|given|] == given;
    }
  }

  /** Once nothing is free, nothing more is given. */
  lemma {:induction false} NothingFreeNothingGiven(offer: Offer, pending: seq<Candidate>, free: U64, idle: bool, i: nat,
                                                   n: nat)
    requires i <= n <= |pending| && Covers(offer) && Rest(free, GivenBy(offer, pending, free, idle, i)) == 0
    ensures GivenBy(offer, pending, free, idle, n) == GivenBy(offer, pending, free, idle, i)
  {
    if i < n {
      NothingFreeNothingGiven(offer, pending, free, idle, i, n - 1);
    }
  }

  /** With nothing going, nothing is given so far exactly where nothing would be offered to any alone. */
  lemma {:induction false} NothingGivenSoFar(offer: Offer, pending: seq<Candidate>, free: U64, n: nat)
    requires n <= |pending|
    ensures GivenBy(offer, pending, free, true, n) == []
            <==> forall i :: 0 <= i < n ==> offer(pending[i].1, free, true).None?
  {
    if n > 0 {
      NothingGivenSoFar(offer, pending, free, n - 1);
    }
  }

  // ---------------------------------------------------------------- what a session gives

  /** What this session offers, as it stands. */
  function OfferOf(st: Standing): Offer {
    (model: Option<string>, free: U64, alone: bool) => Offered(st, model, free, alone)
  }

  lemma OffersAreCovered(st: Standing)
    ensures Covers(OfferOf(st))
  {
    forall model: Option<string>, free: U64, alone: bool
      ensures OfferOf(st)(model, free, alone).Some? ==> 1 <= OfferOf(st)(model, free, alone).value <= free
    {
      AnOfferIsCovered(st, model, free, alone);
    }
  }

  function Allowances(st: Standing): seq<Allowance> {
    GivenBy(OfferOf(st), st.pending, st.Free(), st.running == 0, |st.pending|)
  }

  /** One more looked at: what it is offered out of what is free by then, where that is something. */
  lemma {:induction false} OneMoreTurn(st: Standing, i: nat, given: seq<Allowance>, free: U64)
    requires i < |st.pending| && given == GivenBy(OfferOf(st), st.pending, st.Free(), st.running == 0, i)
    requires Total(given) <= st.Free() && free == st.Free() - Total(given)
    ensures var offered := Offered(st, st.pending[i].1, free, st.running == 0 && given == []);
            var then' := GivenBy(OfferOf(st), st.pending, st.Free(), st.running == 0, i + 1);
            if offered.Some? then then' == given + [Allowance(st.pending[i].0, offered.value)] && offered.value <= free
                                  && Total(then') == Total(given) + offered.value
            else then' == given
  {
    var alone := st.running == 0 && given == [];
    assert OfferOf(st)(st.pending[i].1, free, alone) == Offered(st, st.pending[i].1, free, alone);
    AnOfferIsCovered(st, st.pending[i].1, free, alone);
    TotalOfOneMore(given, st.pending[i].0, Offered(st, st.pending[i].1, free, alone));
  }

  method Allow(st: Standing) returns (given: seq<Allowance>)
    ensures given == Allowances(st)
  {
    var free := SatSub(st.Left(), st.booked);
    given := [];
    OffersAreCovered(st);
    for i := 0 to |st.pending|
      invariant given == GivenBy(OfferOf(st), st.pending, st.Free(), st.running == 0, i)
      invariant Total(given) <= st.Free() && free == st.Free() - Total(given)
    {
      if free == 0 {
        NothingFreeNothingGiven(OfferOf(st), st.pending, st.Free(), st.running == 0, i, |st.pending|);
        break;
      }
      var (task, model) := st.pending[i];
      var alone := st.running == 0 && given == [];
      OneMoreTurn(st, i, given, free);
      if !FitsTheClock(st, model) || !FitsTheBudget(st, model, alone) {
        continue;
      }
      var ceiling := SetAside(st, model, free, alone);
      if ceiling.None? {
        continue;
      }
      given := given + [Allowance(task, ceiling.value)];
      free := free - ceiling.value;
    }
  }

  // ---------------------------------------------------------------- what allowing comes to

  /** Where the tasks that were given something stand in the list. */
  ghost function PlacesGiven(st: Standing): (places: seq<nat>)
    ensures |places| == |Allowances(st)|
    ensures forall k :: 0 <= k < |places| ==> places[k] < |st.pending|
    ensures forall k, l :: 0 <= k < l < |places| ==> places[k] < places[l]
  {
    PlacesBy(OfferOf(st), st.pending, st.Free(), st.running == 0, |st.pending|)
  }

  /** What the task at a place in the list is offered when its turn comes. */
  function OfferTo(st: Standing, i: nat): Option<U64>
    requires i < |st.pending|
  {
    OfferTurn(OfferOf(st), st.pending, st.Free(), st.running == 0, i)
  }

  /** What the task at `i` was offered, and that it is not nothing. */
  predicate WasOffered(st: Standing, i: nat, given: Allowance) {
    OfferedAt(OfferOf(st), st.pending, st.Free(), st.running == 0, i, given) && given.ceiling >= 1
  }

  lemma {:induction false} OfferedSomething(offer: Offer, pending: seq<Candidate>, free: U64, idle: bool, i: nat,
                                            given: Allowance)
    requires Covers(offer) && OfferedAt(offer, pending, free, idle, i, given)
    ensures given.ceiling >= 1
  {
  }

  lemma AllowedWasOffered(st: Standing, k: nat)
    requires k < |Allowances(st)|
    ensures WasOffered(st, PlacesGiven(st)[k], Allowances(st)[k])
  {
    OffersAreCovered(st);
    GivenWasOffered(OfferOf(st), st.pending, st.Free(), st.running == 0, |st.pending|, k);
    OfferedSomething(OfferOf(st), st.pending, st.Free(), st.running == 0, PlacesGiven(st)[k], Allowances(st)[k]);
  }

  lemma {:induction false} PlacesWereOffered(offer: Offer, pending: seq<Candidate>, free: U64, idle: bool, n: nat,
                                             i: nat)
    requires n <= |pending| && i in PlacesBy(offer, pending, free, idle, n)
    ensures i < |pending| && OfferTurn(offer, pending, free, idle, i).Some?
  {
    if n > 0 && i in PlacesBy(offer, pending, free, idle, n - 1) {
      PlacesWereOffered(offer, pending, free, idle, n - 1, i);
    }
  }

  lemma OfferedAndGiven(st: Standing, i: nat)
    requires i < |st.pending|
    ensures OfferTo(st, i).Some? <==> i in PlacesGiven(st)
  {
    if OfferTo(st, i).Some? {
      OfferedIsGiven(OfferOf(st), st.pending, st.Free(), st.running == 0, |st.pending|, i);
    }
    if i in PlacesGiven(st) {
      PlacesWereOffered(OfferOf(st), st.pending, st.Free(), st.running == 0, |st.pending|, i);
    }
  }

  /** Allowances are an order-keeping selection of the waiting tasks: exactly those that were offered
      something when their turn came, each with what it was offered, which is never nothing. */
  lemma GivenInTheOrderTheyWait(st: Standing)
    ensures forall k :: 0 <= k < |Allowances(st)| ==> WasOffered(st, PlacesGiven(st)[k], Allowances(st)[k])
    ensures forall i :: 0 <= i < |st.pending| ==> (OfferTo(st, i).Some? <==> i in PlacesGiven(st))
    ensures Total(Allowances(st)) <= SatSub(st.Left(), st.booked)
  {
    forall k | 0 <= k < |Allowances(st)| ensures WasOffered(st, PlacesGiven(st)[k], Allowances(st)[k]) {
      AllowedWasOffered(st, k);
    }
    forall i | 0 <= i < |st.pending| ensures OfferTo(st, i).Some? <==> i in PlacesGiven(st) {
      OfferedAndGiven(st, i);
    }
    AllowancesFit(st);
  }

  lemma AllowancesFit(st: Standing)
    ensures Total(Allowances(st)) <= st.Free()
  {
    OffersAreCovered(st);
    GivenIsCovered(OfferOf(st), st.pending, st.Free(), st.running == 0, |st.pending|);
  }

  /** Why a task would not start even with nothing else going: nothing is free, the clock would not
      let it finish, or what is free covers neither figure its model has. */
  predicate RefusedAlone(st: Standing, model: Option<string>) {
    || st.Free() == 0
    || !FitsTheClock(st, model)
    || (st.before.cost.Model(model).Some?
        && var sizing := st.before.cost.Model(model).value;
           st.Free() < Max(sizing.Allowing(), 1) && st.Free() < Max(sizing.fallback, 1))
  }

  lemma RefusedIsOfferedNothing(st: Standing, model: Option<string>)
    ensures RefusedAlone(st, model) <==> OfferOf(st)(model, st.Free(), true).None?
  {
  }

  /** With nothing running, nothing is given exactly when every waiting task is refused on its own. */
  lemma IdleAndNothingGiven(st: Standing)
    requires st.running == 0
    ensures Allowances(st) == [] <==> forall i :: 0 <= i < |st.pending| ==> RefusedAlone(st, st.pending[i].1)
  {
    NothingGivenSoFar(OfferOf(st), st.pending, st.Free(), |st.pending|);
    forall i | 0 <= i < |st.pending|
      ensures RefusedAlone(st, st.pending[i].1) <==> OfferOf(st)(st.pending[i].1, st.Free(), true).None?
    {
      RefusedIsOfferedNothing(st, st.pending[i].1);
    }
  }

  /** Passing over what does not fit is not monotone: here two units of budget start two small tasks,
      and three start only the large one that waits first and was passed over before. */
  lemma MoreBudgetMayStartFewer()
    ensures ThreeWaiting(3) == ThreeWaiting(2).(declared := 3)
    ensures |Allowances(ThreeWaiting(3))| == 1 && |Allowances(ThreeWaiting(2))| == 2
  {
    AllowedOf(ThreeWaiting(2), 2);
    AllowedOf(ThreeWaiting(3), 3);
    TwoStartTwo(OfferOf(ThreeWaiting(2)), ONE_LARGE_TWO_SMALL);
    ThreeStartOne(OfferOf(ThreeWaiting(3)), ONE_LARGE_TWO_SMALL);
  }

  lemma AllowedOf(st: Standing, declared: U64)
    requires st == ThreeWaiting(declared)
    ensures ThreeOrOne(OfferOf(st))
    ensures Allowances(st) == GivenBy(OfferOf(st), ONE_LARGE_TWO_SMALL, declared, true, 3)
  {
    WhatIsOfferedOf(st);
  }

  const LARGE_AND_SMALL := Sizings(map["large" := Sizing(3, 3, 1, 0), "small" := Sizing(1, 1, 1, 0)], None)

  const ONE_LARGE_TWO_SMALL: seq<Candidate> := [(1, Some("large")), (2, Some("small")), (3, Some("small"))]

  function ThreeWaiting(declared: U64): Standing {
    Standing(declared, 0, 0, 0, Figures(LARGE_AND_SMALL, Sizings(map[], None)), 1, ONE_LARGE_TWO_SMALL, 0, false, false,
             Timing.Any, Waits, Pacing.Any)
  }

  /** A large task is offered three of what is free, and a small one one. */
  ghost predicate ThreeOrOne(offer: Offer) {
    && (forall free, alone :: offer(Some("large"), free, alone) == if free >= 3 then Some(3) else None)
    && (forall free, alone :: offer(Some("small"), free, alone) == if free >= 1 then Some(1) else None)
  }

  lemma WhatIsOfferedOf(st: Standing)
    requires st.timing.Any? && st.pacing.Any? && st.before.cost == LARGE_AND_SMALL
    ensures ThreeOrOne(OfferOf(st))
  {
  }

  lemma {:induction false} TwoStartTwo(offer: Offer, pending: seq<Candidate>)
    requires ThreeOrOne(offer) && pending == ONE_LARGE_TWO_SMALL
    ensures |GivenBy(offer, pending, 2, true, 3)| == 2
  {
    assert GivenBy(offer, pending, 2, true, 1) == [];
    assert GivenBy(offer, pending, 2, true, 2) == [Allowance(2, 1)];
    TotalOfOneMore([], 2, Some(1));
  }

  lemma {:induction false} ThreeStartOne(offer: Offer, pending: seq<Candidate>)
    requires ThreeOrOne(offer) && pending == ONE_LARGE_TWO_SMALL
    ensures |GivenBy(offer, pending, 3, true, 3)| == 1
  {
    assert GivenBy(offer, pending, 3, true, 1) == [Allowance(1, 3)];
    TotalOfOneMore([], 1, Some(3));
    assert GivenBy(offer, pending, 3, true, 2) == [Allowance(1, 3)];
  }

  // ---------------------------------------------------------------- the verdict

  datatype Decision = Stop(why: StoppedReason) | Start(allowed: seq<Allowance>)

  /** Whether a session out of time has anything left to wait for. */
  predicate DoneWaiting(timeLeft: U64, running: nat) {
    timeLeft == 0 && running == 0
  }

  /** Why a session with nothing running and nothing it may start stops. */
  function NothingMore(waiting: bool, blocked: bool, exhausted: bool): StoppedReason {
    match (waiting, blocked, exhausted)
    case (true, _, true) => BudgetHardlock
    case (true, _, false) => NothingFits
    case (false, true, _) => StoppedReason.Blocked
    case (false, false, _) => AllDone
  }

  function Decide(st: Standing): Decision {
    if st.unreadable then Stop(ObservationUnreadable)
    else if st.locking.Cuts? && st.running > 0 && st.Left() == 0 then Stop(BudgetHardlock)
    else
      var starting := if st.timeLeft == 0 then [] else Allowances(st);
      if st.running == 0 && starting == []
      then Stop(NothingMore(st.pending != [], st.blocked, st.Left() == 0 || st.timeLeft == 0))
      else Start(starting)
  }

  /** A session that carries on has something going or starts something, and starts all it allows unless
      its time is up. */
  lemma CarryingOnIsNotIdle(st: Standing)
    requires Decide(st).Start?
    ensures st.running > 0 || Decide(st).allowed != []
    ensures Decide(st).allowed == if st.timeLeft == 0 then [] else Allowances(st)
  {
  }
}
