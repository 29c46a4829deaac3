/** When a larger budget never starts fewer tasks: giving in turn and passing over what does not fit is
    monotone in the budget, where no pace holds tasks back, exactly where no task that waits could crowd two
    others out. */
module MoreBudget {
  import opened Wrappers
  import opened Numbers
  import opened Tasks
  import Sizings
  import opened Decisions

  // ---------------------------------------------------------------- sizes, in the order tasks wait

  /** How many of these sizes are given in turn out of so much, passing over what does not fit. */
  function Started(wants: seq<nat>, free: nat): nat {
    if wants == [] then 0
    else if free >= wants[0] then 1 + Started(wants[1..], free - wants[0])
    else Started(wants[1..], free)
  }

  predicate Positive(wants: seq<nat>) {
    forall i :: 0 <= i < |wants| ==> wants[i] >= 1
  }

  /** The next size could be passed over for two behind it, and taken instead of both with one more. */
  predicate CrowdsOutTwo(wants: seq<nat>, i: nat)
    requires i < |wants| && Positive(wants)
  {
    Started(wants[i + 1..], wants[i] - 1) > 1
  }

  predicate NoneCrowdsOutTwo(wants: seq<nat>)
    requires Positive(wants)
  {
    forall i :: 0 <= i < |wants| ==> !CrowdsOutTwo(wants, i)
  }

  lemma {:induction false} NorBehind(wants: seq<nat>)
    requires wants != [] && Positive(wants) && NoneCrowdsOutTwo(wants)
    ensures Positive(wants[1..]) && NoneCrowdsOutTwo(wants[1..])
  {
    forall i | 0 <= i < |wants| - 1 ensures Positive(wants[1..]) && !CrowdsOutTwo(wants[1..], i) {
      assert !CrowdsOutTwo(wants, i + 1);
      assert wants[1..][i + 1..] == wants[i + 2..];
    }
  }

  lemma {:induction false} StartedRises(wants: seq<nat>, free: nat, more: nat)
    requires Positive(wants) && NoneCrowdsOutTwo(wants) && free <= more
    ensures Started(wants, free) <= Started(wants, more)
    decreases |wants|
  {
    if wants != [] {
      NorBehind(wants);
      if free >= wants[0] {
        StartedRises(wants[1..], free - wants[0], more - wants[0]);
      } else if more < wants[0] {
        StartedRises(wants[1..], free, more);
      } else {
        assert !CrowdsOutTwo(wants, 0);
        StartedRises(wants[1..], free, wants[0] - 1);
      }
    }
  }

  function Sum(wants: seq<nat>): nat {
    if wants == [] then 0 else wants[0] + Sum(wants[1..])
  }

  /** With enough for all those before a place, they are all given, and what is left is given from there. */
  lemma {:induction false} AllBefore(wants: seq<nat>, i: nat, free: nat)
    requires i <= |wants| && Positive(wants) && free >= Sum(wants[..i])
    ensures Started(wants, free) == i + Started(wants[i..], free - Sum(wants[..i]))
    decreases i
  {
    if i > 0 {
      assert wants[..i][1..] == wants[1..][..i - 1] && wants[1..][i - 1..] == wants[i..];
      AllBefore(wants[1..], i - 1, free - wants[0]);
    } else {
      assert wants[..0] == [] && wants[0..] == wants;
    }
  }

  lemma {:induction false} NothingOutOfNothing(wants: seq<nat>)
    requires Positive(wants)
    ensures Started(wants, 0) == 0
  {
    if wants != [] {
      NothingOutOfNothing(wants[1..]);
    }
  }

  /** What is enough for all up to a size that crowds two out, and one less. */
  lemma {:induction false} CrowdingOutStartsFewer(wants: seq<nat>, i: nat)
    requires i < |wants| && Positive(wants) && CrowdsOutTwo(wants, i)
    ensures Started(wants, Sum(wants[..i]) + wants[i]) < Started(wants, Sum(wants[..i]) + wants[i] - 1)
  {
    AllBefore(wants, i, Sum(wants[..i]) + wants[i]);
    AllBefore(wants, i, Sum(wants[..i]) + wants[i] - 1);
    assert wants[i..][0] == wants[i] && wants[i..][1..] == wants[i + 1..];
    NothingOutOfNothing(wants[i + 1..]);
  }

  ghost predicate NeverStartsFewer(wants: seq<nat>) {
    forall free: nat, more: nat :: free <= more ==> Started(wants, free) <= Started(wants, more)
  }

  /** More never starts fewer exactly where none crowds two out. */
  lemma {:induction false} MoreNeverStartsFewerExactlyWhere(wants: seq<nat>)
    requires Positive(wants)
    ensures NeverStartsFewer(wants) <==> NoneCrowdsOutTwo(wants)
  {
    if NoneCrowdsOutTwo(wants) {
      forall free: nat, more: nat | free <= more ensures Started(wants, free) <= Started(wants, more) {
        StartedRises(wants, free, more);
      }
    } else {
      var i :| 0 <= i < |wants| && CrowdsOutTwo(wants, i);
      CrowdingOutStartsFewer(wants, i);
    }
  }

  lemma {:induction false} NoneFits(wants: seq<nat>, free: nat)
    requires forall i :: 0 <= i < |wants| ==> wants[i] > free
    ensures Started(wants, free) == 0
  {
    if wants != [] {
      NoneFits(wants[1..], free);
    }
  }

  /** Sizes that do not fall along the list crowd nothing out: one model only is the usual case. */
  lemma {:induction false} SizesThatDoNotFall(wants: seq<nat>)
    requires Positive(wants) && forall i, j :: 0 <= i < j < |wants| ==> wants[i] <= wants[j]
    ensures NoneCrowdsOutTwo(wants)
  {
    forall i | 0 <= i < |wants| ensures !CrowdsOutTwo(wants, i) {
      NoneFits(wants[i + 1..], wants[i] - 1);
    }
  }

  // ---------------------------------------------------------------- how many a session starts

  /** How many are started from a place on, with others going. */
  function StartedFrom(offer: Offer, pending: seq<Candidate>, free: U64, i: nat): nat
    requires i <= |pending|
    decreases |pending| - i
  {
    if i == |pending| then 0
    else match offer(pending[i].1, free, false)
         case Some(ceiling) => 1 + StartedFrom(offer, pending, SatSub(free, ceiling), i + 1)
         case None => StartedFrom(offer, pending, free, i + 1)
  }

  /** And with nothing going, until one is. */
  function StartedAlone(offer: Offer, pending: seq<Candidate>, free: U64, i: nat): nat
    requires i <= |pending|
    decreases |pending| - i
  {
    if i == |pending| then 0
    else match offer(pending[i].1, free, true)
         case Some(ceiling) => 1 + StartedFrom(offer, pending, SatSub(free, ceiling), i + 1)
         case None => StartedAlone(offer, pending, free, i + 1)
  }

  /** What is started once the first `n` have been looked at. */
  function StillStarted(offer: Offer, pending: seq<Candidate>, free: U64, idle: bool, n: nat): nat
    requires n <= |pending|
  {
    var given := GivenBy(offer, pending, free, idle, n);
    if idle && given == [] then StartedAlone(offer, pending, free, n)
    else |given| + StartedFrom(offer, pending, Rest(free, given), n)
  }

  lemma {:induction false} RestAfterOneMore(given: seq<Allowance>, task: TaskId, ceiling: U64, free: U64)
    requires Decisions.Total(given) <= free
    ensures Rest(free, given + [Allowance(task, ceiling)]) == SatSub(Rest(free, given), ceiling)
  {
    TotalOfOneMore(given, task, Some(ceiling));
  }

  lemma {:induction false} OneMoreCounted(offer: Offer, pending: seq<Candidate>, free: U64, idle: bool, n: nat)
    requires n < |pending| && Covers(offer)
    ensures StillStarted(offer, pending, free, idle, n) == StillStarted(offer, pending, free, idle, n + 1)
  {
    var given, offered := GivenBy(offer, pending, free, idle, n), OfferTurn(offer, pending, free, idle, n);
    GivenIsCovered(offer, pending, free, idle, n);
    if offered.Some? {
      RestAfterOneMore(given, pending[n].0, offered.value, free);
    }
    assert given == [] ==> Rest(free, given) == free;
  }

  lemma {:induction false} CountedInTurn(offer: Offer, pending: seq<Candidate>, free: U64, idle: bool, n: nat)
    requires n <= |pending| && Covers(offer)
    ensures StillStarted(offer, pending, free, idle, n) == |GivenBy(offer, pending, free, idle, |pending|)|
    decreases |pending| - n
  {
    if n < |pending| {
      OneMoreCounted(offer, pending, free, idle, n);
      CountedInTurn(offer, pending, free, idle, n + 1);
    }
  }

  /** What is set aside for a run of this model while others are going. */
  function Want(st: Standing, model: Option<string>): Option<nat> {
    var sizing := st.before.cost.Model(model);
    if sizing.Some? then Some(Max(sizing.value.Allowing(), 1)) else None
  }

  /** Whether a task of this model has a size, and a length that the clock and the pace let run. */
  predicate MayBeGoing(st: Standing, model: Option<string>) {
    FitsTheClock(st, model) && FitsTheBudget(st, model, false) && Want(st, model).Some?
  }

  /** The sizes of the tasks that may run beside others, in the order they wait. */
  function WantsFrom(st: Standing, i: nat): (wants: seq<nat>)
    requires i <= |st.pending|
    ensures Positive(wants)
    decreases |st.pending| - i
  {
    if i == |st.pending| then []
    else
      var model := st.pending[i].1;
      if MayBeGoing(st, model) then [Want(st, model).value] + WantsFrom(st, i + 1) else WantsFrom(st, i + 1)
  }

  function Wants(st: Standing): seq<nat> {
    WantsFrom(st, 0)
  }

  /** What one is offered with others going. */
  lemma {:induction false} OfferedBeside(st: Standing, model: Option<string>, free: U64)
    ensures OfferOf(st)(model, free, false)
         == if MayBeGoing(st, model) && free >= Want(st, model).value then Some(Want(st, model).value) else None
  {
  }

  lemma {:induction false} StartedAreSizes(st: Standing, free: U64, i: nat)
    requires i <= |st.pending|
    ensures StartedFrom(OfferOf(st), st.pending, free, i) == Started(WantsFrom(st, i), free)
    decreases |st.pending| - i
  {
    if i < |st.pending| {
      var model, rest := st.pending[i].1, WantsFrom(st, i + 1);
      OfferedBeside(st, model, free);
      if MayBeGoing(st, model) {
        var want := Want(st, model).value;
        assert ([want] + rest)[1..] == rest;
        StartedAreSizes(st, if free >= want then free - want else free, i + 1);
      } else {
        StartedAreSizes(st, free, i + 1);
      }
    }
  }

  lemma {:induction false} AllowedAreStarted(st: Standing)
    ensures |Allowances(st)|
         == if st.running == 0 then StartedAlone(OfferOf(st), st.pending, st.Free(), 0)
            else StartedFrom(OfferOf(st), st.pending, st.Free(), 0)
  {
    OffersAreCovered(st);
    CountedInTurn(OfferOf(st), st.pending, st.Free(), st.running == 0, 0);
  }

  // ---------------------------------------------------------------- with nothing going

  /** The least that is enough for a task with a size to be started alone. */
  function Least(st: Standing, model: Option<string>): nat
    requires Want(st, model).Some?
  {
    Min(Want(st, model).value, Max(st.before.cost.Model(model).value.fallback, 1))
  }

  /** What one is offered alone, whatever the pace: where something is free and it fits the clock, its size;
      all there is, where that is less but enough all the same; and all there is where it has no size. */
  lemma {:induction false} OfferedAlone(st: Standing, model: Option<string>, free: U64)
    ensures OfferOf(st)(model, free, true)
         == if free == 0 || !FitsTheClock(st, model) then None
            else if Want(st, model).None? then Some(free)
            else if free >= Want(st, model).value then Some(Want(st, model).value)
            else if free >= Least(st, model) then Some(free)
            else None
  {
  }

  lemma {:induction false} NothingLeft(st: Standing, i: nat)
    requires i <= |st.pending|
    ensures StartedFrom(OfferOf(st), st.pending, 0, i) == 0
  {
    StartedAreSizes(st, 0, i);
    NothingOutOfNothing(WantsFrom(st, i));
  }

  /** What is started alone from a place on, by what is next there. */
  lemma {:induction false} StartedAloneIs(st: Standing, free: U64, i: nat)
    requires i < |st.pending|
    ensures var started, model := StartedAlone(OfferOf(st), st.pending, free, i), st.pending[i].1;
            if free == 0 || !FitsTheClock(st, model) then started == StartedAlone(OfferOf(st), st.pending, free, i + 1)
            else if Want(st, model).None? then started == 1
            else if free >= Want(st, model).value
            then started == 1 + Started(WantsFrom(st, i + 1), free - Want(st, model).value)
            else if free >= Least(st, model) then started == 1
            else started == StartedAlone(OfferOf(st), st.pending, free, i + 1)
  {
    var model := st.pending[i].1;
    OfferedAlone(st, model, free);
    NothingLeft(st, i + 1);
    if Want(st, model).Some? && free >= Want(st, model).value {
      StartedAreSizes(st, free - Want(st, model).value, i + 1);
    }
  }

  /** Nothing is started out of nothing, and something always out of more than enough. */
  lemma {:induction false} NoneAloneOutOfNothing(st: Standing, i: nat)
    requires i <= |st.pending|
    ensures StartedAlone(OfferOf(st), st.pending, 0, i) == 0
    decreases |st.pending| - i
  {
    if i < |st.pending| {
      OfferedAlone(st, st.pending[i].1, 0);
      NoneAloneOutOfNothing(st, i + 1);
    }
  }

  // ---------------------------------------------------------------- with nothing going, exactly

  /** Whether no more than one is ever started alone out of so much or less. */
  predicate OneAtMost(st: Standing, i: nat, top: nat)
    requires i <= |st.pending|
    decreases |st.pending| - i
  {
    if i == |st.pending| then true
    else
      var model := st.pending[i].1;
      if !FitsTheClock(st, model) then OneAtMost(st, i + 1, top)
      else if Want(st, model).None? then true
      else
        && (top < Want(st, model).value || Started(WantsFrom(st, i + 1), top - Want(st, model).value) == 0)
        && OneAtMost(st, i + 1, Min(top, Least(st, model) - 1))
  }

  /** Whether more never starts fewer with nothing going: told by the first task with a size that fits the
      clock. Behind it none crowds two out, and what is under the least it can be started with starts one at
      most behind it. */
  predicate NeverFewerAlone(st: Standing, i: nat)
    requires i <= |st.pending|
    decreases |st.pending| - i
  {
    if i == |st.pending| then true
    else
      var model := st.pending[i].1;
      if !FitsTheClock(st, model) then NeverFewerAlone(st, i + 1)
      else Want(st, model).None?
           || (NoneCrowdsOutTwo(WantsFrom(st, i + 1)) && OneAtMost(st, i + 1, Least(st, model) - 1))
  }

  lemma {:induction false} NothingStays(wants: seq<nat>, free: nat, less: nat)
    requires Started(wants, free) == 0 && less <= free
    ensures Started(wants, less) == 0
  {
    if wants != [] {
      NothingStays(wants[1..], free, less);
    }
  }

  lemma {:induction false} OneAtMostHolds(st: Standing, i: nat, top: nat, free: U64)
    requires i <= |st.pending| && OneAtMost(st, i, top) && free <= top
    ensures StartedAlone(OfferOf(st), st.pending, free, i) <= 1
    decreases |st.pending| - i
  {
    if i < |st.pending| {
      var model := st.pending[i].1;
      StartedAloneIs(st, free, i);
      if free == 0 {
        NoneAloneOutOfNothing(st, i + 1);
      } else if !FitsTheClock(st, model) {
        OneAtMostHolds(st, i + 1, top, free);
      } else if Want(st, model).Some? {
        if free >= Want(st, model).value {
          NothingStays(WantsFrom(st, i + 1), top - Want(st, model).value, free - Want(st, model).value);
        } else if free < Least(st, model) {
          OneAtMostHolds(st, i + 1, Min(top, Least(st, model) - 1), free);
        }
      }
    }
  }

  lemma {:induction false} TwoAreStarted(st: Standing, i: nat, top: U64) returns (free: U64)
    requires i <= |st.pending| && !OneAtMost(st, i, top)
    ensures free <= top && StartedAlone(OfferOf(st), st.pending, free, i) > 1
    decreases |st.pending| - i
  {
    var model := st.pending[i].1;
    if !FitsTheClock(st, model) {
      free := TwoAreStarted(st, i + 1, top);
    } else if top >= Want(st, model).value && Started(WantsFrom(st, i + 1), top - Want(st, model).value) > 0 {
      free := top;
    } else {
      free := TwoAreStarted(st, i + 1, Min(top, Least(st, model) - 1));
    }
    StartedAloneIs(st, free, i);
    NoneAloneOutOfNothing(st, i + 1);
  }

  lemma {:induction false} SomethingStays(st: Standing, i: nat, free: U64, more: U64)
    requires i <= |st.pending| && free <= more && StartedAlone(OfferOf(st), st.pending, free, i) > 0
    ensures StartedAlone(OfferOf(st), st.pending, more, i) > 0
    decreases |st.pending| - i
  {
    if i < |st.pending| {
      StartedAloneIs(st, free, i);
      StartedAloneIs(st, more, i);
      if StartedAlone(OfferOf(st), st.pending, free, i + 1) > 0 {
        SomethingStays(st, i + 1, free, more);
      }
      NoneAloneOutOfNothing(st, i + 1);
    }
  }

  lemma {:induction false} AloneRises(st: Standing, free: U64, more: U64, i: nat)
    requires i <= |st.pending| && free <= more && NeverFewerAlone(st, i)
    ensures StartedAlone(OfferOf(st), st.pending, free, i) <= StartedAlone(OfferOf(st), st.pending, more, i)
    decreases |st.pending| - i
  {
    if i < |st.pending| {
      var model := st.pending[i].1;
      StartedAloneIs(st, free, i);
      StartedAloneIs(st, more, i);
      if free == 0 {
        NoneAloneOutOfNothing(st, i);
      } else if !FitsTheClock(st, model) {
        AloneRises(st, free, more, i + 1);
      } else if Want(st, model).Some? {
        SizedAloneRises(st, free, more, i);
      }
    }
  }

  lemma {:induction false} SizedAloneRises(st: Standing, free: U64, more: U64, i: nat)
    requires i < |st.pending| && 0 < free <= more && NeverFewerAlone(st, i)
    requires FitsTheClock(st, st.pending[i].1) && Want(st, st.pending[i].1).Some?
    ensures StartedAlone(OfferOf(st), st.pending, free, i) <= StartedAlone(OfferOf(st), st.pending, more, i)
  {
    var model, rest := st.pending[i].1, WantsFrom(st, i + 1);
    var want := Want(st, model).value;
    StartedAloneIs(st, free, i);
    StartedAloneIs(st, more, i);
    if free >= want {
      StartedRises(rest, free - want, more - want);
    } else if free < Least(st, model) {
      OneAtMostHolds(st, i + 1, Least(st, model) - 1, free);
      if more < Least(st, model) && StartedAlone(OfferOf(st), st.pending, free, i + 1) > 0 {
        SomethingStays(st, i + 1, free, more);
      }
    }
  }

  /** And where that does not hold, some budget starts fewer than a smaller one, neither of them more than all
      that is wanted. */
  lemma {:induction false} FewerAlone(st: Standing, i: nat) returns (free: nat, more: nat)
    requires i <= |st.pending| && !NeverFewerAlone(st, i) && Sum(WantsFrom(st, i)) <= U64_MAX && st.pacing.Any?
    ensures free <= more <= Sum(WantsFrom(st, i))
    ensures StartedAlone(OfferOf(st), st.pending, free, i) > StartedAlone(OfferOf(st), st.pending, more, i)
    decreases |st.pending| - i
  {
    var model, rest := st.pending[i].1, WantsFrom(st, i + 1);
    if !FitsTheClock(st, model) {
      free, more := FewerAlone(st, i + 1);
    } else {
      var want := Want(st, model).value;
      assert WantsFrom(st, i) == [want] + rest && ([want] + rest)[1..] == rest;
      if !NoneCrowdsOutTwo(rest) {
        var k :| 0 <= k < |rest| && CrowdsOutTwo(rest, k);
        CrowdingOutStartsFewer(rest, k);
        FrontOfTheSum(rest, k);
        more := want + Sum(rest[..k]) + rest[k];
        free := more - 1;
      } else {
        free := TwoAreStarted(st, i + 1, Least(st, model) - 1);
        more := Least(st, model);
        NothingOutOfNothing(rest);
      }
    }
    NoneAloneOutOfNothing(st, i + 1);
    StartedAloneIs(st, free, i);
    StartedAloneIs(st, more, i);
  }

  lemma {:induction false} FrontOfTheSum(wants: seq<nat>, i: nat)
    requires i < |wants|
    ensures Sum(wants[..i]) + wants[i] <= Sum(wants)
    decreases i
  {
    if i > 0 {
      assert wants[..i][1..] == wants[1..][..i - 1];
      FrontOfTheSum(wants[1..], i - 1);
    }
  }

  // ---------------------------------------------------------------- a larger budget, where no pace holds back

  lemma {:induction false} SameSizes(st: Standing, declared: U64, i: nat)
    requires i <= |st.pending| && st.pacing.Any?
    ensures WantsFrom(st.(declared := declared), i) == WantsFrom(st, i)
    decreases |st.pending| - i
  {
    if i < |st.pending| {
      SameSizes(st, declared, i + 1);
    }
  }

  lemma {:induction false} SameOffersAlone(st: Standing, declared: U64, free: U64, i: nat)
    requires i <= |st.pending| && st.pacing.Any?
    ensures StartedAlone(OfferOf(st.(declared := declared)), st.pending, free, i)
         == StartedAlone(OfferOf(st), st.pending, free, i)
    decreases |st.pending| - i
  {
    var other := st.(declared := declared);
    if i < |st.pending| {
      StartedAloneIs(st, free, i);
      StartedAloneIs(other, free, i);
      SameSizes(st, declared, i + 1);
      SameOffersAlone(st, declared, free, i + 1);
    }
  }

  lemma {:induction false} StartedWith(st: Standing, declared: U64)
    requires st.pacing.Any?
    ensures var other := st.(declared := declared);
            |Allowances(other)|
            == if st.running == 0 then StartedAlone(OfferOf(st), st.pending, other.Free(), 0)
              else Started(Wants(st), other.Free())
  {
    var other := st.(declared := declared);
    AllowedAreStarted(other);
    if st.running == 0 {
      SameOffersAlone(st, declared, other.Free(), 0);
    } else {
      StartedAreSizes(other, other.Free(), 0);
      SameSizes(st, declared, 0);
    }
  }

  /** Whether more never starts fewer: with something going, where no waiting task could crowd two others out,
      and with nothing, by the first task with a size. */
  predicate NeverFewer(st: Standing) {
    if st.running == 0 then NeverFewerAlone(st, 0) else NoneCrowdsOutTwo(Wants(st))
  }

  lemma {:induction false} MoreBudgetNeverStartsFewer(st: Standing, declared: U64, more: U64)
    requires st.pacing.Any? && NeverFewer(st) && declared <= more
    ensures |Allowances(st.(declared := declared))| <= |Allowances(st.(declared := more))|
  {
    var one, another := st.(declared := declared), st.(declared := more);
    StartedWith(st, declared);
    StartedWith(st, more);
    if st.running == 0 {
      AloneRises(st, one.Free(), another.Free(), 0);
    } else {
      StartedRises(Wants(st), one.Free(), another.Free());
    }
  }

  /** Where a task could crowd two others out, with something going, some budget starts fewer than the one
      below it: the one that is just enough for that task and all those before it. */
  lemma {:induction false} WhereOneCrowdsTwoOut(st: Standing, i: nat)
    requires st.pacing.Any? && st.running > 0 && i < |Wants(st)| && CrowdsOutTwo(Wants(st), i)
    requires st.spent + st.booked + Sum(Wants(st)[..i]) + Wants(st)[i] <= U64_MAX
    ensures var enough := st.spent + st.booked + Sum(Wants(st)[..i]) + Wants(st)[i];
            |Allowances(st.(declared := enough))| < |Allowances(st.(declared := enough - 1))|
  {
    var enough := st.spent + st.booked + Sum(Wants(st)[..i]) + Wants(st)[i];
    StartedWith(st, enough);
    StartedWith(st, enough - 1);
    CrowdingOutStartsFewer(Wants(st), i);
  }

  lemma {:induction false} SomeBudgetStartsFewer(st: Standing) returns (declared: U64, more: U64)
    requires st.pacing.Any? && !NeverFewer(st) && st.spent + st.booked + Sum(Wants(st)) <= U64_MAX
    ensures declared <= more && |Allowances(st.(declared := declared))| > |Allowances(st.(declared := more))|
  {
    if st.running == 0 {
      var free, enough := FewerAlone(st, 0);
      declared, more := st.spent + st.booked + free, st.spent + st.booked + enough;
      StartedWith(st, declared);
      StartedWith(st, more);
    } else {
      var i :| 0 <= i < |Wants(st)| && CrowdsOutTwo(Wants(st), i);
      FrontOfTheSum(Wants(st), i);
      WhereOneCrowdsTwoOut(st, i);
      more := st.spent + st.booked + Sum(Wants(st)[..i]) + Wants(st)[i];
      declared := more - 1;
    }
  }

  /** Under a pacing that holds nothing back, a larger budget never starts fewer exactly there, whether or not
      anything is going, as long as all that is wanted may be declared. */
  lemma {:induction false} BudgetsNeverStartFewerExactlyWhere(st: Standing)
    requires st.pacing.Any? && st.spent + st.booked + Sum(Wants(st)) <= U64_MAX
    ensures (forall declared: U64, more: U64 :: declared <= more ==>
               |Allowances(st.(declared := declared))| <= |Allowances(st.(declared := more))|)
       <==> NeverFewer(st)
  {
    if NeverFewer(st) {
      forall declared: U64, more: U64 | declared <= more
        ensures |Allowances(st.(declared := declared))| <= |Allowances(st.(declared := more))|
      {
        MoreBudgetNeverStartsFewer(st, declared, more);
      }
    } else {
      var declared, more := SomeBudgetStartsFewer(st);
    }
  }

  /** With nothing going, it is enough that none of the waiting tasks could crowd two others out. */
  lemma {:induction false} NoneCrowdsOutAlone(st: Standing, i: nat)
    requires i <= |st.pending| && st.pacing.Any? && NoneCrowdsOutTwo(WantsFrom(st, i))
    ensures NeverFewerAlone(st, i)
    decreases |st.pending| - i
  {
    if i < |st.pending| {
      var model, rest := st.pending[i].1, WantsFrom(st, i + 1);
      if !FitsTheClock(st, model) {
        NoneCrowdsOutAlone(st, i + 1);
      } else if Want(st, model).Some? {
        var want := Want(st, model).value;
        assert WantsFrom(st, i) == [want] + rest && ([want] + rest)[1..] == rest;
        NorBehind(WantsFrom(st, i));
        assert !CrowdsOutTwo(WantsFrom(st, i), 0);
        StartedRises(rest, Least(st, model) - 1, want - 1);
        OneAtMostBehind(st, i + 1, Least(st, model) - 1);
      }
    }
  }

  lemma {:induction false} OneAtMostBehind(st: Standing, i: nat, top: nat)
    requires i <= |st.pending| && st.pacing.Any? && NoneCrowdsOutTwo(WantsFrom(st, i))
    requires Started(WantsFrom(st, i), top) <= 1
    ensures OneAtMost(st, i, top)
    decreases |st.pending| - i
  {
    if i < |st.pending| {
      var model, rest := st.pending[i].1, WantsFrom(st, i + 1);
      if !FitsTheClock(st, model) {
        OneAtMostBehind(st, i + 1, top);
      } else if Want(st, model).Some? {
        var want, less := Want(st, model).value, Min(top, Least(st, model) - 1);
        assert WantsFrom(st, i) == [want] + rest && ([want] + rest)[1..] == rest;
        NorBehind(WantsFrom(st, i));
        assert !CrowdsOutTwo(WantsFrom(st, i), 0);
        StartedRises(rest, less, if top < want then top else want - 1);
        OneAtMostBehind(st, i + 1, less);
      }
    }
  }
}
