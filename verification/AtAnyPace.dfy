/** When a larger budget never starts fewer tasks although a pace holds some back. A larger budget lasts longer,
    so it lets longer runs go beside others, and one of those may take what smaller ones behind it were given:
    it never does where no task has two smaller ones behind it. */
module AtAnyPace {
  import opened Wrappers
  import opened Numbers
  import opened Tasks
  import Sizings
  import opened Decisions
  import opened MoreBudget

  // ---------------------------------------------------------------- sizes, and some of them

  /** How many are smaller than so much. */
  function Below(wants: seq<nat>, size: nat): nat {
    if wants == [] then 0 else Below(wants[1..], size) + if wants[0] < size then 1 else 0
  }

  /** None has two smaller ones behind it. */
  predicate NoTwoSmallerBehind(wants: seq<nat>) {
    wants == [] || (Below(wants[1..], wants[0]) <= 1 && NoTwoSmallerBehind(wants[1..]))
  }

  /** Some of another list, in its order. */
  predicate Sublist(some: seq<nat>, all: seq<nat>)
    decreases all
  {
    if some == [] then true
    else if all == [] then false
    else (some[0] == all[0] && Sublist(some[1..], all[1..])) || Sublist(some, all[1..])
  }

  lemma {:induction false} FewerBelow(some: seq<nat>, all: seq<nat>, size: nat)
    requires Sublist(some, all)
    ensures Below(some, size) <= Below(all, size)
    decreases all
  {
    if some != [] {
      if some[0] == all[0] && Sublist(some[1..], all[1..]) {
        FewerBelow(some[1..], all[1..], size);
      } else {
        FewerBelow(some, all[1..], size);
      }
    }
  }

  lemma {:induction false} NorAmongSome(some: seq<nat>, all: seq<nat>)
    requires Sublist(some, all) && NoTwoSmallerBehind(all)
    ensures NoTwoSmallerBehind(some)
    decreases all
  {
    if some != [] {
      if some[0] == all[0] && Sublist(some[1..], all[1..]) {
        FewerBelow(some[1..], all[1..], some[0]);
        NorAmongSome(some[1..], all[1..]);
      } else {
        NorAmongSome(some, all[1..]);
      }
    }
  }

  lemma {:induction false} InTurn(some: seq<nat>, more: seq<nat>, all: seq<nat>)
    requires Sublist(some, more) && Sublist(more, all)
    ensures Sublist(some, all)
    decreases all
  {
    if some != [] {
      if more[0] == all[0] && Sublist(more[1..], all[1..]) {
        if some[0] == more[0] && Sublist(some[1..], more[1..]) {
          InTurn(some[1..], more[1..], all[1..]);
        } else {
          InTurn(some, more[1..], all[1..]);
        }
      } else {
        InTurn(some, more, all[1..]);
      }
    }
  }

  // ---------------------------------------------------------------- what is started out of so much

  lemma {:induction false} OnlySmallerStart(wants: seq<nat>, free: nat, size: nat)
    requires free < size
    ensures Started(wants, free) <= Below(wants, size)
  {
    if wants != [] {
      if free >= wants[0] {
        OnlySmallerStart(wants[1..], free - wants[0], size);
      } else {
        OnlySmallerStart(wants[1..], free, size);
      }
    }
  }

  lemma {:induction false} MoreOfTheSame(wants: seq<nat>, free: nat, more: nat)
    requires NoTwoSmallerBehind(wants) && free <= more
    ensures Started(wants, free) <= Started(wants, more)
  {
    if wants != [] {
      if free >= wants[0] {
        MoreOfTheSame(wants[1..], free - wants[0], more - wants[0]);
      } else if more < wants[0] {
        MoreOfTheSame(wants[1..], free, more);
      } else {
        OnlySmallerStart(wants[1..], free, wants[0]);
      }
    }
  }

  /** Taking so much off costs one at most, where one at most is smaller than that. */
  lemma {:induction false} LosingOne(wants: seq<nat>, free: nat, size: nat)
    requires NoTwoSmallerBehind(wants) && Below(wants, size) <= 1 && free >= size
    ensures Started(wants, free) <= 1 + Started(wants, free - size)
  {
    if wants != [] {
      var next, rest := wants[0], wants[1..];
      if free < next {
        LosingOne(rest, free, size);
      } else if free - size >= next {
        LosingOne(rest, free - next, size);
      } else if next >= size {
        MoreOfTheSame(rest, free - next, free - size);
      } else {
        OnlySmallerStart(rest, free - next, size);
      }
    }
  }

  /** More of them, out of more, start no fewer. */
  lemma {:induction false} MoreOfMore(some: seq<nat>, all: seq<nat>, free: nat, more: nat)
    requires Sublist(some, all) && NoTwoSmallerBehind(all) && free <= more
    ensures Started(some, free) <= Started(all, more)
    decreases all
  {
    if some != [] {
      if some[0] == all[0] && Sublist(some[1..], all[1..]) {
        TakingBoth(some, all, free, more);
      } else {
        TakingOneMore(some, all, free, more);
      }
    }
  }

  lemma {:induction false} TakingBoth(some: seq<nat>, all: seq<nat>, free: nat, more: nat)
    requires some != [] && all != [] && some[0] == all[0] && Sublist(some[1..], all[1..])
    requires NoTwoSmallerBehind(all) && free <= more
    ensures Started(some, free) <= Started(all, more)
    decreases all, 0
  {
    if free >= some[0] {
      MoreOfMore(some[1..], all[1..], free - some[0], more - some[0]);
    } else if more < some[0] {
      MoreOfMore(some[1..], all[1..], free, more);
    } else {
      OnlySmallerStart(some[1..], free, some[0]);
      FewerBelow(some[1..], all[1..], some[0]);
    }
  }

  lemma {:induction false} TakingOneMore(some: seq<nat>, all: seq<nat>, free: nat, more: nat)
    requires all != [] && Sublist(some, all[1..]) && NoTwoSmallerBehind(all) && free <= more
    ensures Started(some, free) <= Started(all, more)
    decreases all, 0
  {
    var next := all[0];
    FewerBelow(some, all[1..], next);
    if more < next {
      MoreOfMore(some, all[1..], free, more);
    } else if free < next {
      OnlySmallerStart(some, free, next);
    } else {
      NorAmongSome(some, all[1..]);
      LosingOne(some, free, next);
      MoreOfMore(some, all[1..], free - next, more - next);
    }
  }

  // ---------------------------------------------------------------- what a larger budget lets go

  /** The sizes of all tasks that have one, in the order they wait. */
  function SizesFrom(cost: Sizings.Sizings, pending: seq<Candidate>, i: nat): (sizes: seq<nat>)
    requires i <= |pending|
    ensures Positive(sizes)
    decreases |pending| - i
  {
    if i == |pending| then []
    else
      var sizing := cost.Model(pending[i].1);
      if sizing.Some? then [Max(sizing.value.Allowing(), 1)] + SizesFrom(cost, pending, i + 1)
      else SizesFrom(cost, pending, i + 1)
  }

  /** A larger budget lasts no shorter. */
  lemma {:induction false} LastsAsLong(left: U64, more: U64, elapsed: U64, spent: U64)
    requires left <= more && spent > 0
    ensures Quotient(SatMul(left, elapsed), spent) <= Quotient(SatMul(more, elapsed), spent)
  {
    ProductRises(left, more, elapsed);
    QuotientRises(SatMul(left, elapsed), SatMul(more, elapsed), spent);
  }

  lemma {:induction false} StillMayBeGoing(st: Standing, declared: U64, more: U64, model: Option<string>)
    requires declared <= more && MayBeGoing(st.(declared := declared), model)
    ensures MayBeGoing(st.(declared := more), model)
  {
    if st.spent > 0 {
      LastsAsLong(SatSub(declared, st.spent), SatSub(more, st.spent), st.elapsed, st.spent);
    }
  }

  lemma {:induction false} OneMoreOfBoth(some: seq<nat>, all: seq<nat>, next: nat)
    requires Sublist(some, all)
    ensures Sublist([next] + some, [next] + all) && Sublist(some, [next] + all)
  {
    assert ([next] + some)[1..] == some && ([next] + all)[1..] == all;
  }

  lemma {:induction false} MoreLetsMoreGo(st: Standing, declared: U64, more: U64, i: nat)
    requires declared <= more && i <= |st.pending|
    ensures Sublist(WantsFrom(st.(declared := declared), i), WantsFrom(st.(declared := more), i))
    decreases |st.pending| - i
  {
    if i < |st.pending| {
      var one, another, model := st.(declared := declared), st.(declared := more), st.pending[i].1;
      MoreLetsMoreGo(st, declared, more, i + 1);
      if MayBeGoing(one, model) {
        StillMayBeGoing(st, declared, more, model);
      }
      if MayBeGoing(another, model) {
        OneMoreOfBoth(WantsFrom(one, i + 1), WantsFrom(another, i + 1), Want(another, model).value);
      }
    }
  }

  lemma {:induction false} ThoseWithASize(st: Standing, i: nat)
    requires i <= |st.pending|
    ensures Sublist(WantsFrom(st, i), SizesFrom(st.before.cost, st.pending, i))
    decreases |st.pending| - i
  {
    if i < |st.pending| {
      var model := st.pending[i].1;
      ThoseWithASize(st, i + 1);
      if Want(st, model).Some? {
        OneMoreOfBoth(WantsFrom(st, i + 1), SizesFrom(st.before.cost, st.pending, i + 1), Want(st, model).value);
      }
    }
  }

  /** With so much less and more, from a place on, beside others. */
  lemma {:induction false} BesideRises(st: Standing, declared: U64, more: U64, i: nat, free: nat, another: nat)
    requires declared <= more && i <= |st.pending| && free <= another
    requires NoTwoSmallerBehind(SizesFrom(st.before.cost, st.pending, i))
    ensures Started(WantsFrom(st.(declared := declared), i), free)
         <= Started(WantsFrom(st.(declared := more), i), another)
  {
    MoreLetsMoreGo(st, declared, more, i);
    ThoseWithASize(st.(declared := more), i);
    NorAmongSome(WantsFrom(st.(declared := more), i), SizesFrom(st.before.cost, st.pending, i));
    MoreOfMore(WantsFrom(st.(declared := declared), i), WantsFrom(st.(declared := more), i), free, another);
  }

  // ---------------------------------------------------------------- with nothing going

  lemma {:induction false} NoneBelowStarts(st: Standing, i: nat, free: nat, size: nat)
    requires i <= |st.pending| && Below(SizesFrom(st.before.cost, st.pending, i), size) == 0 && free < size
    ensures Started(WantsFrom(st, i), free) == 0
  {
    ThoseWithASize(st, i);
    FewerBelow(WantsFrom(st, i), SizesFrom(st.before.cost, st.pending, i), size);
    OnlySmallerStart(WantsFrom(st, i), free, size);
  }

  lemma {:induction false} NextSize(st: Standing, i: nat)
    requires i < |st.pending|
    ensures var sizes, rest := SizesFrom(st.before.cost, st.pending, i), SizesFrom(st.before.cost, st.pending, i + 1);
            if Want(st, st.pending[i].1).Some?
            then sizes == [Want(st, st.pending[i].1).value] + rest && sizes[1..] == rest
            else sizes == rest
  {
  }

  /** Out of less than a size that one at most is smaller than, one at most is started alone. */
  lemma {:induction false} OneAloneAtMost(st: Standing, i: nat, free: U64, size: nat)
    requires i <= |st.pending| && Below(SizesFrom(st.before.cost, st.pending, i), size) <= 1 && free < size
    ensures StartedAlone(OfferOf(st), st.pending, free, i) <= 1
    decreases |st.pending| - i
  {
    if i < |st.pending| {
      var model := st.pending[i].1;
      NextSize(st, i);
      StartedAloneIs(st, free, i);
      OneAloneAtMost(st, i + 1, free, size);
      if Want(st, model).Some? && free >= Want(st, model).value {
        NoneBelowStarts(st, i + 1, free - Want(st, model).value, size);
      }
    }
  }

  lemma {:induction false} AloneRisesToo(st: Standing, declared: U64, more: U64, i: nat, free: U64, another: U64)
    requires declared <= more && i <= |st.pending| && free <= another
    requires NoTwoSmallerBehind(SizesFrom(st.before.cost, st.pending, i))
    ensures StartedAlone(OfferOf(st.(declared := declared)), st.pending, free, i)
         <= StartedAlone(OfferOf(st.(declared := more)), st.pending, another, i)
    decreases |st.pending| - i
  {
    if free == 0 {
      NoneAloneOutOfNothing(st.(declared := declared), i);
    } else if i < |st.pending| {
      NextSize(st, i);
      AloneRisesToo(st, declared, more, i + 1, free, another);
      NextAloneRises(st, declared, more, i, free, another);
    }
  }

  lemma {:induction false} NextAloneRises(st: Standing, declared: U64, more: U64, i: nat, free: U64, another: U64)
    requires declared <= more && i < |st.pending| && 0 < free <= another
    requires NoTwoSmallerBehind(SizesFrom(st.before.cost, st.pending, i))
    requires StartedAlone(OfferOf(st.(declared := declared)), st.pending, free, i + 1)
          <= StartedAlone(OfferOf(st.(declared := more)), st.pending, another, i + 1)
    ensures StartedAlone(OfferOf(st.(declared := declared)), st.pending, free, i)
         <= StartedAlone(OfferOf(st.(declared := more)), st.pending, another, i)
  {
    var one, two, model := st.(declared := declared), st.(declared := more), st.pending[i].1;
    NextSize(st, i);
    StartedAloneIs(one, free, i);
    StartedAloneIs(two, another, i);
    if FitsTheClock(st, model) && Want(st, model).Some? {
      var want := Want(st, model).value;
      if free >= want {
        BesideRises(st, declared, more, i + 1, free - want, another - want);
      } else if free < Least(st, model) {
        OneAloneAtMost(one, i + 1, free, want);
      }
    }
  }

  // ---------------------------------------------------------------- a larger budget

  /** Whatever the pace, the clock and the rate, and whether or not anything is going, a session with a larger
      budget never starts fewer tasks where none that waits has two smaller ones behind it: one model only,
      and any sizes that do not fall along the list, are the usual cases. */
  lemma {:induction false} MoreBudgetNeverStartsFewer(st: Standing, declared: U64, more: U64)
    requires NoTwoSmallerBehind(SizesFrom(st.before.cost, st.pending, 0)) && declared <= more
    ensures |Allowances(st.(declared := declared))| <= |Allowances(st.(declared := more))|
  {
    var one, two := st.(declared := declared), st.(declared := more);
    AllowedAreStarted(one);
    AllowedAreStarted(two);
    if st.running == 0 {
      AloneRisesToo(st, declared, more, 0, one.Free(), two.Free());
    } else {
      StartedAreSizes(one, one.Free(), 0);
      StartedAreSizes(two, two.Free(), 0);
      BesideRises(st, declared, more, 0, one.Free(), two.Free());
    }
  }

  lemma {:induction false} NoneBelow(wants: seq<nat>, size: nat)
    requires forall i :: 0 <= i < |wants| ==> wants[i] >= size
    ensures Below(wants, size) == 0
  {
    if wants != [] {
      NoneBelow(wants[1..], size);
    }
  }

  lemma {:induction false} SizesThatDoNotFall(wants: seq<nat>)
    requires forall i, j :: 0 <= i < j < |wants| ==> wants[i] <= wants[j]
    ensures NoTwoSmallerBehind(wants)
  {
    if wants != [] {
      NoneBelow(wants[1..], wants[0]);
      SizesThatDoNotFall(wants[1..]);
    }
  }

  // ---------------------------------------------------------------- where two much smaller wait behind

  /** What is set aside for a run of each model that has a size. */
  type Sized = sizes: map<Option<string>, nat> | forall model :: model in sizes ==> sizes[model] > 0

  /** The sizes of tasks of these models from a place on. */
  function Those(sizes: Sized, pending: seq<Candidate>, models: set<Option<string>>, i: nat)
    : (these: seq<nat>)
    requires i <= |pending|
    ensures Positive(these)
    decreases |pending| - i
  {
    if i == |pending| then []
    else
      var model := pending[i].1;
      if model in models && model in sizes then [sizes[model]] + Those(sizes, pending, models, i + 1)
      else Those(sizes, pending, models, i + 1)
  }

  /** And of those before it. */
  function Earlier(sizes: Sized, pending: seq<Candidate>, models: set<Option<string>>, n: nat)
    : (these: seq<nat>)
    requires n <= |pending|
    ensures Positive(these)
  {
    if n == 0 then []
    else
      var model := pending[n - 1].1;
      if model in models && model in sizes then Earlier(sizes, pending, models, n - 1) + [sizes[model]]
      else Earlier(sizes, pending, models, n - 1)
  }

  lemma {:induction false} OneFurther(sizes: Sized, pending: seq<Candidate>, models: set<Option<string>>, n: nat)
    requires 0 < n <= |pending|
    ensures Earlier(sizes, pending, models, n - 1) + Those(sizes, pending, models, n - 1)
         == Earlier(sizes, pending, models, n) + Those(sizes, pending, models, n)
  {
    var front, rest := Earlier(sizes, pending, models, n - 1), Those(sizes, pending, models, n);
    var model := pending[n - 1].1;
    if model in models && model in sizes {
      assert front + ([sizes[model]] + rest) == (front + [sizes[model]]) + rest;
    }
  }

  lemma {:induction false} EarlierAndThose(sizes: Sized, pending: seq<Candidate>, models: set<Option<string>>,
                                           n: nat)
    requires n <= |pending|
    ensures Those(sizes, pending, models, 0) == Earlier(sizes, pending, models, n) + Those(sizes, pending, models, n)
  {
    if n > 0 {
      EarlierAndThose(sizes, pending, models, n - 1);
      OneFurther(sizes, pending, models, n);
    } else {
      var all := Those(sizes, pending, models, 0);
      assert [] + all == all;
    }
  }

  lemma {:induction false} NoneOfItBefore(sizes: Sized, pending: seq<Candidate>, models: set<Option<string>>,
                                          model: Option<string>, n: nat)
    requires n <= |pending| && forall k :: 0 <= k < n ==> pending[k].1 != model
    ensures Earlier(sizes, pending, models + {model}, n) == Earlier(sizes, pending, models, n)
  {
    if n > 0 {
      NoneOfItBefore(sizes, pending, models, model, n - 1);
    }
  }

  /** One that fits is started, if not another. */
  lemma {:induction false} OneIsStarted(wants: seq<nat>, free: nat, size: nat)
    requires size in wants && free >= size
    ensures Started(wants, free) >= 1
  {
    if wants[0] != size && free < wants[0] {
      OneIsStarted(wants[1..], free, size);
    }
  }

  lemma {:induction false} ItIsAmongThose(sizes: Sized, pending: seq<Candidate>, models: set<Option<string>>,
                                          i: nat, k: nat)
    requires i <= k < |pending| && pending[k].1 in models && pending[k].1 in sizes
    ensures sizes[pending[k].1] in Those(sizes, pending, models, i)
    decreases k - i
  {
    if i < k {
      ItIsAmongThose(sizes, pending, models, i + 1, k);
    }
  }

  /** Out of enough for two, two are started where none is larger than either. */
  lemma {:induction false} TwoAreStarted(sizes: Sized, pending: seq<Candidate>, one: Option<string>,
                                         two: Option<string>, i: nat, j: nat, k: nat, free: nat)
    requires one in sizes && two in sizes && i <= j < k < |pending|
    requires pending[j].1 == one && pending[k].1 == two && free >= sizes[one] + sizes[two]
    ensures Started(Those(sizes, pending, {one, two}, i), free) >= 2
    decreases j - i
  {
    var models, model := {one, two}, pending[i].1;
    var rest := Those(sizes, pending, models, i + 1);
    if model in models {
      assert ([sizes[model]] + rest)[1..] == rest;
      if i < j && model == two {
        ItIsAmongThose(sizes, pending, models, i + 1, j);
        OneIsStarted(rest, free - sizes[model], sizes[one]);
      } else {
        ItIsAmongThose(sizes, pending, models, i + 1, k);
        OneIsStarted(rest, free - sizes[model], sizes[two]);
      }
    } else {
      TwoAreStarted(sizes, pending, one, two, i + 1, j, k, free);
    }
  }

  lemma {:induction false} NoneOfThoseFits(sizes: Sized, pending: seq<Candidate>,
                                           models: set<Option<string>>, i: nat, free: nat)
    requires i <= |pending|
    requires forall model :: model in models && model in sizes ==> sizes[model] > free
    ensures Started(Those(sizes, pending, models, i), free) == 0
    decreases |pending| - i
  {
    if i < |pending| {
      var rest := Those(sizes, pending, models, i + 1);
      NoneOfThoseFits(sizes, pending, models, i + 1, free);
      if pending[i].1 in models && pending[i].1 in sizes {
        assert ([sizes[pending[i].1]] + rest)[1..] == rest;
      }
    }
  }

  lemma {:induction false} AllBeforeAndThen(front: seq<nat>, rest: seq<nat>, free: nat)
    requires Positive(front) && Positive(rest)
    ensures Started(front + rest, Sum(front) + free) == |front| + Started(rest, free)
  {
    var wants := front + rest;
    assert Positive(wants) && wants[..|front|] == front && wants[|front|..] == rest;
    AllBefore(wants, |front|, Sum(front) + free);
  }

  /** After the same ones, two are started out of so much, and out of one more only the first, which leaves
      nothing for those behind it. */
  lemma {:induction false} OneForTwo(front: seq<nat>, low: seq<nat>, size: nat, rest: seq<nat>, enough: nat)
    requires Positive(front) && Positive(low) && Positive(rest) && 0 < size <= enough + 1
    requires Started(low, enough) >= 2 && Started(rest, enough + 1 - size) == 0
    ensures Started(front + low, Sum(front) + enough) > Started(front + ([size] + rest), Sum(front) + (enough + 1))
  {
    AllBeforeAndThen(front, low, enough);
    assert ([size] + rest)[1..] == rest;
    AllBeforeAndThen(front, [size] + rest, enough + 1);
  }

  /** So much is less than any of the three. */
  predicate TooLittleIsLeft(sizes: Sized, pending: seq<Candidate>, i: nat, j: nat, k: nat, free: nat)
    requires i < |pending| && j < |pending| && k < |pending|
    requires pending[i].1 in sizes && pending[j].1 in sizes && pending[k].1 in sizes
  {
    free < sizes[pending[i].1] && free < sizes[pending[j].1] && free < sizes[pending[k].1]
  }

  lemma {:induction false} NothingBehind(sizes: Sized, pending: seq<Candidate>, i: nat, j: nat, k: nat, free: nat)
    requires i < |pending| && j < |pending| && k < |pending|
    requires pending[i].1 in sizes && pending[j].1 in sizes && pending[k].1 in sizes
    requires TooLittleIsLeft(sizes, pending, i, j, k, free)
    ensures Started(Those(sizes, pending, {pending[j].1, pending[k].1} + {pending[i].1}, i + 1), free) == 0
  {
    NoneOfThoseFits(sizes, pending, {pending[j].1, pending[k].1} + {pending[i].1}, i + 1, free);
  }

  /** With the first of a model going too, the same before it, and then it. */
  lemma {:induction false} ThenThatOne(sizes: Sized, pending: seq<Candidate>, models: set<Option<string>>, i: nat)
    requires i < |pending| && pending[i].1 in sizes
    requires forall n :: 0 <= n < i ==> pending[n].1 != pending[i].1
    ensures var more := models + {pending[i].1};
            Those(sizes, pending, more, 0)
            == Earlier(sizes, pending, models, i) + ([sizes[pending[i].1]] + Those(sizes, pending, more, i + 1))
  {
    EarlierAndThose(sizes, pending, models + {pending[i].1}, i);
    NoneOfItBefore(sizes, pending, models, pending[i].1, i);
  }

  /** More may go, and fewer are started: the first of one model takes what two behind it were given. */
  lemma {:induction false} OneTakesTheirs(sizes: Sized, pending: seq<Candidate>, models: set<Option<string>>, i: nat,
                                          j: nat, k: nat, enough: nat, room: nat)
    requires i < j < k < |pending| && models == {pending[j].1, pending[k].1}
    requires pending[i].1 in sizes && pending[j].1 in sizes && pending[k].1 in sizes
    requires enough >= sizes[pending[j].1] + sizes[pending[k].1] && enough + 1 >= sizes[pending[i].1]
    requires TooLittleIsLeft(sizes, pending, i, j, k, enough + 1 - sizes[pending[i].1])
    requires forall n :: 0 <= n < i ==> pending[n].1 != pending[i].1
    requires room == Sum(Earlier(sizes, pending, models, i)) + enough
    ensures Started(Those(sizes, pending, models, 0), room)
          > Started(Those(sizes, pending, models + {pending[i].1}, 0), room + 1)
  {
    var front, low := Earlier(sizes, pending, models, i), Those(sizes, pending, models, i);
    var rest := Those(sizes, pending, models + {pending[i].1}, i + 1);
    EarlierAndThose(sizes, pending, models, i);
    ThenThatOne(sizes, pending, models, i);
    TwoAreStarted(sizes, pending, pending[j].1, pending[k].1, i, j, k, enough);
    NothingBehind(sizes, pending, i, j, k, enough + 1 - sizes[pending[i].1]);
    OneForTwo(front, low, sizes[pending[i].1], rest, enough);
  }

  // ---------------------------------------------------------------- sizes add up

  lemma {:induction false} SomeAddUpToLess(some: seq<nat>, all: seq<nat>)
    requires Sublist(some, all)
    ensures Sum(some) <= Sum(all)
    decreases all
  {
    if some != [] {
      if some[0] == all[0] && Sublist(some[1..], all[1..]) {
        SomeAddUpToLess(some[1..], all[1..]);
      } else {
        SomeAddUpToLess(some, all[1..]);
      }
    }
  }

  lemma {:induction false} SumsAddUp(front: seq<nat>, rest: seq<nat>)
    ensures Sum(front + rest) == Sum(front) + Sum(rest)
  {
    if front != [] {
      SumsAddUp(front[1..], rest);
      assert (front + rest)[1..] == front[1..] + rest;
    } else {
      assert front + rest == rest;
    }
  }

  lemma {:induction false} OneAddsUp(wants: seq<nat>, size: nat)
    requires size in wants
    ensures Sum(wants) >= size
  {
    if wants[0] != size {
      OneAddsUp(wants[1..], size);
    }
  }

  /** Two of those add up to no more than all of those. */
  lemma {:induction false} TwoAddUp(sizes: Sized, pending: seq<Candidate>, models: set<Option<string>>, i: nat,
                                    j: nat, k: nat)
    requires i <= j < k < |pending| && pending[j].1 in models && pending[k].1 in models
    requires pending[j].1 in sizes && pending[k].1 in sizes
    ensures Sum(Those(sizes, pending, models, i)) >= sizes[pending[j].1] + sizes[pending[k].1]
    decreases j - i
  {
    var rest := Those(sizes, pending, models, i + 1);
    if pending[i].1 in models && pending[i].1 in sizes {
      assert ([sizes[pending[i].1]] + rest)[1..] == rest;
    }
    if i < j {
      TwoAddUp(sizes, pending, models, i + 1, j, k);
    } else {
      ItIsAmongThose(sizes, pending, models, i + 1, k);
      OneAddsUp(rest, sizes[pending[k].1]);
    }
  }

  lemma {:induction false} ThreeAddUp(sizes: Sized, pending: seq<Candidate>, models: set<Option<string>>,
                                      i: nat, j: nat, k: nat)
    requires i < j < k < |pending| && pending[i].1 !in models
    requires pending[i].1 in sizes && pending[j].1 in sizes && pending[k].1 in sizes
    requires pending[j].1 in models && pending[k].1 in models
    requires forall n :: 0 <= n < i ==> pending[n].1 != pending[i].1
    ensures Sum(Earlier(sizes, pending, models, i)) + sizes[pending[i].1] + sizes[pending[j].1]
            + sizes[pending[k].1] <= Sum(Those(sizes, pending, models + {pending[i].1}, 0))
  {
    var model := pending[i].1;
    var more := models + {model};
    var rest := Those(sizes, pending, more, i + 1);
    NoneOfItBefore(sizes, pending, models, model, i);
    EarlierAndThose(sizes, pending, more, i);
    SumsAddUp(Earlier(sizes, pending, more, i), Those(sizes, pending, more, i));
    assert ([sizes[model]] + rest)[1..] == rest;
    TwoAddUp(sizes, pending, more, i + 1, j, k);
  }

  // ---------------------------------------------------------------- sizes by model

  /** What is set aside for a run of a model that has a size. */
  function Size(cost: Sizings.Sizings, model: Option<string>): nat
    requires cost.Model(model).Some?
  {
    Max(cost.Model(model).value.Allowing(), 1)
  }

  /** The sizes of the models that waiting tasks name. */
  function SizesOf(cost: Sizings.Sizings, pending: seq<Candidate>): Sized {
    map k | 0 <= k < |pending| && cost.Model(pending[k].1).Some? :: pending[k].1 := Size(cost, pending[k].1)
  }

  lemma {:induction false} ThoseAreSome(cost: Sizings.Sizings, pending: seq<Candidate>, models: set<Option<string>>,
                                        i: nat)
    requires i <= |pending|
    ensures Sublist(Those(SizesOf(cost, pending), pending, models, i), SizesFrom(cost, pending, i))
    decreases |pending| - i
  {
    if i < |pending| {
      ThoseAreSome(cost, pending, models, i + 1);
      if cost.Model(pending[i].1).Some? {
        OneMoreOfBoth(Those(SizesOf(cost, pending), pending, models, i + 1), SizesFrom(cost, pending, i + 1),
                      Size(cost, pending[i].1));
      }
    }
  }

  // ---------------------------------------------------------------- a pace that lets it happen

  function Names(pending: seq<Candidate>): set<string> {
    set k | 0 <= k < |pending| && pending[k].1.Some? :: pending[k].1.value
  }

  /** Runs of these models take no time, those of this one just longer than a budget lasts, and all others
      longer than one more token would. */
  function LengthOf(models: set<Option<string>>, model: Option<string>, room: U64, of: Option<string>): U64
    requires room + 2 <= U64_MAX
  {
    if of in models then 0 else if of == model then room + 1 else room + 2
  }

  function AlwaysSo(length: U64): Sizings.Sizing {
    Sizings.Sizing(length, length, 1, 0)
  }

  function Lengths(pending: seq<Candidate>, models: set<Option<string>>, model: Option<string>, room: U64)
    : Sizings.Sizings
    requires room + 2 <= U64_MAX
  {
    Sizings.Sizings(map name | name in Names(pending) :: AlwaysSo(LengthOf(models, model, room, Some(name))),
                    Some(AlwaysSo(LengthOf(models, model, room, None))))
  }

  lemma {:induction false} EachHasALength(pending: seq<Candidate>, models: set<Option<string>>, model: Option<string>,
                                          room: U64, k: nat)
    requires room + 2 <= U64_MAX && k < |pending|
    ensures var lasts := Lengths(pending, models, model, room).Model(pending[k].1);
            lasts.Some? && lasts.value.Allowing() == LengthOf(models, model, room, pending[k].1)
  {
    assert pending[k].1.Some? ==> pending[k].1.value in Names(pending);
  }

  /** A session that goes through a token a second, one second in, with something going. */
  function Paced(cost: Sizings.Sizings, pending: seq<Candidate>, models: set<Option<string>>, model: Option<string>,
                 room: U64, declared: U64): Standing
    requires room + 2 <= U64_MAX
  {
    Standing(declared, 1, 1, 0, Figures(cost, Lengths(pending, models, model, room)), 1, pending, 1, false, false,
             Timing.Any, Locking.Waits, Holds)
  }

  lemma {:induction false} HowLongItLasts(st: Standing)
    requires st.spent == 1 && st.elapsed == 1
    ensures st.UntilGone() == Some(st.Left())
  {
    assert st.Left() / 1 == st.Left();
  }

  lemma {:induction false} WhoLastsAsLong(cost: Sizings.Sizings, pending: seq<Candidate>, models: set<Option<string>>,
                                          model: Option<string>, room: U64, declared: U64, k: nat)
    requires room + 2 <= U64_MAX && k < |pending| && declared > 0
    ensures var of := pending[k].1;
            MayBeGoing(Paced(cost, pending, models, model, room, declared), of)
            <==> cost.Model(of).Some? && LengthOf(models, model, room, of) < declared
  {
    EachHasALength(pending, models, model, room, k);
    HowLongItLasts(Paced(cost, pending, models, model, room, declared));
  }

  lemma {:induction false} WhoMayBeGoing(cost: Sizings.Sizings, pending: seq<Candidate>, models: set<Option<string>>,
                                         model: Option<string>, room: U64, k: nat)
    requires room + 2 <= U64_MAX && k < |pending| && model !in models
    ensures var of := pending[k].1;
            && (MayBeGoing(Paced(cost, pending, models, model, room, room + 1), of)
                <==> of in models && cost.Model(of).Some?)
            && (MayBeGoing(Paced(cost, pending, models, model, room, room + 2), of)
                <==> of in models + {model} && cost.Model(of).Some?)
  {
    WhoLastsAsLong(cost, pending, models, model, room, room + 1, k);
    WhoLastsAsLong(cost, pending, models, model, room, room + 2, k);
  }

  lemma {:induction false} WantsAreThose(st: Standing, models: set<Option<string>>, i: nat)
    requires i <= |st.pending|
    requires forall k :: 0 <= k < |st.pending| ==>
               (MayBeGoing(st, st.pending[k].1)
                <==> st.pending[k].1 in models && st.before.cost.Model(st.pending[k].1).Some?)
    ensures WantsFrom(st, i) == Those(SizesOf(st.before.cost, st.pending), st.pending, models, i)
    decreases |st.pending| - i
  {
    if i < |st.pending| {
      WantsAreThose(st, models, i + 1);
      if MayBeGoing(st, st.pending[i].1) {
        var _ := SizesAre(st.before.cost, st.pending, i);
      }
    }
  }

  lemma {:induction false} WhoIsWanted(cost: Sizings.Sizings, pending: seq<Candidate>, models: set<Option<string>>,
                                       model: Option<string>, room: U64)
    requires room + 2 <= U64_MAX && model !in models
    ensures WantsFrom(Paced(cost, pending, models, model, room, room + 1), 0)
         == Those(SizesOf(cost, pending), pending, models, 0)
    ensures WantsFrom(Paced(cost, pending, models, model, room, room + 2), 0)
         == Those(SizesOf(cost, pending), pending, models + {model}, 0)
  {
    var low, high := Paced(cost, pending, models, model, room, room + 1),
        Paced(cost, pending, models, model, room, room + 2);
    forall k | 0 <= k < |pending|
      ensures MayBeGoing(low, pending[k].1) <==> pending[k].1 in models && cost.Model(pending[k].1).Some?
      ensures MayBeGoing(high, pending[k].1) <==> pending[k].1 in models + {model} && cost.Model(pending[k].1).Some?
    {
      WhoMayBeGoing(cost, pending, models, model, room, k);
    }
    WantsAreThose(low, models, 0);
    WantsAreThose(high, models + {model}, 0);
  }

  lemma {:induction false} HowManyAreStarted(cost: Sizings.Sizings, pending: seq<Candidate>,
                                             models: set<Option<string>>, model: Option<string>, room: U64)
    requires room + 2 <= U64_MAX && model !in models
    ensures var st, sizes := Paced(cost, pending, models, model, room, 0), SizesOf(cost, pending);
            && |Allowances(st.(declared := room + 1))| == Started(Those(sizes, pending, models, 0), room)
            && |Allowances(st.(declared := room + 2))| == Started(Those(sizes, pending, models + {model}, 0), room + 1)
  {
    var low, high := Paced(cost, pending, models, model, room, room + 1),
        Paced(cost, pending, models, model, room, room + 2);
    WhoIsWanted(cost, pending, models, model, room);
    AllowedAreStarted(low);
    AllowedAreStarted(high);
    StartedAreSizes(low, room, 0);
    StartedAreSizes(high, room + 1, 0);
  }

  // ---------------------------------------------------------------- the other way round

  /** Enough for two of them, or for all but one token of the third, and with it all that is given before. */
  lemma {:induction false} RoomForTwo(sizes: Sized, pending: seq<Candidate>, models: set<Option<string>>, i: nat,
                                      j: nat, k: nat) returns (enough: nat, room: U64)
    requires i < j < k < |pending| && models == {pending[j].1, pending[k].1}
    requires pending[i].1 in sizes && pending[j].1 in sizes && pending[k].1 in sizes
    requires sizes[pending[j].1] + 1 < sizes[pending[i].1] && sizes[pending[k].1] + 1 < sizes[pending[i].1]
    requires Sum(Those(sizes, pending, models + {pending[i].1}, 0)) < U64_MAX
    requires forall n :: 0 <= n < i ==> pending[n].1 != pending[i].1
    ensures enough >= sizes[pending[j].1] + sizes[pending[k].1] && enough + 1 >= sizes[pending[i].1]
    ensures TooLittleIsLeft(sizes, pending, i, j, k, enough + 1 - sizes[pending[i].1])
    ensures room == Sum(Earlier(sizes, pending, models, i)) + enough && room + 2 <= U64_MAX
  {
    ThreeAddUp(sizes, pending, models, i, j, k);
    enough := Max(sizes[pending[j].1] + sizes[pending[k].1], sizes[pending[i].1] - 1);
    room := Sum(Earlier(sizes, pending, models, i)) + enough;
  }

  lemma {:induction false} SizesAre(cost: Sizings.Sizings, pending: seq<Candidate>, k: nat) returns (sizes: Sized)
    requires k < |pending| && cost.Model(pending[k].1).Some?
    ensures sizes == SizesOf(cost, pending)
    ensures pending[k].1 in sizes && sizes[pending[k].1] == Size(cost, pending[k].1)
  {
    sizes := SizesOf(cost, pending);
  }

  lemma {:induction false} TheyMayBeDeclared(cost: Sizings.Sizings, pending: seq<Candidate>,
                                             models: set<Option<string>>)
    requires Sum(SizesFrom(cost, pending, 0)) < U64_MAX
    ensures Sum(Those(SizesOf(cost, pending), pending, models, 0)) < U64_MAX
  {
    ThoseAreSome(cost, pending, models, 0);
    SomeAddUpToLess(Those(SizesOf(cost, pending), pending, models, 0), SizesFrom(cost, pending, 0));
  }

  lemma {:induction false} SizesOfThree(cost: Sizings.Sizings, pending: seq<Candidate>, i: nat, j: nat, k: nat)
    returns (sizes: Sized)
    requires i < j < k < |pending| && SizedAlike(cost, pending, i, j, k) && MuchSmaller(cost, pending, i, j, k)
    ensures sizes == SizesOf(cost, pending)
    ensures pending[i].1 in sizes && pending[j].1 in sizes && pending[k].1 in sizes
    ensures sizes[pending[j].1] + 1 < sizes[pending[i].1] && sizes[pending[k].1] + 1 < sizes[pending[i].1]
  {
    sizes := SizesAre(cost, pending, i);
    var _ := SizesAre(cost, pending, j);
    var _ := SizesAre(cost, pending, k);
  }

  lemma {:induction false} FewerOfMore(sizes: Sized, pending: seq<Candidate>, models: set<Option<string>>, i: nat,
                                       j: nat, k: nat) returns (room: U64)
    requires i < j < k < |pending| && models == {pending[j].1, pending[k].1}
    requires pending[i].1 in sizes && pending[j].1 in sizes && pending[k].1 in sizes
    requires sizes[pending[j].1] + 1 < sizes[pending[i].1] && sizes[pending[k].1] + 1 < sizes[pending[i].1]
    requires Sum(Those(sizes, pending, models + {pending[i].1}, 0)) < U64_MAX
    requires forall n :: 0 <= n < i ==> pending[n].1 != pending[i].1
    ensures room + 2 <= U64_MAX && pending[i].1 !in models
    ensures Started(Those(sizes, pending, models, 0), room)
          > Started(Those(sizes, pending, models + {pending[i].1}, 0), room + 1)
  {
    var enough;
    enough, room := RoomForTwo(sizes, pending, models, i, j, k);
    OneTakesTheirs(sizes, pending, models, i, j, k, enough, room);
  }

  /** Where two wait behind a task that are each smaller than it by more than one token, some lengths and some
      pace make a session start fewer tasks out of one token more. */
  lemma {:induction false} SomePaceStartsFewer(cost: Sizings.Sizings, pending: seq<Candidate>, i: nat, j: nat, k: nat)
    returns (st: Standing, declared: U64)
    requires i < j < k < |pending| && Sum(SizesFrom(cost, pending, 0)) < U64_MAX
    requires SizedAlike(cost, pending, i, j, k) && MuchSmaller(cost, pending, i, j, k)
    requires forall n :: 0 <= n < i ==> pending[n].1 != pending[i].1
    ensures st.pending == pending && st.before.cost == cost && st.running > 0 && declared < U64_MAX
    ensures |Allowances(st.(declared := declared))| > |Allowances(st.(declared := declared + 1))|
  {
    var model, models := pending[i].1, {pending[j].1, pending[k].1};
    var sizes := SizesOfThree(cost, pending, i, j, k);
    TheyMayBeDeclared(cost, pending, models + {model});
    var room := FewerOfMore(sizes, pending, models, i, j, k);
    st, declared := StartedFewer(cost, pending, models, model, room);
  }

  lemma {:induction false} StartedFewer(cost: Sizings.Sizings, pending: seq<Candidate>, models: set<Option<string>>,
                                        model: Option<string>, room: U64) returns (st: Standing, declared: U64)
    requires room + 2 <= U64_MAX && model !in models
    requires Started(Those(SizesOf(cost, pending), pending, models, 0), room)
           > Started(Those(SizesOf(cost, pending), pending, models + {model}, 0), room + 1)
    ensures st.pending == pending && st.before.cost == cost && st.running > 0 && declared < U64_MAX
    ensures |Allowances(st.(declared := declared))| > |Allowances(st.(declared := declared + 1))|
  {
    HowManyAreStarted(cost, pending, models, model, room);
    st, declared := Paced(cost, pending, models, model, room, 0), room + 1;
  }

  lemma {:induction false} FirstOfItsModel(pending: seq<Candidate>, i: nat) returns (first: nat)
    requires i < |pending|
    ensures first <= i && pending[first].1 == pending[i].1
    ensures forall n :: 0 <= n < first ==> pending[n].1 != pending[i].1
  {
    first := 0;
    while pending[first].1 != pending[i].1
      invariant first <= i && forall n :: 0 <= n < first ==> pending[n].1 != pending[i].1
      decreases i - first
    {
      first := first + 1;
    }
  }

  /** A larger budget never starts fewer of these tasks, whatever lengths runs have, whatever the clock, the rate
      and the pace, and whatever is going. */
  ghost predicate NeverFewer(cost: Sizings.Sizings, pending: seq<Candidate>) {
    forall st: Standing, declared: U64, more: U64 ::
      st.pending == pending && st.before.cost == cost && declared <= more ==>
        |Allowances(st.(declared := declared))| <= |Allowances(st.(declared := more))|
  }

  /** All three have a size. */
  predicate SizedAlike(cost: Sizings.Sizings, pending: seq<Candidate>, i: nat, j: nat, k: nat)
    requires i < |pending| && j < |pending| && k < |pending|
  {
    cost.Model(pending[i].1).Some? && cost.Model(pending[j].1).Some? && cost.Model(pending[k].1).Some?
  }

  /** Two of them are each smaller than the first by more than one token. */
  predicate MuchSmaller(cost: Sizings.Sizings, pending: seq<Candidate>, i: nat, j: nat, k: nat)
    requires i < |pending| && j < |pending| && k < |pending| && SizedAlike(cost, pending, i, j, k)
  {
    && Size(cost, pending[j].1) + 1 < Size(cost, pending[i].1)
    && Size(cost, pending[k].1) + 1 < Size(cost, pending[i].1)
  }

  /** None has two behind it that are. */
  predicate NoTwoMuchSmallerBehind(cost: Sizings.Sizings, pending: seq<Candidate>) {
    forall i, j, k :: 0 <= i < j < k < |pending| && SizedAlike(cost, pending, i, j, k) ==>
      !MuchSmaller(cost, pending, i, j, k)
  }

  /** To within one token it is exact: that holds where no task has two smaller ones behind it, and where it
      holds none has two behind it that are smaller by more than one token, as long as all that is wanted may
      be declared. */
  lemma {:induction false} NeverFewerToWithinOneToken(cost: Sizings.Sizings, pending: seq<Candidate>)
    requires Sum(SizesFrom(cost, pending, 0)) < U64_MAX
    ensures NoTwoSmallerBehind(SizesFrom(cost, pending, 0)) ==> NeverFewer(cost, pending)
    ensures NeverFewer(cost, pending) ==> NoTwoMuchSmallerBehind(cost, pending)
  {
    if NoTwoSmallerBehind(SizesFrom(cost, pending, 0)) {
      forall st: Standing, declared: U64, more: U64 |
        st.pending == pending && st.before.cost == cost && declared <= more
        ensures |Allowances(st.(declared := declared))| <= |Allowances(st.(declared := more))|
      {
        MoreBudgetNeverStartsFewer(st, declared, more);
      }
    }
    if !NoTwoMuchSmallerBehind(cost, pending) {
      var i, j, k :| 0 <= i < j < k < |pending| && SizedAlike(cost, pending, i, j, k)
                     && MuchSmaller(cost, pending, i, j, k);
      var first := FirstOfItsModel(pending, i);
      var st, declared := SomePaceStartsFewer(cost, pending, first, j, k);
    }
  }
}
