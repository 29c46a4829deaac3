/** How far the vendor's limit moves for what it prices a run at, and what each run is charged of it. */
module Rates {
  import opened Wrappers
  import opened Numbers
  import opened SessionValues
  import Metering

  /** What one run says about the two units: the readings either side of it, and its price. */
  datatype Priced = Priced(over: Option<(U64, U64)>, priced: U64)

  /** How far one run's readings say the limit climbed; nothing where it did not. */
  function Took(run: Priced): U64 {
    if run.over.Some? && run.over.value.1 > run.over.value.0 then run.over.value.1 - run.over.value.0 else 0
  }

  function Moved(runs: seq<Priced>): nat {
    if runs == [] then 0 else Moved(runs[..|runs| - 1]) + Took(runs[|runs| - 1])
  }

  /** What the runs that moved the limit were priced at. */
  function PricedAt(runs: seq<Priced>): nat {
    if runs == [] then 0
    else PricedAt(runs[..|runs| - 1]) + if Took(runs[|runs| - 1]) > 0 then runs[|runs| - 1].priced else 0
  }

  /** How many runs the rate is made of. */
  function Counted(runs: seq<Priced>): nat {
    if runs == [] then 0 else Counted(runs[..|runs| - 1]) + if Took(runs[|runs| - 1]) > 0 then 1 else 0
  }

  method MovedPerMillionth(runs: seq<Priced>) returns (moved: U64, priced: U64)
    ensures moved == Clamp(Moved(runs)) && priced == Clamp(PricedAt(runs))
  {
    moved, priced := 0, 0;
    for i := 0 to |runs|
      invariant moved == Clamp(Moved(runs[..i])) && priced == Clamp(PricedAt(runs[..i]))
    {
      var run := runs[i];
      assert runs[..i + 1][..i] == runs[..i];
      if run.over.Some? && run.over.value.0 <= run.over.value.1 {
        var took := run.over.value.1 - run.over.value.0;
        if took > 0 {
          moved := SatAdd(moved, took);
          priced := SatAdd(priced, run.priced);
        }
      }
    }
    assert runs[..|runs|] == runs;
  }

  /** One run's price at the rate of the whole ledger; nothing where the product is past 64 bits. */
  function Prorated(price: U64, moved: U64, over: U64): Option<U64> {
    if price * moved <= U64_MAX then Some(Quotient(price * moved, over)) else None
  }

  function ShareOf(run: Priced, moved: U64, over: U64): U64 {
    if Took(run) == 0 || Prorated(run.priced, moved, over).None? then 0 else Prorated(run.priced, moved, over).value
  }

  /** What the runs that make up the rate are charged, together. */
  function Shares(runs: seq<Priced>, moved: U64, over: U64): nat {
    if runs == [] then 0 else Shares(runs[..|runs| - 1], moved, over) + ShareOf(runs[|runs| - 1], moved, over)
  }

  /** A share is within one of its exact fraction, where it could be worked out at all. */
  lemma ShareIsWithinOne(run: Priced, moved: U64, over: U64)
    requires over > 0 && Took(run) > 0
    ensures ShareOf(run, moved, over) * over <= run.priced * moved
    ensures run.priced * moved <= U64_MAX ==> run.priced * moved < ShareOf(run, moved, over) * over + over
  {
    QuotientFallsShort(run.priced * moved, over);
  }

  lemma ProductOfSum(a: nat, b: nat, c: nat)
    ensures (a + b) * c == a * c + b * c
  {
  }

  /** Shares so far, so many of them, within what was priced; and one more, within one. */
  lemma {:induction false} OneMoreShare(shares: nat, counted: nat, priced: nat, share: nat, one: nat, moved: nat,
                                        over: nat, exact: bool)
    requires shares * over <= priced * moved && share * over <= one * moved
    requires exact ==> one * moved < (share + 1) * over
    requires exact && counted > 0 ==> priced * moved < (shares + counted) * over
    requires counted == 0 ==> shares == 0 && priced == 0
    ensures (shares + share) * over <= (priced + one) * moved
    ensures exact ==> (priced + one) * moved < (shares + share + counted + 1) * over
  {
    ProductOfSum(shares, share, over);
    ProductOfSum(priced, one, moved);
    ProductOfSum(shares + counted, share + 1, over);
    ProductOfSum(shares, counted, over);
    assert shares + share + counted + 1 == (shares + counted) + (share + 1);
  }

  lemma {:induction false} SharesAddUp(runs: seq<Priced>, moved: U64, over: U64)
    requires over > 0
    ensures Shares(runs, moved, over) * over <= PricedAt(runs) * moved
    ensures (forall run :: run in runs ==> run.priced * moved <= U64_MAX) && Counted(runs) > 0 ==>
              PricedAt(runs) * moved < (Shares(runs, moved, over) + Counted(runs)) * over
    ensures Counted(runs) == 0 ==> Shares(runs, moved, over) == 0 && PricedAt(runs) == 0
  {
    if runs != [] {
      var front, last := runs[..|runs| - 1], runs[|runs| - 1];
      SharesAddUp(front, moved, over);
      assert forall run :: run in front ==> run in runs;
      if Took(last) > 0 {
        ShareIsWithinOne(last, moved, over);
        OneMoreShare(Shares(front, moved, over), Counted(front), PricedAt(front), ShareOf(last, moved, over),
                     last.priced, moved, over, forall run :: run in runs ==> run.priced * moved <= U64_MAX);
      }
    }
  }

  /** Charging the runs of a ledger at the ledger's own rate hands out no more of the limit than moved,
      and, where every product fits in 64 bits, all of it but less than one hundredth of a percent a run. */
  lemma ProratingConserves(runs: seq<Priced>)
    requires 0 < PricedAt(runs) <= U64_MAX && Moved(runs) <= U64_MAX
    ensures Shares(runs, Moved(runs), PricedAt(runs)) <= Moved(runs)
    ensures (forall run :: run in runs ==> run.priced * Moved(runs) <= U64_MAX) && Counted(runs) > 0 ==>
              Moved(runs) < Shares(runs, Moved(runs), PricedAt(runs)) + Counted(runs)
  {
    var moved, over := Moved(runs), PricedAt(runs);
    SharesAddUp(runs, moved, over);
    NoMoreThan(Shares(runs, moved, over), moved, over);
    if (forall run :: run in runs ==> run.priced * moved <= U64_MAX) && Counted(runs) > 0 {
      FactorsFollow(moved, Shares(runs, moved, over) + Counted(runs), over);
    }
  }

  lemma NoMoreThan(shares: nat, moved: nat, over: nat)
    requires shares * over <= over * moved && over > 0
    ensures shares <= moved
  {
    if shares > moved {
      ProductRises(moved + 1, shares, over);
    }
  }

  // ---------------------------------------------------------------- what the ledger of a session moved

  /** The lines a session's looks put in the ledger: each stretch beside some run's price. */
  function LinesOf(over: seq<(U64, U64)>, prices: seq<U64>): seq<Priced>
    requires |prices| == |over|
  {
    seq(|over|, i requires 0 <= i < |over| => Priced(Some(over[i]), prices[i]))
  }

  lemma {:induction false} MovedFromTheFront(runs: seq<Priced>)
    requires runs != []
    ensures Moved(runs) == Took(runs[0]) + Moved(runs[1..])
  {
    if |runs| > 1 {
      var front := runs[..|runs| - 1];
      MovedFromTheFront(front);
      assert front[1..] == runs[1..][..|runs| - 2];
    }
  }

  lemma {:induction false} MovedIsTheClimb(over: seq<(U64, U64)>, prices: seq<U64>)
    requires |prices| == |over|
    ensures Moved(LinesOf(over, prices)) == Metering.Climbed(over)
  {
    if over != [] {
      MovedFromTheFront(LinesOf(over, prices));
      assert LinesOf(over, prices)[1..] == LinesOf(over[1..], prices[1..]);
      MovedIsTheClimb(over[1..], prices[1..]);
    }
  }

  /** No stretch of quota is charged twice: whatever looks a session took and in whatever order they
      arrived, what a ledger of its runs says the limit moved is no more than the session consumed. */
  lemma LedgerMovesNoMoreThanConsumed(s: Session, es: seq<Metering.Event>, prices: seq<U64>)
    requires Metering.Metered(s) && s.consumed.figure == 0
    requires |prices| == |Metering.Stretches(s, es)|
    ensures Metering.After(s, es).consumed.Share?
    ensures Clamp(Moved(LinesOf(Metering.Stretches(s, es), prices))) <= Metering.After(s, es).consumed.figure
  {
    MovedIsTheClimb(Metering.Stretches(s, es), prices);
    Metering.ChargedAtMostWhatWasConsumed(s, es);
  }
}
