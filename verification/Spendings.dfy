/** What runs consume, what is known about it, and the unit a session is measured in. */
module Spendings {
  import opened Wrappers
  import opened Numbers

  datatype Consumption = Consumption(input: U64, output: U64, cacheWritten: U64, cacheRead: U64, cost: U64) {

    /** Every kind of token added together, never past the top of the counter. */
    function Tokens(): U64 {
      SatAdd(SatAdd(SatAdd(input, output), cacheWritten), cacheRead)
    }

    function Add(other: Consumption): Consumption {
      Consumption(SatAdd(input, other.input),
                  SatAdd(output, other.output),
                  SatAdd(cacheWritten, other.cacheWritten),
                  SatAdd(cacheRead, other.cacheRead),
                  SatAdd(cost, other.cost))
    }

    /** What the four token counts come to when no counter has a top. */
    function Exactly(): nat {
      input + output + cacheWritten + cacheRead
    }
  }

  const NOTHING := Consumption(0, 0, 0, 0, 0)

  /** The first `n` added up from the front, as the fold does it. */
  function Total(counted: seq<Consumption>): Consumption {
    if counted == [] then NOTHING else Total(counted[..|counted| - 1]).Add(counted[|counted| - 1])
  }

  function ExactTotal(counted: seq<Consumption>): nat {
    if counted == [] then 0
    else ExactTotal(counted[..|counted| - 1]) + counted[|counted| - 1].Exactly()
  }

  /** Adding with saturation in every kind and then across the kinds loses nothing a single clamp
      at the end would have kept: the figure a budget is measured against is the true sum, or the
      top of the counter where the true sum is past it. */
  lemma {:induction false} TotalIsTheClampedSum(counted: seq<Consumption>)
    ensures Total(counted).Tokens() == Clamp(ExactTotal(counted))
  {
    if counted != [] {
      var front, last := counted[..|counted| - 1], counted[|counted| - 1];
      TotalIsTheClampedSum(front);
      AddIsTheClampedSum(Total(front), ExactTotal(front), last);
    }
  }

  lemma AddIsTheClampedSum(held: Consumption, exact: nat, more: Consumption)
    requires held.Tokens() == Clamp(exact)
    ensures held.Add(more).Tokens() == Clamp(exact + more.Exactly())
  {
  }

  datatype Observation =
    | NotYet
    | Unreadable(why: string)
    | Spent(spent: Consumption)

  datatype Usage = InShare(percent: U32) | InTokens(count: U64)

  const HUNDREDTHS := 100

  datatype Budget = Budget(usage: Usage, time: U64) {

    /** What was declared, in the unit it was declared in: a share in hundredths of a percent. */
    function Declared(): U64 {
      match usage
      case InShare(percent) => percent * HUNDREDTHS
      case InTokens(count) => count
    }
  }

  datatype Spending = Share(figure: U64) | Tokens(figure: U64) {

    /** The figure, where it is in the unit that was declared. */
    function Against(usage: Usage): Option<U64> {
      match (usage, this)
      case (InShare(_), Share(figure)) => Some(figure)
      case (InTokens(_), Tokens(figure)) => Some(figure)
      case _ => None
    }

    /** Whether this figure was read before the one beside it. */
    predicate Behind(other: Spending) {
      match (this, other)
      case (Share(one), Share(another)) => one < another
      case (Tokens(one), Tokens(another)) => one < another
      case _ => false
    }

    predicate InTheUnitOf(usage: Usage) {
      Share? <==> usage.InShare?
    }
  }
}
