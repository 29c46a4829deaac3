/** What the ledger's lines come to: what runs of each model cost in the unit a session declared, and how
    long they took. */
module Figuring {
  import opened Wrappers
  import opened Numbers
  import opened Spendings
  import opened Tasks
  import opened Sizings
  import Rates

  /** What one line of the ledger says, where it reads at all. */
  datatype Line = Line(
    model: Option<string>,
    outcome: TaskState,
    atCeiling: bool,
    spent: Option<Consumption>,
    over: Option<(U64, U64)>,
    startedAt: Option<U64>,
    endedAt: Option<U64>)

  /** What a line says in both units: its price, and how far the limit moved over it. */
  function PricedOn(line: Line): Option<Rates.Priced> {
    match line.spent
    case Some(spent) => Some(Rates.Priced(line.over, spent.cost))
    case None => None
  }

  /** One line's run, under the figure asked of it; nothing where it says neither what its task takes nor
      where it was stopped, or says nothing in that figure. */
  function RanOn(line: Line, figure: Line -> Option<U64>): Option<Ran> {
    if Sampled(line.outcome, line.atCeiling, line.model, 0).None? then None
    else
      match figure(line)
      case Some(spent) => Sampled(line.outcome, line.atCeiling, line.model, spent)
      case None => None
  }

  /** What each of some comes to, those that come to nothing left out. */
  function Each<S, T>(of: S -> Option<T>, these: seq<S>): seq<T> {
    if these == [] then []
    else
      Each(of, these[..|these| - 1])
      + match of(these[|these| - 1]) { case Some(it) => [it] case None => [] }
  }

  method Filtered<S, T>(of: S -> Option<T>, these: seq<S>) returns (r: seq<T>)
    ensures r == Each(of, these)
  {
    r := [];
    for i := 0 to |these|
      invariant r == Each(of, these[..i])
    {
      assert these[..i + 1][..i] == these[..i];
      var it := of(these[i]);
      if it.Some? {
        r := r + [it.value];
      }
    }
    assert these[..|these|] == these;
  }

  /** What a run cost in tokens. */
  function InTokensOf(line: Line): Option<U64> {
    match line.spent
    case Some(spent) => Some(spent.Tokens())
    case None => None
  }

  /** What a run cost of the limit, at a rate: nothing where the product is past 64 bits. */
  function InShareOf(line: Line, moved: U64, over: U64): Option<U64> {
    match line.spent
    case Some(spent) => Rates.Prorated(spent.cost, moved, over)
    case None => None
  }

  /** How long a run took, where it ended no earlier than it started. */
  function LastedOf(line: Line): Option<U64> {
    if line.startedAt.Some? && line.endedAt.Some? && line.startedAt.value <= line.endedAt.value
    then Some(line.endedAt.value - line.startedAt.value)
    else None
  }

  function Runs(lines: seq<Line>, figure: Line -> Option<U64>): seq<Ran> {
    Each((line: Line) => RanOn(line, figure), lines)
  }

  /** What the ledger says of each model in the unit declared. A share has nothing said of it until a line
      has said both how far the limit moved and what for. */
  function CostOf(rule: Rule, usage: Usage, lines: seq<Line>, model: Option<string>): Option<Sizing> {
    match usage
    case InTokens(_) => SizingFor(rule, Runs(lines, InTokensOf), model)
    case InShare(_) =>
      var moved, over := Clamp(Rates.Moved(Each(PricedOn, lines))), Clamp(Rates.PricedAt(Each(PricedOn, lines)));
      if moved == 0 || over == 0 then None
      else SizingFor(rule, Runs(lines, (line: Line) => InShareOf(line, moved, over)), model)
  }

  method Costs(rule: Rule, usage: Usage, lines: seq<Line>) returns (sizings: Sizings)
    ensures forall model :: sizings.Model(model) == CostOf(rule, usage, lines, model)
  {
    match usage
    case InTokens(_) =>
      var runs := Filtered((line: Line) => RanOn(line, InTokensOf), lines);
      sizings := Under(rule, runs);
    case InShare(_) =>
      var priced := Filtered(PricedOn, lines);
      var moved, over := Rates.MovedPerMillionth(priced);
      if moved == 0 || over == 0 {
        sizings := Sizings(map[], None);
        return;
      }
      var figure := (line: Line) => InShareOf(line, moved, over);
      var runs := Filtered((line: Line) => RanOn(line, figure), lines);
      sizings := Under(rule, runs);
  }

  method Lasting(rule: Rule, lines: seq<Line>) returns (sizings: Sizings)
    ensures forall model :: sizings.Model(model) == SizingFor(rule, Runs(lines, LastedOf), model)
  {
    var runs := Filtered((line: Line) => RanOn(line, LastedOf), lines);
    sizings := Under(rule, runs);
  }

  // ---------------------------------------------------------------- the order of the ledger

  function Without<S>(these: seq<S>, at: nat): seq<S>
    requires at < |these|
  {
    these[..at] + these[at + 1..]
  }

  /** How often one thing is what some come to. */
  function Often<S, T(==)>(of: S -> Option<T>, these: seq<S>, it: T): nat {
    multiset(Each(of, these))[it]
  }

  lemma {:induction false} OneMoreIn<S, T>(of: S -> Option<T>, front: seq<S>, last: S, it: T)
    ensures Often(of, front + [last], it) == Often(of, front, it) + if of(last) == Some(it) then 1 else 0
  {
    assert (front + [last])[..|front|] == front;
  }

  lemma {:induction false} OneOut<S, T>(of: S -> Option<T>, these: seq<S>, at: nat, it: T)
    requires at < |these|
    ensures Often(of, these, it) == Often(of, Without(these, at), it) + if of(these[at]) == Some(it) then 1 else 0
  {
    var front, last := these[..|these| - 1], these[|these| - 1];
    LeavingOneOut(these, at);
    OneMoreIn(of, front, last, it);
    if at < |these| - 1 {
      OneOut(of, front, at, it);
      OneMoreIn(of, Without(front, at), last, it);
    }
  }

  lemma LeavingOneOut<S>(these: seq<S>, at: nat)
    requires at < |these|
    ensures these == these[..|these| - 1] + [these[|these| - 1]]
    ensures Without(these, at)
         == if at == |these| - 1 then these[..|these| - 1] else Without(these[..|these| - 1], at) + [these[|these| - 1]]
  {
  }

  lemma OutOfTheBag<S>(these: seq<S>, at: nat)
    requires at < |these|
    ensures multiset(Without(these, at)) == multiset(these) - multiset{these[at]}
  {
    assert these == these[..at] + [these[at]] + these[at + 1..];
  }

  lemma {:induction false} AsOften<S, T>(of: S -> Option<T>, these: seq<S>, those: seq<S>, it: T)
    requires multiset(these) == multiset(those)
    ensures Often(of, these, it) == Often(of, those, it)
    decreases |these|
  {
    if these == [] {
      assert |multiset(those)| == |multiset(these)| == 0;
    } else {
      var at := |these| - 1;
      assert these[at] in multiset(those);
      var place :| 0 <= place < |those| && those[place] == these[at];
      OutOfTheBag(these, at);
      OutOfTheBag(those, place);
      AsOften(of, Without(these, at), Without(those, place), it);
      OneOut(of, these, at, it);
      OneOut(of, those, place, it);
    }
  }

  /** What some come to does not depend on the order they come in. */
  lemma {:induction false} OrderIsNothing<S, T>(of: S -> Option<T>, these: seq<S>, those: seq<S>)
    requires multiset(these) == multiset(those)
    ensures multiset(Each(of, these)) == multiset(Each(of, those))
  {
    var one, another := multiset(Each(of, these)), multiset(Each(of, those));
    forall it: T ensures one[it] == another[it] {
      AsOften(of, these, those, it);
    }
    SameBag(one, another);
  }

  lemma SameBag<T>(one: multiset<T>, another: multiset<T>)
    requires forall it: T :: one[it] == another[it]
    ensures one == another
  {
  }

  /** How far a bag of runs moved the limit, and what for, whatever order they come in. */
  lemma {:induction false} OneRunOut(runs: seq<Rates.Priced>, at: nat)
    requires at < |runs|
    ensures Rates.Moved(runs) == Rates.Moved(Without(runs, at)) + Rates.Took(runs[at])
    ensures Rates.PricedAt(runs)
            == Rates.PricedAt(Without(runs, at)) + if Rates.Took(runs[at]) > 0 then runs[at].priced else 0
  {
    var front := runs[..|runs| - 1];
    if at == |runs| - 1 {
      assert Without(runs, at) == front;
    } else {
      OneRunOut(front, at);
      assert Without(runs, at)[..|runs| - 2] == Without(front, at);
    }
  }

  lemma {:induction false} TheRateHasNoOrder(runs: seq<Rates.Priced>, others: seq<Rates.Priced>)
    requires multiset(runs) == multiset(others)
    ensures Rates.Moved(runs) == Rates.Moved(others) && Rates.PricedAt(runs) == Rates.PricedAt(others)
    decreases |runs|
  {
    if runs == [] {
      assert |multiset(others)| == |multiset(runs)| == 0;
    } else {
      var at := |runs| - 1;
      assert runs[at] in multiset(others);
      var place :| 0 <= place < |others| && others[place] == runs[at];
      OutOfTheBag(runs, at);
      OutOfTheBag(others, place);
      TheRateHasNoOrder(Without(runs, at), Without(others, place));
      OneRunOut(runs, at);
      OneRunOut(others, place);
    }
  }

  /** Two ledgers of the same lines, in whatever order runs ended, say the same of every model, in either
      unit, rate and all. */
  lemma TheOrderRunsEndedInDoesNotMatter(rule: Rule, usage: Usage, lines: seq<Line>, others: seq<Line>,
                                         model: Option<string>)
    requires multiset(lines) == multiset(others)
    ensures CostOf(rule, usage, lines, model) == CostOf(rule, usage, others, model)
    ensures SizingFor(rule, Runs(lines, LastedOf), model) == SizingFor(rule, Runs(others, LastedOf), model)
  {
    SameRuns(rule, lines, others, LastedOf, model);
    match usage
    case InTokens(_) => SameRuns(rule, lines, others, InTokensOf, model);
    case InShare(_) =>
      OrderIsNothing(PricedOn, lines, others);
      TheRateHasNoOrder(Each(PricedOn, lines), Each(PricedOn, others));
      var moved, over := Clamp(Rates.Moved(Each(PricedOn, lines))), Clamp(Rates.PricedAt(Each(PricedOn, lines)));
      SameRuns(rule, lines, others, (line: Line) => InShareOf(line, moved, over), model);
  }

  lemma {:induction false} SameRuns(rule: Rule, lines: seq<Line>, others: seq<Line>, figure: Line -> Option<U64>,
                                    model: Option<string>)
    requires multiset(lines) == multiset(others)
    ensures SizingFor(rule, Runs(lines, figure), model) == SizingFor(rule, Runs(others, figure), model)
  {
    OrderIsNothing((line: Line) => RanOn(line, figure), lines, others);
    LedgerOrderDoesNotMatter(rule, Runs(lines, figure), Runs(others, figure), model);
  }
}
