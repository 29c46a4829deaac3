/** The runs there have been, as a run of the daemon writes them down: every run recorded leaves a line in the
    ledger, and every decision works its figures out from all of it. The steps of the daemon take whatever
    figures they are given; this says which runs of it are given true ones. */
module Precedents {
  import opened Wrappers
  import opened Numbers
  import opened Spendings
  import opened Tasks
  import opened Graph
  import opened Closure
  import opened SessionValues
  import opened Sizings
  import opened Decisions
  import opened Settling
  import opened Protocol
  import Quantiles
  import Figuring
  import opened Commitments

  type Line = Figuring.Line

  /** The line a run leaves once it is recorded, where its session is declared in tokens and nobody read the
      limit for it. */
  function LineOf(t: Task, now: U64): Line {
    Figuring.Line(t.model, t.state, t.reason == Some(AT_CEILING),
                  if t.consumed.Spent? then Some(t.consumed.spent) else None, None,
                  Some(if t.startedAt.Some? then t.startedAt.value else now),
                  Some(if t.endedAt.Some? then t.endedAt.value else now))
  }

  /** A task that was removed while it ran leaves none. */
  function LinesAfter(w: World, s: Step, lines: seq<Line>): seq<Line>
    requires Enabled(w, s)
  {
    if s.Ends? || s.TurnsAway? then
      var us, id := Next(w, s).backlog.tasks, w.threads[s.i].at.task;
      if Has(us, id) then lines + [LineOf(us[IndexOf(us, id)], s.now)] else lines
    else lines
  }

  /** What the ledger says of every model, by the policy's own rule. */
  ghost predicate ToldBy(before: Figures, rule: Rule, usage: Usage, lines: seq<Line>) {
    forall model ::
      && before.cost.Model(model) == Figuring.CostOf(rule, usage, lines, model)
      && before.lasting.Model(model) == SizingFor(rule, Figuring.Runs(lines, Figuring.LastedOf), model)
  }

  ghost predicate DecidesByTheLedger(w: World, s: Step, lines: seq<Line>)
    requires Enabled(w, s)
  {
    s.Decides? ==> ToldBy(s.before, w.policy.sizing, w.threads[s.i].at.held.budget.usage, lines)
  }

  /** Every decision is made by one ledger, that only grows. */
  ghost predicate KeepsOneLedger(w: World, steps: seq<Step>, lines: seq<Line>)
    requires CanRun(w, steps)
    decreases steps
  {
    steps == [] || (DecidesByTheLedger(w, steps[0], lines)
                    && KeepsOneLedger(Next(w, steps[0]), steps[1..], LinesAfter(w, steps[0], lines)))
  }

  function LedgerAfter(w: World, steps: seq<Step>, lines: seq<Line>): seq<Line>
    requires CanRun(w, steps)
    decreases steps
  {
    if steps == [] then lines else LedgerAfter(Next(w, steps[0]), steps[1..], LinesAfter(w, steps[0], lines))
  }

  // ---------------------------------------------------------------- what a short ledger says

  const NOTHING_KNOWN := Figures(Sizings(map[], None), Sizings(map[], None))

  lemma {:induction false} AnEmptyLedgerSaysNothing(rule: Rule, usage: Usage)
    ensures ToldBy(NOTHING_KNOWN, rule, usage, [])
  {
    assert forall figure, model :: SizingFor(rule, Figuring.Runs([], figure), model) == None;
  }

  /** A line of a run that neither finished nor was held to its ceiling. */
  predicate SaysNothing(line: Line) {
    !line.outcome.Completed? && !(line.outcome.Interrupted? && line.atCeiling)
  }

  lemma {:induction false} OneMoreLine(lines: seq<Line>, line: Line, figure: Line -> Option<U64>)
    ensures Figuring.Runs(lines + [line], figure)
         == Figuring.Runs(lines, figure)
            + match Figuring.RanOn(line, figure) { case Some(it) => [it] case None => [] }
  {
    assert (lines + [line])[..|lines|] == lines;
  }

  /** It leaves every figure of a budget in tokens as it was. */
  lemma {:induction false} AFailureTeachesNothing(before: Figures, rule: Rule, usage: Usage, lines: seq<Line>,
                                                  line: Line)
    requires ToldBy(before, rule, usage, lines) && usage.InTokens? && SaysNothing(line)
    ensures ToldBy(before, rule, usage, lines + [line])
  {
    OneMoreLine(lines, line, Figuring.InTokensOf);
    OneMoreLine(lines, line, Figuring.LastedOf);
    assert Figuring.Runs(lines, Figuring.InTokensOf) + [] == Figuring.Runs(lines, Figuring.InTokensOf);
    assert Figuring.Runs(lines, Figuring.LastedOf) + [] == Figuring.Runs(lines, Figuring.LastedOf);
  }

  /** What is known once one run of no particular model finished. */
  function OneRun(rule: Rule, cost: U64, lasted: U64): Figures {
    Figures(Sizings(map[], Some(Sizing(cost, cost, 1, rule.widen))),
            Sizings(map[], Some(Sizing(lasted, lasted, 1, rule.widen))))
  }

  lemma {:induction false} OneFinishedRun(rule: Rule, ran: Ran, model: Option<string>)
    requires !ran.stopped
    ensures SizingFor(rule, [ran], model)
         == if ran.model == model then Some(Sizing(ran.spent, ran.spent, 1, rule.widen)) else None
  {
    assert [] + [ran] == [ran];
    OneMore([], ran, model);
    if ran.model == model {
      var sorted := Quantiles.Sorted([ran.spent]);
      assert sorted[0] in multiset([ran.spent]);
      assert Costs([ran], model) == [ran.spent] && Floor([ran], model) == 0;
    }
  }

  lemma {:induction false} OneLineRan(line: Line, figure: Line -> Option<U64>, spent: U64)
    requires line.outcome.Completed? && line.model == None && figure(line) == Some(spent)
    ensures Figuring.Runs([line], figure) == [Ran(None, spent, false)]
  {
    var none: seq<Line> := [];
    assert Figuring.RanOn(line, figure) == Some(Ran(None, spent, false));
    assert Figuring.Runs(none, figure) == [];
    OneMoreLine(none, line, figure);
    assert none + [line] == [line];
  }

  lemma {:induction false} AFinishedRunTeaches(rule: Rule, usage: Usage, line: Line, cost: U64, lasted: U64)
    requires usage.InTokens? && line.outcome.Completed? && line.model == None
    requires Figuring.InTokensOf(line) == Some(cost) && Figuring.LastedOf(line) == Some(lasted)
    ensures ToldBy(OneRun(rule, cost, lasted), rule, usage, [line])
  {
    OneLineRan(line, Figuring.InTokensOf, cost);
    OneLineRan(line, Figuring.LastedOf, lasted);
    forall model
      ensures SizingFor(rule, [Ran(None, cost, false)], model) == OneRun(rule, cost, lasted).cost.Model(model)
      ensures SizingFor(rule, [Ran(None, lasted, false)], model) == OneRun(rule, cost, lasted).lasting.Model(model)
    {
      OneFinishedRun(rule, Ran(None, cost, false), model);
      OneFinishedRun(rule, Ran(None, lasted, false), model);
    }
  }

  /** What a session is ready to put into a run of it, with others going. */
  function EachRun(rule: Rule, cost: U64): U64 {
    Max(Sizing(cost, cost, 1, rule.widen).Allowing(), 1)
  }
}
