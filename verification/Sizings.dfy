/** What runs have cost, worked out from the runs there have been: the one figure about the future. */
module Sizings {
  import opened Wrappers
  import opened Numbers
  import opened Spendings
  import opened Tasks
  import opened Quantiles

  // ---------------------------------------------------------------- what runs of a model come to

  datatype Sizing = Sizing(estimate: U64, fallback: U64, over: nat, widen: U64) {

    /** The estimate, widened by how few runs it came from. */
    function Allowing(): U64 {
      SatAdd(estimate, SatMul(estimate, widen) / Max(over, 1))
    }
  }

  datatype Ran = Ran(model: Option<string>, spent: U64, stopped: bool)

  datatype Rule = Rule(busy: U64, alone: U64, widen: U64, lift: U64)

  const SHIPPED := Rule(75, 25, 1, 2)

  /** What a ledger line says about its task: what it takes, where it was stopped, or neither. */
  function Sampled(outcome: TaskState, atCeiling: bool, model: Option<string>, spent: U64): Option<Ran> {
    if outcome.Completed? then Some(Ran(model, spent, false))
    else if outcome.Interrupted? && atCeiling then Some(Ran(model, spent, true))
    else None
  }

  datatype Sizings = Sizings(byModel: map<string, Sizing>, unnamed: Option<Sizing>) {

    function Model(model: Option<string>): Option<Sizing> {
      if model.None? then unnamed
      else if model.value in byModel then Some(byModel[model.value])
      else None
    }
  }

  /** What finished runs of a model spent, oldest first. */
  function Costs(runs: seq<Ran>, model: Option<string>): seq<U64> {
    if runs == [] then []
    else
      var last := runs[|runs| - 1];
      Costs(runs[..|runs| - 1], model) + if last.model == model && !last.stopped then [last.spent] else []
  }

  /** The most a run of a model had spent when it was stopped. */
  function Floor(runs: seq<Ran>, model: Option<string>): U64 {
    if runs == [] then 0
    else
      var last, before := runs[|runs| - 1], Floor(runs[..|runs| - 1], model);
      if last.model == model && last.stopped then Max(before, last.spent) else before
  }

  lemma OneMore(runs: seq<Ran>, run: Ran, model: Option<string>)
    ensures Costs(runs + [run], model)
         == if run.model == model && !run.stopped then Costs(runs, model) + [run.spent] else Costs(runs, model)
    ensures Floor(runs + [run], model)
         == if run.model == model && run.stopped then Max(Floor(runs, model), run.spent) else Floor(runs, model)
  {
    assert (runs + [run])[..|runs|] == runs;
  }

  function SizingFor(rule: Rule, runs: seq<Ran>, model: Option<string>): Option<Sizing> {
    var costs := Sorted(Costs(runs, model));
    if costs == [] then None
    else Some(Sizing(Max(At(costs, rule.busy), SatMul(Floor(runs, model), rule.lift)), At(costs, rule.alone),
                     |costs|, rule.widen))
  }

  /** What each model's runs say: what the finished ones spent, and the most one was stopped at. */
  type Apart = map<Option<string>, (seq<U64>, U64)>

  predicate SaysWhatTheyCost(apart: Apart, runs: seq<Ran>, model: Option<string>) {
    if model in apart then apart[model].0 == Costs(runs, model) && apart[model].1 == Floor(runs, model)
    else Costs(runs, model) == [] && Floor(runs, model) == 0
  }

  /** The first pass: every run to its own model. */
  method SetApart(runs: seq<Ran>) returns (apart: Apart)
    ensures forall model :: SaysWhatTheyCost(apart, runs, model)
  {
    apart := map[];
    for i := 0 to |runs|
      invariant forall model :: SaysWhatTheyCost(apart, runs[..i], model)
    {
      var run := runs[i];
      ghost var was := apart;
      var (finished, floor) := if run.model in apart then apart[run.model] else ([], 0);
      apart := apart[run.model :=
        if run.stopped then (finished, Max(floor, run.spent)) else (finished + [run.spent], floor)];
      ghost var seen := runs[..i] + [run];
      assert runs[..i + 1] == seen;
      forall model ensures SaysWhatTheyCost(apart, seen, model) {
        assert SaysWhatTheyCost(was, runs[..i], model);
        OneMore(runs[..i], run, model);
      }
    }
    assert runs[..|runs|] == runs;
  }

  function With(sizings: Sizings, model: Option<string>, sizing: Sizing): (r: Sizings)
    ensures forall m :: r.Model(m) == if m == model then Some(sizing) else sizings.Model(m)
  {
    match model
    case Some(name) => sizings.(byModel := sizings.byModel[name := sizing])
    case None => sizings.(unnamed := Some(sizing))
  }

  /** What the second pass has worked out for a model, with `left` still to go. */
  ghost function FiguredFor(rule: Rule, apart: Apart, left: set<Option<string>>,
                            model: Option<string>): Option<Sizing> {
    if model !in apart || model in left || apart[model].0 == [] then None
    else
      var costs := Sorted(apart[model].0);
      Some(Sizing(Max(At(costs, rule.busy), SatMul(apart[model].1, rule.lift)), At(costs, rule.alone), |costs|,
                  rule.widen))
  }

  /** The second: a figure for every model something finished with. The models are kept apart. */
  method Under(rule: Rule, runs: seq<Ran>) returns (sizings: Sizings)
    ensures forall model :: sizings.Model(model) == SizingFor(rule, runs, model)
  {
    var apart := SetApart(runs);
    sizings := Sizings(map[], None);
    var left := apart.Keys;
    while left != {}
      invariant left <= apart.Keys
      invariant forall model :: sizings.Model(model) == FiguredFor(rule, apart, left, model)
    {
      var model :| model in left;
      left := left - {model};
      var costs, floor := Sorted(apart[model].0), apart[model].1;
      if costs != [] {
        sizings := With(sizings, model, Sizing(Max(At(costs, rule.busy), SatMul(floor, rule.lift)),
                                               At(costs, rule.alone), |costs|, rule.widen));
      }
    }
    forall model ensures sizings.Model(model) == SizingFor(rule, runs, model) {
      assert SaysWhatTheyCost(apart, runs, model);
      assert sizings.Model(model) == FiguredFor(rule, apart, {}, model);
    }
  }

  // ---------------------------------------------------------------- what a sizing may be relied on for

  lemma OneMoreCounted(runs: seq<Ran>, run: Ran, model: Option<string>, spent: U64)
    ensures multiset(Costs(runs + [run], model))[spent]
         == multiset(Costs(runs, model))[spent] + if run == Ran(model, spent, false) then 1 else 0
  {
    OneMore(runs, run, model);
  }

  lemma {:induction false} CostsAreCounted(runs: seq<Ran>, model: Option<string>, spent: U64)
    ensures multiset(Costs(runs, model))[spent] == multiset(runs)[Ran(model, spent, false)]
  {
    if runs != [] {
      var front, last := runs[..|runs| - 1], runs[|runs| - 1];
      assert runs == front + [last];
      CostsAreCounted(front, model, spent);
      OneMoreCounted(front, last, model, spent);
    }
  }

  lemma {:induction false} FloorIsTheMost(runs: seq<Ran>, model: Option<string>)
    ensures forall run :: run in runs && run.model == model && run.stopped ==> run.spent <= Floor(runs, model)
    ensures Floor(runs, model) > 0 ==> Ran(model, Floor(runs, model), true) in runs
  {
    if runs != [] {
      FloorIsTheMost(runs[..|runs| - 1], model);
      assert runs == runs[..|runs| - 1] + [runs[|runs| - 1]];
    }
  }

  lemma SameCosts(runs: seq<Ran>, others: seq<Ran>, model: Option<string>)
    requires multiset(runs) == multiset(others)
    ensures Sorted(Costs(runs, model)) == Sorted(Costs(others, model))
  {
    forall spent: U64
      ensures multiset(Costs(runs, model))[spent] == multiset(Costs(others, model))[spent]
    {
      CostsAreCounted(runs, model, spent);
      CostsAreCounted(others, model, spent);
    }
    assert multiset(Costs(runs, model)) == multiset(Costs(others, model));
    OneSortedForm(Sorted(Costs(runs, model)), Sorted(Costs(others, model)));
  }

  lemma FloorRises(runs: seq<Ran>, others: seq<Ran>, model: Option<string>)
    requires multiset(runs) <= multiset(others)
    ensures Floor(runs, model) <= Floor(others, model)
  {
    FloorIsTheMost(runs, model);
    FloorIsTheMost(others, model);
    if Floor(runs, model) > 0 {
      assert Ran(model, Floor(runs, model), true) in multiset(others);
    }
  }

  /** The order a ledger was written in makes no difference to what it says. */
  lemma LedgerOrderDoesNotMatter(rule: Rule, runs: seq<Ran>, others: seq<Ran>, model: Option<string>)
    requires multiset(runs) == multiset(others)
    ensures SizingFor(rule, runs, model) == SizingFor(rule, others, model)
  {
    SameCosts(runs, others, model);
    FloorRises(runs, others, model);
    FloorRises(others, runs, model);
  }

  /** A run that was stopped lifts the estimate of its model or leaves it, and touches nothing else. */
  lemma AStoppedRunOnlyLifts(rule: Rule, runs: seq<Ran>, stopped: Ran, model: Option<string>)
    requires stopped.stopped
    ensures SizingFor(rule, runs + [stopped], model).Some? == SizingFor(rule, runs, model).Some?
    ensures SizingFor(rule, runs, model).Some? ==>
              var before, after := SizingFor(rule, runs, model).value, SizingFor(rule, runs + [stopped], model).value;
              && after.estimate >= before.estimate
              && (stopped.model == model ==> after.estimate >= SatMul(stopped.spent, rule.lift))
              && after.fallback == before.fallback && after.over == before.over && after.widen == before.widen
  {
    OneMore(runs, stopped, model);
    LiftRises(Floor(runs, model), Floor(runs + [stopped], model), rule.lift);
    if stopped.model == model {
      LiftRises(stopped.spent, Floor(runs + [stopped], model), rule.lift);
    }
  }

  lemma LiftRises(floor: U64, higher: U64, lift: U64)
    requires floor <= higher
    ensures SatMul(floor, lift) <= SatMul(higher, lift)
  {
    ProductRises(floor, higher, lift);
  }

  /** What is set aside while others run is never under what is set aside alone. */
  lemma BusyIsAtLeastAlone(rule: Rule, runs: seq<Ran>, model: Option<string>)
    requires rule.busy >= rule.alone && SizingFor(rule, runs, model).Some?
    requires Narrow(Sorted(Costs(runs, model)))
    ensures SizingFor(rule, runs, model).value.estimate >= SizingFor(rule, runs, model).value.fallback
  {
    AtRisesWithTheQuantile(Sorted(Costs(runs, model)), rule.alone, rule.busy);
  }

  /** Widening only adds, and adds at most the estimate once for every unit of `widen`. */
  lemma WideningIsBounded(sizing: Sizing)
    ensures sizing.estimate <= sizing.Allowing() <= sizing.estimate * (1 + sizing.widen)
  {
    QuotientFallsShort(SatMul(sizing.estimate, sizing.widen), Max(sizing.over, 1));
    assert sizing.estimate * (1 + sizing.widen) == sizing.estimate + sizing.estimate * sizing.widen;
  }
}
