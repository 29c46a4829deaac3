/** What a run is given to work from, in six parts, and the text the parts travel as. */
module Specs {
  import opened Wrappers
  import opened Splitting

  // ---------------------------------------------------------------- trimming

  /** What is taken off the ends of a text: white space, what opens a line in a document, or what sets a
      word apart in one. */
  datatype Marks = Space | Opening | Decoration {
    predicate Holds(c: char) {
      match this
      case Space =>
        var n := c as int;
        9 <= n <= 13 || n == 0x20 || n == 0x85 || n == 0xA0 || n == 0x1680 || 0x2000 <= n <= 0x200A
        || n == 0x2028 || n == 0x2029 || n == 0x202F || n == 0x205F || n == 0x3000
      case Opening => c == '#' || c == '-' || c == '*' || c == '>' || c == '+' || c == ' ' || c == '\t' || c == '.'
      case Decoration => c == '*' || c == '_' || c == '`'
    }
  }

  function TrimStart(text: string, marks: Marks): (trimmed: string)
    ensures |trimmed| <= |text| && (|trimmed| == |text| ==> trimmed == text)
    ensures trimmed == "" || !marks.Holds(trimmed[0])
  {
    if text != "" && marks.Holds(text[0]) then TrimStart(text[1..], marks) else text
  }

  function TrimEnd(text: string, marks: Marks): (trimmed: string)
    ensures |trimmed| <= |text| && (|trimmed| == |text| ==> trimmed == text)
    ensures trimmed == text[..|trimmed|]
    ensures trimmed == "" || !marks.Holds(trimmed[|trimmed| - 1])
  {
    if text != "" && marks.Holds(text[|text| - 1]) then TrimEnd(text[..|text| - 1], marks) else text
  }

  function Trim(text: string, marks: Marks): (trimmed: string)
    ensures |trimmed| <= |text| && (|trimmed| == |text| ==> trimmed == text)
    ensures trimmed == "" || (!marks.Holds(trimmed[0]) && !marks.Holds(trimmed[|trimmed| - 1]))
  {
    TrimEnd(TrimStart(text, marks), marks)
  }

  /** Nothing to take off either end. */
  predicate Bare(text: string, marks: Marks) {
    text == "" || (!marks.Holds(text[0]) && !marks.Holds(text[|text| - 1]))
  }

  lemma BareStays(text: string, marks: Marks)
    requires Bare(text, marks)
    ensures Trim(text, marks) == text
  {
  }

  // ---------------------------------------------------------------- parts

  datatype Settled = Given | Inferred | Open

  datatype Part = Part(said: Option<string>, settled: Settled, drawnFrom: Option<string>, others: seq<string>,
                       asks: Option<string>) {

    /** What it says once trimmed, or nothing. */
    function Says(): string {
      match said
      case Some(text) => Trim(text, Space)
      case None => ""
    }

    predicate IsOpen() {
      settled.Open? || Says() == ""
    }
  }

  const UNSETTLED := Part(None, Open, None, [], None)

  function GivenAs(said: string): Part {
    Part(Some(said), Given, None, [], None)
  }

  datatype Named = Goal | Place | DoneWhen | OnFailure | Why | Scope {

    function Label(): string {
      match this
      case Goal => "goal"
      case Place => "place"
      case DoneWhen => "done when"
      case OnFailure => "on failure"
      case Why => "why"
      case Scope => "scope"
    }

    function Written(): string {
      match this
      case OnFailure => "on_failure"
      case DoneWhen => "done_when"
      case _ => Label()
    }
  }

  const ALL := [Goal, Place, DoneWhen, OnFailure, Why, Scope]

  datatype Spec = Spec(goal: Part, place: Part, doneWhen: Part, onFailure: Part, why: Part, scope: Part) {

    function PartOf(named: Named): Part {
      match named
      case Goal => goal
      case Place => place
      case DoneWhen => doneWhen
      case OnFailure => onFailure
      case Why => why
      case Scope => scope
    }

    function With(named: Named, part: Part): Spec {
      match named
      case Goal => this.(goal := part)
      case Place => this.(place := part)
      case DoneWhen => this.(doneWhen := part)
      case OnFailure => this.(onFailure := part)
      case Why => this.(why := part)
      case Scope => this.(scope := part)
    }

    /** How much all of it says. */
    function Size(): nat {
      Length(goal) + Length(place) + Length(doneWhen) + Length(onFailure) + Length(why) + Length(scope)
    }
  }

  const OPEN := Spec(UNSETTLED, UNSETTLED, UNSETTLED, UNSETTLED, UNSETTLED, UNSETTLED)

  function Length(part: Part): nat {
    if part.said.Some? then |part.said.value| else 0
  }

  lemma WritingInto(spec: Spec, named: Named, part: Part, other: Named)
    ensures spec.With(named, part).PartOf(other) == if other == named then part else spec.PartOf(other)
    ensures spec.With(named, part).Size() == spec.Size() - Length(spec.PartOf(named)) + Length(part)
  {
  }

  // ---------------------------------------------------------------- reading

  function Lower(c: char): char {
    if 'A' <= c <= 'Z' then 'a' + (c - 'A') else c
  }

  function Lowered(text: string): string {
    seq(|text|, i requires 0 <= i < |text| => Lower(text[i]))
  }

  /** The part called this, in either of the ways one is. */
  function Called(name: string): Option<Named> {
    if name == Goal.Label() || name == Goal.Written() then Some(Goal)
    else if name == Place.Label() || name == Place.Written() then Some(Place)
    else if name == DoneWhen.Label() || name == DoneWhen.Written() then Some(DoneWhen)
    else if name == OnFailure.Label() || name == OnFailure.Written() then Some(OnFailure)
    else if name == Why.Label() || name == Why.Written() then Some(Why)
    else if name == Scope.Label() || name == Scope.Written() then Some(Scope)
    else None
  }

  /** Which part a line names, and what it says about it. */
  function NamedOn(line: string): Option<(Named, string)> {
    var bare := TrimStart(TrimStart(TrimStart(line, Space), Opening), Space);
    var colon := FirstFrom(bare, ':', 0);
    var name := Lowered(Trim(Trim(Trim(bare[..colon], Space), Decoration), Space));
    match Called(name)
    case Some(named) => Some((named, if colon < |bare| then bare[colon + 1..] else ""))
    case None => None
  }

  /** What a line gives its part, the marks that set it apart taken off. */
  function ValueOn(said: string): (value: string)
    ensures |value| <= |said|
  {
    Trim(Trim(Trim(said, Space), Decoration), Space)
  }

  /** How far the reading of a text is. */
  datatype Reading = Reading(spec: Spec, namedOne: bool, last: Option<Named>)

  function WithMore(said: string, line: string): string {
    if said == "" then line else said + "\n" + line
  }

  function ReadLine(so: Reading, line: string): Reading {
    match NamedOn(line)
    case Some((named, said)) => Reading(so.spec.With(named, GivenAs(ValueOn(said))), true, Some(named))
    case None =>
      if so.last.None? then so
      else if Trim(TrimEnd(line, Space), Space) == "" then so.(last := None)
      else
        var part := so.spec.PartOf(so.last.value);
        if part.said.None? then so
        else so.(spec := so.spec.With(so.last.value,
                                      part.(said := Some(WithMore(part.said.value, TrimEnd(line, Space))))))
  }

  /** Lines read one after another, each by a step from how far the reading was. */
  function ReadLines(step: (Reading, string) -> Reading, so: Reading, lines: seq<string>): Reading {
    if lines == [] then so else step(ReadLines(step, so, lines[..|lines| - 1]), lines[|lines| - 1])
  }

  function WithoutReturn(line: string): string {
    if line != "" && line[|line| - 1] == '\r' then line[..|line| - 1] else line
  }

  /** `str::lines`: what follows the last newline is a line only where there is something, and a carriage
      return goes with its newline. */
  function LinesOf(text: string): seq<string> {
    var pieces := Pieces(text, '\n');
    var n := |pieces| - 1;
    seq(n, i requires 0 <= i < n => WithoutReturn(pieces[i])) + if pieces[n] == "" then [] else [pieces[n]]
  }

  const UNREAD := Reading(OPEN, false, None)

  function ReadSpec(text: string): Option<Spec> {
    var so := ReadLines(ReadLine, UNREAD, LinesOf(text));
    if so.namedOne then Some(so.spec) else None
  }

  method Read(text: string) returns (r: Option<Spec>)
    ensures r == ReadSpec(text)
  {
    var spec, namedOne, last := OPEN, false, None;
    var lines := LinesOf(text);
    for i := 0 to |lines|
      invariant Reading(spec, namedOne, last) == ReadLines(ReadLine, UNREAD, lines[..i])
    {
      assert lines[..i + 1][..i] == lines[..i];
      var said := NamedOn(lines[i]);
      match said
      case Some((named, value)) =>
        spec := spec.With(named, GivenAs(ValueOn(value)));
        namedOne, last := true, Some(named);
      case None =>
        if last.None? {
          continue;
        }
        var line := TrimEnd(lines[i], Space);
        if Trim(line, Space) == "" {
          last := None;
          continue;
        }
        var part := spec.PartOf(last.value);
        if part.said.None? {
          continue;
        }
        spec := spec.With(last.value, part.(said := Some(WithMore(part.said.value, line))));
    }
    assert lines[..|lines|] == lines;
    r := if namedOne then Some(spec) else None;
  }

  // ---------------------------------------------------------------- writing

  /** One part as it is written, with the newline that ends it, and nothing where it says nothing. */
  function WrittenPart(named: Named, said: string): string {
    if said == "" then "" else named.Label() + ": " + said + "\n"
  }

  /** The first so many parts, in an order, each as something writes it. */
  function WrittenAmong(write: (Named, string) -> string, order: seq<Named>, says: Named -> string, n: nat): string
    requires n <= |order|
  {
    if n == 0 then "" else WrittenAmong(write, order, says, n - 1) + write(order[n - 1], says(order[n - 1]))
  }

  function SaidIn(spec: Spec): Named -> string {
    (named: Named) => spec.PartOf(named).Says()
  }

  function WrittenSpec(spec: Spec): string {
    TrimEnd(WrittenAmong(WrittenPart, ALL, SaidIn(spec), |ALL|), Space)
  }

  method Write(spec: Spec) returns (written: string)
    ensures written == WrittenSpec(spec)
  {
    written := "";
    for i := 0 to |ALL|
      invariant written == WrittenAmong(WrittenPart, ALL, SaidIn(spec), i)
    {
      var part := spec.PartOf(ALL[i]);
      if part.Says() == "" {
        continue;
      }
      written := written + (ALL[i].Label() + ": " + part.Says() + "\n");
    }
    written := TrimEnd(written, Space);
  }
}
