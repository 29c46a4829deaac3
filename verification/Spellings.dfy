/** How the values of a session and of a task are spelled, and what reads as one. What is printed and what
    a store holds are the same words. */
module Spellings {
  import opened Wrappers
  import opened Numbers
  import opened Spendings
  import opened Tasks
  import opened SessionValues
  import opened Splitting
  import opened Decimals

  // ---------------------------------------------------------------- names

  function TaskStateText(state: TaskState): string {
    match state
    case Pending => "Pending"
    case Running => "Running"
    case Completed => "Completed"
    case Interrupted => "Interrupted"
    case Error => "Error"
  }

  function ReadTaskState(text: string): Option<TaskState> {
    match text
    case "Pending" => Some(TaskState.Pending)
    case "Running" => Some(TaskState.Running)
    case "Completed" => Some(TaskState.Completed)
    case "Interrupted" => Some(TaskState.Interrupted)
    case "Error" => Some(TaskState.Error)
    case _ => None
  }

  function DispositionText(disposition: Disposition): string {
    match disposition
    case Applied => "applied"
    case Discarded => "discarded"
  }

  function ReadDisposition(text: string): Option<Disposition> {
    match text
    case "applied" => Some(Applied)
    case "discarded" => Some(Discarded)
    case _ => None
  }

  function SessionStateText(state: SessionState): string {
    match state
    case Running => "running"
    case Stopped => "stopped"
  }

  function ReadSessionState(text: string): Option<SessionState> {
    match text
    case "running" => Some(SessionState.Running)
    case "stopped" => Some(SessionState.Stopped)
    case _ => None
  }

  function ReadReason(text: string): Option<StoppedReason> {
    match text
    case "budget hardlock" => Some(BudgetHardlock)
    case "vendor limit" => Some(VendorLimit)
    case "observation unreadable" => Some(ObservationUnreadable)
    case "interrupted" => Some(StoppedReason.Interrupted)
    case "all done" => Some(AllDone)
    case "nothing fits" => Some(NothingFits)
    case "blocked" => Some(StoppedReason.Blocked)
    case "error" => Some(StoppedReason.Error)
    case _ => None
  }

  /** Every name reads back, and nothing else is a spelling of it. */
  lemma NamesReadBack(text: string)
    ensures forall state :: ReadTaskState(text) == Some(state) <==> text == TaskStateText(state)
    ensures forall it :: ReadDisposition(text) == Some(it) <==> text == DispositionText(it)
    ensures forall state :: ReadSessionState(text) == Some(state) <==> text == SessionStateText(state)
    ensures forall why :: ReadReason(text) == Some(why) <==> text == Spelled(why)
  {
  }

  /** An identifier, its prefix there or not. */
  function ReadId(prefix: string, text: string): Option<U32> {
    Parsed(if prefix <= text then text[|prefix|..] else text, U32_MAX)
  }

  lemma IdsReadBack(prefix: string, id: U32)
    requires prefix != "" && !IsDigit(prefix[0])
    ensures ReadId(prefix, Digits(id)) == Some(id) && ReadId(prefix, prefix + Digits(id)) == Some(id)
  {
    DigitsHoldTheValue(id);
    WrittenReadsBack(id, U32_MAX);
    assert IsDigit(Digits(id)[0]);
    assert (prefix + Digits(id))[|prefix|..] == Digits(id);
  }

  // ---------------------------------------------------------------- what a session may consume

  predicate EndsIn(text: string, mark: char) {
    text != "" && text[|text| - 1] == mark
  }

  function ReadUsage(text: string): Option<Usage> {
    if EndsIn(text, '%') then
      match Parsed(text[..|text| - 1], U32_MAX)
      case Some(percent) => if 1 <= percent <= 100 then Some(InShare(percent)) else None
      case None => None
    else
      var (digits, scale) :=
        if EndsIn(text, 'K') then (text[..|text| - 1], 1_000)
        else if EndsIn(text, 'M') then (text[..|text| - 1], 1_000_000)
        else (text, 1);
      match Parsed(digits, U64_MAX)
      case Some(count) => if 0 < count * scale <= U64_MAX then Some(InTokens(count * scale)) else None
      case None => None
  }

  function UsageText(usage: Usage): string {
    match usage
    case InShare(percent) => Digits(percent) + "%"
    case InTokens(count) => Digits(count)
  }

  /** What may be declared: a share of one to a hundred, or some tokens. */
  predicate MayBeDeclared(usage: Usage) {
    match usage
    case InShare(percent) => 1 <= percent <= 100
    case InTokens(count) => count > 0
  }

  lemma SharesReadBack(percent: U32)
    ensures ReadUsage(Digits(percent) + "%") == if 1 <= percent <= 100 then Some(InShare(percent)) else None
  {
    WrittenReadsBack(percent, U32_MAX);
    assert (Digits(percent) + "%")[..|Digits(percent)|] == Digits(percent);
  }

  lemma TokensReadBack(count: U64)
    ensures ReadUsage(Digits(count)) == if count > 0 then Some(InTokens(count)) else None
  {
    DigitsHoldTheValue(count);
    WrittenReadsBack(count, U64_MAX);
    assert IsDigit(Digits(count)[|Digits(count)| - 1]);
  }

  /** A usage reads back exactly where it is one that may be declared, and nothing else is ever read. */
  lemma UsageReadsBack(usage: Usage, text: string)
    ensures ReadUsage(UsageText(usage)) == Some(usage) <==> MayBeDeclared(usage)
    ensures ReadUsage(text).Some? ==> MayBeDeclared(ReadUsage(text).value)
  {
    match usage
    case InShare(percent) => SharesReadBack(percent);
    case InTokens(count) => TokensReadBack(count);
  }

  // ---------------------------------------------------------------- how long it may run

  datatype Unit = Hours | Minutes | Seconds {
    function Mark(): char {
      match this
      case Hours => 'h'
      case Minutes => 'm'
      case Seconds => 's'
    }

    /** So many of it, in seconds. */
    function Times(count: nat): nat {
      match this
      case Hours => 3_600 * count
      case Minutes => 60 * count
      case Seconds => count
    }
  }

  const UNITS := [Hours, Minutes, Seconds]

  /** How far the reading is: what is left of the text, the seconds so far, and whether any unit was given. */
  datatype Reading = Reading(left: string, seconds: nat, given: bool)

  /** With a count that stands before its unit. */
  function Took(unit: Unit, so: Reading, at: nat, count: U64): Option<Reading>
    requires at < |so.left|
  {
    if unit.Times(count) > U64_MAX || so.seconds + unit.Times(count) > U64_MAX then None
    else Some(Reading(so.left[at + 1..], so.seconds + unit.Times(count), true))
  }

  /** One unit looked for in what is left, or nothing where what stands before it is no count. */
  function ReadUnit(unit: Unit, so: Reading): Option<Reading> {
    var at := FirstFrom(so.left, unit.Mark(), 0);
    if at == |so.left| then Some(so)
    else
      match Parsed(so.left[..at], U64_MAX)
      case None => None
      case Some(count) => Took(unit, so, at, count)
  }

  /** How far a reading is once the first so many units have been looked for, one step to a unit. */
  function ReadSoFar(step: (Unit, Reading) -> Option<Reading>, units: seq<Unit>, text: string, n: nat): Option<Reading>
    requires n <= |units|
  {
    if n == 0 then Some(Reading(text, 0, false))
    else
      match ReadSoFar(step, units, text, n - 1)
      case None => None
      case Some(so) => step(units[n - 1], so)
  }

  /** Some time, and nothing left over. */
  function Spanned(so: Option<Reading>): Option<U64> {
    if so.Some? && so.value.given && so.value.left == "" && 0 < so.value.seconds <= U64_MAX then
      Some(so.value.seconds)
    else None
  }

  function ReadSpan(text: string): Option<U64> {
    Spanned(ReadSoFar(ReadUnit, UNITS, text, |UNITS|))
  }

  method ParseSpan(time: string) returns (r: Option<U64>)
    ensures r == ReadSpan(time)
  {
    r := ParseInUnits(UNITS, time);
  }

  method ParseInUnits(units: seq<Unit>, time: string) returns (r: Option<U64>)
    ensures r == Spanned(ReadSoFar(ReadUnit, units, time, |units|))
  {
    var so := Reading(time, 0, false);
    for i := 0 to |units|
      invariant ReadSoFar(ReadUnit, units, time, i) == Some(so)
    {
      var on := ParseUnit(units[i], so);
      if on.None? {
        NothingComesOfNothing(ReadUnit, units, time, i + 1, |units|);
        return None;
      }
      so := on.value;
    }
    r := if so.given && so.left == "" && 0 < so.seconds <= U64_MAX then Some(so.seconds) else None;
  }

  method ParseUnit(unit: Unit, so: Reading) returns (on: Option<Reading>)
    ensures on == ReadUnit(unit, so)
  {
    var at := FirstFrom(so.left, unit.Mark(), 0);
    if at == |so.left| {
      return Some(so);
    }
    var count := Parsed(so.left[..at], U64_MAX);
    if count.None? || unit.Times(count.value) > U64_MAX || so.seconds + unit.Times(count.value) > U64_MAX {
      return None;
    }
    on := Some(Reading(so.left[at + 1..], so.seconds + unit.Times(count.value), true));
  }

  lemma {:induction false} NothingComesOfNothing(step: (Unit, Reading) -> Option<Reading>, units: seq<Unit>,
                                                 text: string, m: nat, n: nat)
    requires m <= n <= |units| && ReadSoFar(step, units, text, m).None?
    ensures ReadSoFar(step, units, text, n).None?
  {
    if m < n {
      NothingComesOfNothing(step, units, text, m, n - 1);
    }
  }

  function UnitText(count: nat, mark: char): string {
    if count > 0 then Digits(count) + [mark] else ""
  }

  function SpanText(seconds: U64): string {
    UnitText(seconds / 3_600, 'h') + UnitText(seconds % 3_600 / 60, 'm')
    + if seconds == 0 then "0s" else UnitText(seconds % 60, 's')
  }

  lemma LacksMarks(count: nat, mark: char, other: char)
    requires mark != other && !IsDigit(other)
    ensures Uncut(UnitText(count, mark), other)
  {
    DigitsHoldTheValue(count);
  }

  /** One unit of what was written reads back as it, and leaves the rest. */
  lemma OneUnitReadsBack(unit: Unit, count: U64, rest: string, seconds: nat, given: bool)
    requires Uncut(rest, unit.Mark())
    requires seconds + unit.Times(count) <= U64_MAX
    ensures ReadUnit(unit, Reading(UnitText(count, unit.Mark()) + rest, seconds, given))
         == Some(Reading(rest, seconds + unit.Times(count), given || count > 0))
  {
    if count == 0 {
      assert UnitText(count, unit.Mark()) + rest == rest;
    } else {
      UnitIsFound(count, unit.Mark(), rest);
    }
  }

  lemma UnitIsFound(count: U64, mark: char, rest: string)
    requires count > 0 && !IsDigit(mark)
    ensures var text := UnitText(count, mark) + rest;
            && FirstFrom(text, mark, 0) == |Digits(count)| < |text|
            && Parsed(text[..|Digits(count)|], U64_MAX) == Some(count) && text[|Digits(count)| + 1..] == rest
  {
    DigitsHoldTheValue(count);
    WrittenReadsBack(count, U64_MAX);
    var text, n := UnitText(count, mark) + rest, |Digits(count)|;
    assert text[n] == mark && text[..n] == Digits(count) && text[n + 1..] == rest;
    assert forall k :: 0 <= k < n ==> text[k] == Digits(count)[k];
  }

  /** A span reads back exactly where it is some time, and nothing else is ever read. */
  lemma SpanReadsBack(span: U64, text: string)
    ensures ReadSpan(SpanText(span)) == Some(span) <==> span > 0
    ensures ReadSpan(text).Some? ==> ReadSpan(text).value > 0
  {
    if span > 0 {
      WrittenSpanReadsBack(span);
    }
  }

  /** The next unit of what was written reads back as it, whatever the units before it came to. */
  lemma ReadsOn(units: seq<Unit>, text: string, n: nat, count: U64, rest: string, seconds: nat, given: bool)
    requires n < |units| && Uncut(rest, units[n].Mark())
    requires ReadSoFar(ReadUnit, units, text, n)
         == Some(Reading(UnitText(count, units[n].Mark()) + rest, seconds, given))
    requires seconds + units[n].Times(count) <= U64_MAX
    ensures ReadSoFar(ReadUnit, units, text, n + 1)
         == Some(Reading(rest, seconds + units[n].Times(count), given || count > 0))
  {
    OneUnitReadsBack(units[n], count, rest, seconds, given);
  }

  lemma HoursMinutesAndSeconds(span: U64)
    ensures span == 3_600 * (span / 3_600) + 60 * (span % 3_600 / 60) + span % 60
  {
    var within := span % 3_600;
    assert within == 60 * (within / 60) + within % 60;
    assert span == 60 * (60 * (span / 3_600) + within / 60) + within % 60;
    LeftOverSixty(span, 60 * (span / 3_600) + within / 60, within % 60);
  }

  lemma LeftOverSixty(span: nat, minutes: nat, seconds: nat)
    requires span == 60 * minutes + seconds && seconds < 60
    ensures span % 60 == seconds
  {
  }

  lemma WrittenInUnits(span: U64)
    requires span > 0
    ensures SpanText(span)
            == UnitText(span / 3_600, 'h') + (UnitText(span % 3_600 / 60, 'm') + UnitText(span % 60, 's'))
  {
  }

  lemma WrittenSpanReadsBack(span: U64)
    requires span > 0
    ensures ReadSpan(SpanText(span)) == Some(span)
  {
    var hours, minutes, seconds := span / 3_600, span % 3_600 / 60, span % 60;
    HoursMinutesAndSeconds(span);
    WrittenInUnits(span);
    UnitsReadBack(UNITS, 0, hours, minutes, seconds, UnitText(minutes, 'm') + UnitText(seconds, 's'));
  }

  lemma UnitsReadBack(units: seq<Unit>, n: nat, hours: U64, minutes: U64, seconds: U64, rest: string)
    requires n == 0 && |units| == n + 3 && units[n] == Hours && units[n + 1] == Minutes && units[n + 2] == Seconds
    requires 0 < 3_600 * hours + 60 * minutes + seconds <= U64_MAX
    requires rest == UnitText(minutes, 'm') + UnitText(seconds, 's')
    ensures Spanned(ReadSoFar(ReadUnit, units, UnitText(hours, 'h') + rest, |units|))
         == Some(3_600 * hours + 60 * minutes + seconds)
  {
    NoHoursInTheRest(minutes, seconds);
    var text, on, any := UnitText(hours, 'h') + rest, 3_600 * hours, hours > 0;
    HoursReadBack(units, text, n, hours, rest);
    TheRestReadsBack(units, text, n + 1, minutes, seconds, on, any);
  }

  lemma NoHoursInTheRest(minutes: U64, seconds: U64)
    ensures Uncut(UnitText(minutes, 'm') + UnitText(seconds, 's'), 'h')
  {
    LacksMarks(minutes, 'm', 'h');
    LacksMarks(seconds, 's', 'h');
  }

  lemma TheRestReadsBack(units: seq<Unit>, text: string, n: nat, minutes: U64, seconds: U64, so: nat, given: bool)
    requires |units| == n + 2 && units[n] == Minutes && units[n + 1] == Seconds
    requires so + 60 * minutes + seconds <= U64_MAX
    requires ReadSoFar(ReadUnit, units, text, n)
         == Some(Reading(UnitText(minutes, 'm') + UnitText(seconds, 's'), so, given))
    requires 0 < so + 60 * minutes + seconds && (so > 0 ==> given)
    ensures Spanned(ReadSoFar(ReadUnit, units, text, |units|)) == Some(so + 60 * minutes + seconds)
  {
    var on, any := so + 60 * minutes, given || minutes > 0;
    MinutesReadBack(units, text, n, minutes, seconds, so, given);
    SecondsReadBack(units, text, n + 1, seconds, on, any);
  }

  lemma HoursReadBack(units: seq<Unit>, text: string, n: nat, hours: U64, rest: string)
    requires n < |units| && units[n] == Hours && 3_600 * hours <= U64_MAX && Uncut(rest, 'h')
    requires ReadSoFar(ReadUnit, units, text, n) == Some(Reading(UnitText(hours, 'h') + rest, 0, false))
    ensures ReadSoFar(ReadUnit, units, text, n + 1) == Some(Reading(rest, 3_600 * hours, hours > 0))
  {
    ReadsOn(units, text, n, hours, rest, 0, false);
  }

  lemma MinutesReadBack(units: seq<Unit>, text: string, n: nat, minutes: U64, seconds: U64, so: nat, given: bool)
    requires n < |units| && units[n] == Minutes && so + 60 * minutes <= U64_MAX
    requires ReadSoFar(ReadUnit, units, text, n)
         == Some(Reading(UnitText(minutes, 'm') + UnitText(seconds, 's'), so, given))
    ensures ReadSoFar(ReadUnit, units, text, n + 1).Some? && var on := ReadSoFar(ReadUnit, units, text, n + 1).value;
            on.left == UnitText(seconds, 's') && on.seconds == so + 60 * minutes && (on.given <==> given || minutes > 0)
  {
    LacksMarks(seconds, 's', 'm');
    ReadsOn(units, text, n, minutes, UnitText(seconds, 's'), so, given);
  }

  lemma SecondsReadBack(units: seq<Unit>, text: string, n: nat, seconds: U64, so: nat, given: bool)
    requires n + 1 == |units| && units[n] == Seconds && 0 < so + seconds <= U64_MAX && (so > 0 ==> given)
    requires ReadSoFar(ReadUnit, units, text, n) == Some(Reading(UnitText(seconds, 's'), so, given))
    ensures Spanned(ReadSoFar(ReadUnit, units, text, |units|)) == Some(so + seconds)
  {
    assert UnitText(seconds, 's') + "" == UnitText(seconds, 's');
    ReadsOn(units, text, n, seconds, "", so, given);
  }
}
