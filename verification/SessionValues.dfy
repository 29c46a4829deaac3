/** A session, what may happen to one, and what is asked of a list of them, as values. */
module SessionValues {
  import opened Wrappers
  import opened Numbers
  import opened Spendings
  import opened Tasks

  datatype SessionState = Running | Stopped

  datatype StoppedReason =
    | BudgetHardlock
    | VendorLimit
    | ObservationUnreadable
    | Interrupted
    | AllDone
    | Blocked
    | NothingFits
    | Error

  /** A reason as it is written down, and as an interrupted task is told it. */
  function Spelled(why: StoppedReason): string {
    match why
    case BudgetHardlock => "budget hardlock"
    case VendorLimit => "vendor limit"
    case ObservationUnreadable => "observation unreadable"
    case Interrupted => "interrupted"
    case AllDone => "all done"
    case Blocked => "blocked"
    case NothingFits => "nothing fits"
    case Error => "error"
  }

  datatype Opening = Opening(budget: Budget, model: Option<string>, startedAt: U64, limitAtStart: Option<U64>)

  datatype Session = Session(
    id: SessionId,
    state: SessionState,
    stoppedReason: Option<StoppedReason>,
    budget: Budget,
    model: Option<string>,
    startedAt: U64,
    limitAtStart: Option<U64>,
    limitLastSeen: Option<U64>,
    consumed: Spending,
    updatedAt: U64,
    resetsAt: Option<U64>)
  {
    /** Nought once the session has run as long as it declared. */
    function TimeLeft(now: U64): U64 {
      SatSub(budget.time, SatSub(now, startedAt))
    }
  }

  /** What a look at the vendor's limit came to: what is spent all told, and the stretch the look added. */
  datatype Measured = Measured(spent: Spending, over: Option<(U64, U64)>)

  function Opened(id: SessionId, opening: Opening): Session {
    Session(id, SessionState.Running, None, opening.budget, opening.model, opening.startedAt, opening.limitAtStart,
            opening.limitAtStart,
            if opening.budget.usage.InShare? then Share(0) else Tokens(0), opening.startedAt, None)
  }

  function Halted(s: Session, why: StoppedReason, now: U64): Session {
    s.(state := Stopped, stoppedReason := Some(why), updatedAt := now)
  }

  /** Adds what the limit moved since the last look, in a session whose unit is a share. */
  function LookedAt(s: Session, used: U64, resetsAt: Option<U64>, now: U64): (Session, Measured) {
    if s.consumed.Tokens? then (s, Measured(s.consumed, None))
    else
      var bothNamed := s.resetsAt.Some? && resetsAt.Some?;
      var beganAgain := bothNamed && resetsAt.value != s.resetsAt.value;
      if bothNamed && !beganAgain && s.limitLastSeen.Some? && used < s.limitLastSeen.value then
        (s, Measured(s.consumed, None))
      else
        var since :=
          if s.limitLastSeen.None? then 0
          else if beganAgain || used < s.limitLastSeen.value then used
          else used - s.limitLastSeen.value;
        var looked := s.(consumed := Share(SatAdd(s.consumed.figure, since)),
                         limitLastSeen := Some(used),
                         resetsAt := if resetsAt.Some? then resetsAt else s.resetsAt,
                         updatedAt := now);
        (looked, Measured(looked.consumed, if s.limitLastSeen.Some? then Some((s.limitLastSeen.value, used)) else None))
  }

  // ---------------------------------------------------------------- the list

  function IndexOfSession(ss: seq<Session>, id: SessionId): (at: nat)
    ensures at <= |ss|
    ensures at < |ss| ==> ss[at].id == id
    ensures forall j :: 0 <= j < at ==> ss[j].id != id
  {
    if ss == [] then 0
    else if ss[0].id == id then 0
    else
      var rest := IndexOfSession(ss[1..], id);
      assert forall j :: 0 < j < |ss| ==> ss[j] == ss[1..][j - 1];
      1 + rest
  }

  predicate Keeps(ss: seq<Session>, id: SessionId) {
    IndexOfSession(ss, id) < |ss|
  }

  /** Whether the session carrying that number is there and running. */
  predicate Runs(ss: seq<Session>, id: SessionId) {
    Keeps(ss, id) && ss[IndexOfSession(ss, id)].state.Running?
  }

  /** Where the running session is, or the length where none is. */
  function RunningAt(ss: seq<Session>): (at: nat)
    ensures at <= |ss|
    ensures at < |ss| ==> ss[at].state.Running?
    ensures forall j :: 0 <= j < at ==> ss[j].state.Stopped?
  {
    if ss == [] then 0
    else if ss[0].state.Running? then 0
    else
      var rest := RunningAt(ss[1..]);
      assert forall j :: 0 < j < |ss| ==> ss[j] == ss[1..][j - 1];
      1 + rest
  }

  function Halt(ss: seq<Session>, id: SessionId, why: StoppedReason, now: U64): (us: seq<Session>)
    ensures |us| == |ss|
  {
    seq(|ss|, i requires 0 <= i < |ss| =>
      if ss[i].id == id && ss[i].state.Running? then Halted(ss[i], why, now) else ss[i])
  }

  /** Writes a figure down, unless the session has stopped or the figure was read before the one held. */
  function Note(ss: seq<Session>, id: SessionId, consumed: Spending, now: U64): (us: seq<Session>)
    ensures |us| == |ss|
  {
    if Runs(ss, id) && !consumed.Behind(ss[IndexOfSession(ss, id)].consumed)
    then ss[IndexOfSession(ss, id) := ss[IndexOfSession(ss, id)].(consumed := consumed, updatedAt := now)]
    else ss
  }

  predicate Refuses(s: Session, consumed: Spending) {
    !s.state.Running? || consumed.Behind(s.consumed)
  }

  /** Whether a figure for that number gets as far as a place: nothing carrying the number refuses it before. */
  predicate GetsTo(ss: seq<Session>, id: SessionId, consumed: Spending, i: nat) {
    i < |ss| && ss[i].id == id && forall j :: 0 <= j <= i && ss[j].id == id ==> !Refuses(ss[j], consumed)
  }

  /** Writes a figure down for everything carrying the number, until one of them has stopped or holds a
      figure read later. */
  function NoteEach(ss: seq<Session>, id: SessionId, consumed: Spending, now: U64): (us: seq<Session>)
    ensures |us| == |ss|
  {
    seq(|ss|, i requires 0 <= i < |ss| =>
      if GetsTo(ss, id, consumed, i) then ss[i].(consumed := consumed, updatedAt := now) else ss[i])
  }

  /** Where no number is carried twice, that is the one session there is. */
  lemma {:induction false} NotedOnce(ss: seq<Session>, id: SessionId, consumed: Spending, now: U64)
    requires DistinctSessions(ss)
    ensures NoteEach(ss, id, consumed, now) == Note(ss, id, consumed, now)
  {
    var at := IndexOfSession(ss, id);
    forall i | 0 <= i < |ss| ensures NoteEach(ss, id, consumed, now)[i] == Note(ss, id, consumed, now)[i] {
      assert ss[i].id == id ==> i == at;
    }
  }

  function Look(ss: seq<Session>, id: SessionId, used: U64, resetsAt: Option<U64>, now: U64): (us: seq<Session>)
    ensures |us| == |ss|
  {
    if Keeps(ss, id)
    then ss[IndexOfSession(ss, id) := LookedAt(ss[IndexOfSession(ss, id)], used, resetsAt, now).0]
    else ss
  }

  function Reset(ss: seq<Session>, id: SessionId, at: U64): (us: seq<Session>)
    ensures |us| == |ss|
  {
    seq(|ss|, i requires 0 <= i < |ss| => if ss[i].id == id then ss[i].(resetsAt := Some(at)) else ss[i])
  }

  // ---------------------------------------------------------------- what every stored set is held to

  predicate DistinctSessions(ss: seq<Session>) {
    forall i, j :: 0 <= i < j < |ss| ==> ss[i].id != ss[j].id
  }

  predicate OneAtATime(ss: seq<Session>) {
    forall i, j :: 0 <= i < j < |ss| ==> ss[i].state.Stopped? || ss[j].state.Stopped?
  }

  predicate SaysWhy(s: Session) {
    s.stoppedReason.Some? <==> s.state.Stopped?
  }

  predicate ASessionSet(ss: seq<Session>) {
    DistinctSessions(ss) && OneAtATime(ss) && forall i :: 0 <= i < |ss| ==> SaysWhy(ss[i])
  }

  predicate InTheirUnits(ss: seq<Session>) {
    forall i :: 0 <= i < |ss| ==> ss[i].consumed.InTheUnitOf(ss[i].budget.usage)
  }

  predicate FreshSessions(nextId: U32, ss: seq<Session>) {
    forall i :: 0 <= i < |ss| ==> ss[i].id < nextId
  }
}
