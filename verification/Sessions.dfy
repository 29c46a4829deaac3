/** The sessions as the core changes them: one list and one number, updated in place. */
module Sessions {
  import opened Wrappers
  import opened Numbers
  import opened Spendings
  import opened Tasks
  import opened SessionValues

  datatype NotOpened = AlreadyRunning(id: SessionId)

  datatype NotASessionSet =
    | RepeatedId(id: SessionId)
    | TwoRunning(first: SessionId, second: SessionId)
    | ReasonDoesNotMatchState(id: SessionId)

  /** Whether a figure is in the unit the session it is for declared. */
  predicate InTheUnitHeld(ss: seq<Session>, id: SessionId, consumed: Spending) {
    Keeps(ss, id) ==> consumed.InTheUnitOf(ss[IndexOfSession(ss, id)].budget.usage)
  }

  class Sessions {
    var nextId: U32
    var sessions: seq<Session>

    /** What a store nobody has written reads as. */
    constructor ()
      ensures nextId == 1 && sessions == []
    {
      nextId, sessions := 1, [];
    }

    constructor Holding(nextId: U32, sessions: seq<Session>)
      ensures this.nextId == nextId && this.sessions == sessions
    {
      this.nextId, this.sessions := nextId, sessions;
    }

    /** Distinct numbers already handed out, one running at most, a reason exactly where one stopped,
        and every figure in the unit its session declared. */
    predicate Valid()
      reads this
    {
      ASessionSet(sessions) && InTheirUnits(sessions) && FreshSessions(nextId, sessions)
    }

    method Open(opening: Opening) returns (r: Result<SessionId, NotOpened>)
      modifies this
      ensures r.Err? <==> RunningAt(old(sessions)) < |old(sessions)|
      ensures r.Err? ==> nextId == old(nextId) && sessions == old(sessions)
                         && r.error.id == sessions[RunningAt(sessions)].id
      ensures r.Ok? ==> r.value == old(nextId) && nextId == Next32(old(nextId))
                        && sessions == old(sessions) + [Opened(r.value, opening)]
      ensures old(Valid()) ==> ASessionSet(sessions) && InTheirUnits(sessions)
      ensures old(Valid()) ==> (Valid() <==> r.Err? || old(nextId) < U32_MAX)
    {
      var running := RunningAt(sessions);
      if running < |sessions| {
        return Err(AlreadyRunning(sessions[running].id));
      }
      var id := nextId;
      nextId := Next32(nextId);
      sessions := sessions + [Opened(id, opening)];
      assert sessions[|sessions| - 1].id == id;
      r := Ok(id);
    }

    method Stop(id: SessionId, why: StoppedReason, now: U64)
      modifies this
      ensures (old(Valid()) ==> Valid()) && !Runs(sessions, id)
      ensures nextId == old(nextId) && sessions == Halt(old(sessions), id, why, now)
    {
      for i := 0 to |sessions|
        invariant nextId == old(nextId) && |sessions| == |old(sessions)|
        invariant forall j :: 0 <= j < i ==> sessions[j] == Halt(old(sessions), id, why, now)[j]
        invariant forall j :: i <= j < |sessions| ==> sessions[j] == old(sessions)[j]
      {
        if sessions[i].id == id && sessions[i].state.Running? {
          sessions := sessions[i := Halted(sessions[i], why, now)];
        }
      }
      assert sessions == Halt(old(sessions), id, why, now);
    }

    method Record(id: SessionId, consumed: Spending, now: U64)
      modifies this
      ensures nextId == old(nextId) && sessions == NoteEach(old(sessions), id, consumed, now)
      ensures DistinctSessions(old(sessions)) ==> sessions == Note(old(sessions), id, consumed, now)
      ensures old(Valid()) && InTheUnitHeld(old(sessions), id, consumed) ==> Valid()
    {
      ghost var noted := NoteEach(sessions, id, consumed, now);
      for i := 0 to |sessions|
        invariant nextId == old(nextId) && |sessions| == |old(sessions)|
        invariant forall j :: 0 <= j < i ==> sessions[j] == noted[j]
        invariant forall j :: i <= j < |sessions| ==> sessions[j] == old(sessions)[j]
        invariant forall j :: 0 <= j < i && old(sessions)[j].id == id ==> !Refuses(old(sessions)[j], consumed)
      {
        if sessions[i].id != id {
          continue;
        }
        if !sessions[i].state.Running? {
          break;
        }
        if consumed.Behind(sessions[i].consumed) {
          break;
        }
        sessions := sessions[i := sessions[i].(consumed := consumed, updatedAt := now)];
      }
      assert sessions == noted;
      if DistinctSessions(old(sessions)) {
        NotedOnce(old(sessions), id, consumed, now);
      }
    }

    method Measured(id: SessionId, used: U64, resetsAt: Option<U64>, now: U64) returns (m: Option<Measured>)
      modifies this
      ensures old(Valid()) ==> Valid()
      ensures nextId == old(nextId) && sessions == Look(old(sessions), id, used, resetsAt, now)
      ensures m == if Keeps(old(sessions), id)
                   then Some(LookedAt(old(sessions)[IndexOfSession(old(sessions), id)], used, resetsAt, now).1)
                   else None
    {
      var at := IndexOfSession(sessions, id);
      if at == |sessions| {
        return None;
      }
      var session := sessions[at];
      var before := session.limitLastSeen;
      if session.consumed.Tokens? {
        return Some(SessionValues.Measured(session.consumed, None));
      }
      var beganAgain := session.resetsAt.Some? && resetsAt.Some? && resetsAt.value != session.resetsAt.value;
      var namedTheSameWindow := !beganAgain && session.resetsAt.Some? && resetsAt.Some?;
      if namedTheSameWindow && session.limitLastSeen.Some? && used < session.limitLastSeen.value {
        return Some(SessionValues.Measured(session.consumed, None));
      }
      var since :=
        if session.limitLastSeen.Some? && beganAgain then used
        else if session.limitLastSeen.Some? && used >= session.limitLastSeen.value then
          used - session.limitLastSeen.value
        else if session.limitLastSeen.Some? then used
        else 0;
      session := session.(consumed := Share(SatAdd(session.consumed.figure, since)), limitLastSeen := Some(used));
      if resetsAt.Some? {
        session := session.(resetsAt := resetsAt);
      }
      session := session.(updatedAt := now);
      sessions := sessions[at := session];
      m := Some(SessionValues.Measured(session.consumed,
                                       if before.Some? then Some((before.value, used)) else None));
    }

    method ResetsAt(id: SessionId, at: U64)
      modifies this
      ensures old(Valid()) ==> Valid()
      ensures nextId == old(nextId) && sessions == Reset(old(sessions), id, at)
    {
      for i := 0 to |sessions|
        invariant nextId == old(nextId) && |sessions| == |old(sessions)|
        invariant forall j :: 0 <= j < i ==> sessions[j] == Reset(old(sessions), id, at)[j]
        invariant forall j :: i <= j < |sessions| ==> sessions[j] == old(sessions)[j]
      {
        if sessions[i].id == id {
          sessions := sessions[i := sessions[i].(resetsAt := Some(at))];
        }
      }
      assert sessions == Reset(old(sessions), id, at);
    }

    /** Takes back what a store held, and refuses exactly what no store should hold. */
    static method Restore(nextId: U32, held: seq<Session>) returns (r: Result<Sessions, NotASessionSet>)
      ensures r.Ok? <==> ASessionSet(held)
      ensures r.Ok? ==> fresh(r.value) && r.value.nextId == nextId && r.value.sessions == held
      ensures r.Err? ==> match r.error
                         case RepeatedId(id) => !DistinctSessions(held)
                         case ReasonDoesNotMatchState(id) =>
                           exists i :: 0 <= i < |held| && held[i].id == id && !SaysWhy(held[i])
                         case TwoRunning(first, second) => !OneAtATime(held)
    {
      var sessions: seq<Session> := [];
      for i := 0 to |held|
        invariant sessions == held[..i] && ASessionSet(sessions)
      {
        var one := held[i];
        if IndexOfSession(sessions, one.id) < |sessions| {
          assert held[IndexOfSession(sessions, one.id)].id == one.id;
          return Err(RepeatedId(one.id));
        }
        if one.stoppedReason.Some? != one.state.Stopped? {
          assert !SaysWhy(held[i]);
          return Err(ReasonDoesNotMatchState(one.id));
        }
        var first := RunningAt(sessions);
        if one.state.Running? && first < |sessions| {
          assert held[first].state.Running?;
          return Err(TwoRunning(sessions[first].id, one.id));
        }
        assert held[..i + 1] == sessions + [one];
        sessions := sessions + [one];
      }
      assert held[..|held|] == held;
      var set' := new Sessions.Holding(nextId, sessions);
      r := Ok(set');
    }
  }
}
