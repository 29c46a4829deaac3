/** One hold of a store, which reads what it holds, changes it, and writes it back; and that every state
    the daemon comes to is one a store can hold. */
module Holds {
  import opened Wrappers
  import opened Numbers
  import opened Spendings
  import opened Tasks
  import opened Graph
  import opened Closure
  import opened SessionValues
  import opened Decisions
  import opened Settling
  import opened Spellings
  import opened Stores
  import opened Protocol
  import opened Steps
  import opened NoIdle

  datatype Refusal<R> = Unavailable(unusable: Unusable) | Turned(back: R)

  class SessionStore {
    var stored: StoredSessions

    constructor (stored: StoredSessions)
      ensures this.stored == stored
    {
      this.stored := stored;
    }

    /** Reads the sessions, changes them, and writes them back, or leaves them where either cannot be done. */
    method Change<T, R>(with: (U32, seq<Session>) -> Result<(T, U32, seq<Session>), R>)
      returns (r: Result<T, Refusal<R>>)
      modifies this
      ensures SessionsIn(old(stored)).None? ==> r.Err? && r.error.Unavailable? && stored == old(stored)
      ensures SessionsIn(old(stored)).Some? ==>
                var (nextId, ss) := SessionsIn(old(stored)).value;
                match with(nextId, ss)
                case Err(why) => r == Err(Turned(why)) && stored == old(stored)
                case Ok(done) => r == Ok(done.0) && stored == WrittenSessions(done.1, done.2)
    {
      var held := ReadSessions(stored);
      if held.Err? {
        return Err(Unavailable(held.error));
      }
      var done := with(held.value.nextId, held.value.sessions);
      if done.Err? {
        return Err(Turned(done.error));
      }
      stored := WrittenSessions(done.value.1, done.value.2);
      r := Ok(done.value.0);
    }
  }

  class BacklogStore {
    var stored: StoredBacklog

    constructor (stored: StoredBacklog)
      ensures this.stored == stored
    {
      this.stored := stored;
    }

    method Change<T, R>(with: (U32, seq<Task>) -> Result<(T, U32, seq<Task>), R>) returns (r: Result<T, Refusal<R>>)
      modifies this
      ensures BacklogIn(old(stored)).None? ==> r.Err? && r.error.Unavailable? && stored == old(stored)
      ensures BacklogIn(old(stored)).Some? ==>
                var (nextId, ts) := BacklogIn(old(stored)).value;
                match with(nextId, ts)
                case Err(why) => r == Err(Turned(why)) && stored == old(stored)
                case Ok(done) => r == Ok(done.0) && stored == WrittenBacklog(done.1, done.2)
    {
      var held := ReadBacklog(stored);
      if held.Err? {
        return Err(Unavailable(held.error));
      }
      var done := with(held.value.nextId, held.value.tasks);
      if done.Err? {
        return Err(Turned(done.error));
      }
      stored := WrittenBacklog(done.value.1, done.value.2);
      r := Ok(done.value.0);
    }
  }

  // ---------------------------------------------------------------- what the daemon writes reads back

  predicate AllStorable(ss: seq<Session>) {
    forall i :: 0 <= i < |ss| ==> Storable(ss[i]) && SaysWhy(ss[i])
  }

  predicate InItsUnit(ss: seq<Session>, id: SessionId, figure: Spending) {
    Keeps(ss, id) && figure.InTheUnitOf(HeldAs(ss, id).budget.usage)
  }

  /** Every figure a thread carries for a session is in the unit the session declared. */
  predicate CarriesItsUnit(ss: seq<Session>, at: Phase) {
    match at
    case Deferring(id, read) => read.Some? ==> InItsUnit(ss, id, read.value.spent)
    case Deciding(held, read) => InItsUnit(ss, held.id, held.consumed)
      && (read.Some? ==> InItsUnit(ss, held.id, read.value.spent))
    case Noting(id, spent, _) => InItsUnit(ss, id, spent)
    case _ => true
  }

  predicate AllCarryTheirUnits(w: World) {
    forall j :: 0 <= j < |w.threads| ==> CarriesItsUnit(w.sessions, w.threads[j].at)
  }

  /** A budget reaches the daemon only as one that was read, so as one that may be declared. */
  predicate OpensWhatMayBeDeclared(s: Step) {
    s.Opens? ==> MayBeDeclared(s.budget.usage) && s.budget.time > 0
  }

  lemma InItsUnitStays(ss: seq<Session>, us: seq<Session>, id: SessionId, figure: Spending)
    requires Grown(ss, us) && InItsUnit(ss, id, figure)
    ensures InItsUnit(us, id, figure)
  {
    GrownFinds(ss, us, id);
  }

  lemma CarryingItsUnitStays(ss: seq<Session>, us: seq<Session>, at: Phase)
    requires Grown(ss, us) && CarriesItsUnit(ss, at)
    ensures CarriesItsUnit(us, at)
  {
    match at
    case Deferring(id, read) =>
      if read.Some? {
        InItsUnitStays(ss, us, id, read.value.spent);
      }
    case Deciding(held, read) =>
      InItsUnitStays(ss, us, held.id, held.consumed);
      if read.Some? {
        InItsUnitStays(ss, us, held.id, read.value.spent);
      }
    case Noting(id, spent, _) => InItsUnitStays(ss, us, id, spent);
    case _ =>
  }

  /** What a thread comes away with is in the unit of the session it asked about. */
  lemma MovesOnInItsUnit(w: World, s: Step)
    requires Enabled(w, s) && OnItsOwn(s) && AllStorable(w.sessions) && ThreadsKnown(w) && AllCarryTheirUnits(w)
    ensures CarriesItsUnit(w.sessions, Next(w, s).threads[s.i].at)
  {
    var at := w.threads[s.i].at;
    assert CarriesItsUnit(w.sessions, at) && PhaseKnown(w.sessions, at);
  }

  lemma NotingInItsUnit(w: World, s: Step)
    requires Enabled(w, s) && s.Notes? && AllStorable(w.sessions) && AllCarryTheirUnits(w)
    ensures AllStorable(Next(w, s).sessions)
  {
    assert CarriesItsUnit(w.sessions, w.threads[s.i].at);
  }

  lemma StepsKeepStorable(w: World, s: Step)
    requires Enabled(w, s) && OpensWhatMayBeDeclared(s) && AllStorable(w.sessions) && AllCarryTheirUnits(w)
    ensures AllStorable(Next(w, s).sessions)
  {
    if s.Notes? {
      NotingInItsUnit(w, s);
    }
  }

  /** A thread another's step leaves alone, or a new one, which carries nothing yet. */
  lemma LeftAloneOrNew(w: World, s: Step, j: nat)
    requires Enabled(w, s) && j < |Next(w, s).threads| && !(OnItsOwn(s) && j == s.i)
    ensures (j < |w.threads| && Next(w, s).threads[j].at == w.threads[j].at)
            || CarriesItsUnit(Next(w, s).sessions, Next(w, s).threads[j].at)
  {
  }

  lemma StepsKeepTheirUnits(w: World, s: Step)
    requires Enabled(w, s) && AllStorable(w.sessions) && ThreadsKnown(w) && AllCarryTheirUnits(w)
    ensures AllCarryTheirUnits(Next(w, s))
  {
    SessionsOnlyGrow(w, s);
    var v := Next(w, s);
    forall j | 0 <= j < |v.threads| ensures CarriesItsUnit(v.sessions, v.threads[j].at) {
      if OnItsOwn(s) && j == s.i {
        MovesOnInItsUnit(w, s);
        CarryingItsUnitStays(w.sessions, v.sessions, v.threads[j].at);
      } else {
        LeftAloneOrNew(w, s, j);
        if j < |w.threads| && v.threads[j].at == w.threads[j].at {
          CarryingItsUnitStays(w.sessions, v.sessions, w.threads[j].at);
        }
      }
    }
  }

  predicate AllDeclared(steps: seq<Step>) {
    forall k :: 0 <= k < |steps| ==> OpensWhatMayBeDeclared(steps[k])
  }

  lemma {:induction false} RunsKeepStorable(w: World, steps: seq<Step>)
    requires CanRun(w, steps) && AllDeclared(steps) && Sound(w.backlog) && Kept(w) && AllStorable(w.sessions)
    requires AllCarryTheirUnits(w)
    ensures AllStorable(Ran(w, steps).sessions) && SessionsSound(Ran(w, steps)) && Sound(Ran(w, steps).backlog)
    decreases steps
  {
    if steps != [] {
      StepsKeep(w, steps[0]);
      StepsKeepStorable(w, steps[0]);
      StepsKeepTheirUnits(w, steps[0]);
      RunsKeepStorable(Next(w, steps[0]), steps[1..]);
    }
  }

  /** Whatever the daemon has come to, in any interleaving of its holds from its start, what it writes of
      it to the two stores reads back as exactly that. */
  lemma EveryStateReadsBack(atOnce: nat, policy: Policy, steps: seq<Step>)
    requires atOnce > 0 && CanRun(NewDaemon(atOnce, policy), steps) && AllDeclared(steps)
    ensures var w := Ran(NewDaemon(atOnce, policy), steps);
            && SessionsIn(WrittenSessions(w.nextSession, w.sessions)) == Some((w.nextSession, w.sessions))
            && BacklogIn(WrittenBacklog(w.backlog.nextId, w.backlog.tasks)) == Some((w.backlog.nextId, w.backlog.tasks))
  {
    var w := Ran(NewDaemon(atOnce, policy), steps);
    ADaemonStartsKept(atOnce, policy);
    RunsKeepStorable(NewDaemon(atOnce, policy), steps);
    SessionsReadBack(w.nextSession, w.sessions);
    BacklogReadsBack(w.backlog.nextId, w.backlog.tasks);
  }
}
