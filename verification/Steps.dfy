/** What every step of the daemon keeps, whatever order the steps come in. */
module Steps {
  import opened Wrappers
  import opened Numbers
  import opened Spendings
  import opened Tasks
  import opened Graph
  import opened Closure
  import opened SessionValues
  import opened Decisions
  import opened Settling
  import opened Protocol

  // ---------------------------------------------------------------- the sessions

  /** Sessions are only ever added, keep what they were declared with, and never start again. */
  predicate Grown(ss: seq<Session>, us: seq<Session>) {
    |ss| <= |us| && forall i :: 0 <= i < |ss| ==> GoesOn(ss[i], us[i])
  }

  predicate GoesOn(s: Session, t: Session) {
    t.id == s.id && t.budget == s.budget && t.limitAtStart == s.limitAtStart && (t.state.Running? ==> s.state.Running?)
  }

  lemma GrownFinds(ss: seq<Session>, us: seq<Session>, id: SessionId)
    requires Grown(ss, us) && Keeps(ss, id)
    ensures Keeps(us, id) && IndexOfSession(us, id) == IndexOfSession(ss, id)
    ensures GoesOn(HeldAs(ss, id), HeldAs(us, id))
    ensures Runs(us, id) ==> Runs(ss, id)
  {
    var at := IndexOfSession(ss, id);
    assert GoesOn(ss[at], us[at]);
    forall j | 0 <= j < at ensures us[j].id != id {
      assert GoesOn(ss[j], us[j]);
    }
  }

  lemma HaltsGrow(ss: seq<Session>, id: SessionId, why: StoppedReason, now: U64)
    ensures Grown(ss, Halt(ss, id, why, now))
  {
  }

  lemma LooksGrow(ss: seq<Session>, id: SessionId, used: U64, resetsAt: Option<U64>, now: U64)
    ensures Grown(ss, Look(ss, id, used, resetsAt, now))
  {
  }

  lemma SessionsOnlyGrow(w: World, s: Step)
    requires Enabled(w, s)
    ensures Grown(w.sessions, Next(w, s).sessions)
    ensures !s.Opens? ==> |Next(w, s).sessions| == |w.sessions|
  {
    match s
    case Asks(i, reading, now) =>
      if reading.Some? {
        LooksGrow(w.sessions, w.threads[i].at.session, reading.value.0, reading.value.1, now);
      }
    case Stops(i, now) => HaltsGrow(w.sessions, w.threads[i].at.session, w.threads[i].at.why, now);
    case _ =>
  }

  /** Distinct numbers already handed out, one at most running, and shares with a reading to start from. */
  predicate SessionsSound(w: World) {
    ASoundSet(w.nextSession, w.sessions)
  }

  predicate ASoundSet(nextId: U32, ss: seq<Session>) {
    && DistinctSessions(ss) && OneAtATime(ss) && FreshSessions(nextId, ss)
    && forall i :: 0 <= i < |ss| && ss[i].budget.usage.InShare? ==> ss[i].limitAtStart.Some?
  }

  lemma GrownStaySound(nextId: U32, ss: seq<Session>, us: seq<Session>)
    requires ASoundSet(nextId, ss) && Grown(ss, us) && |us| == |ss|
    ensures ASoundSet(nextId, us)
  {
    assert forall i :: 0 <= i < |ss| ==> GoesOn(ss[i], us[i]);
  }

  lemma SessionsStaySound(w: World, s: Step)
    requires Enabled(w, s) && SessionsSound(w)
    ensures SessionsSound(Next(w, s))
  {
    SessionsOnlyGrow(w, s);
    if !s.Opens? {
      GrownStaySound(w.nextSession, w.sessions, Next(w, s).sessions);
    }
  }

  // ---------------------------------------------------------------- the backlog

  /** The graph is the same, or one registration, one removal or one retry by hand changed it. */
  lemma DecidingKeepsTheGraph(ts: seq<Task>, allowed: seq<Allowance>, to: SessionId, now: U64, fallback: Option<string>)
    ensures SameGraph(ts, AssignAll(ts, allowed, to, now, fallback).0)
  {
    if allowed != [] {
      DecidingKeepsTheGraph(ts, allowed[..|allowed| - 1], to, now, fallback);
    }
  }

  lemma SettlingStaysSound(b: Shelf, held: Session, read: Option<Measured>, before: Figures, policy: Policy, now: U64,
                           atOnce: nat)
    requires Sound(b)
    ensures Sound(b.(tasks := Settle(b.tasks, held, read, before, policy, now, atOnce).0))
  {
    var decision, us := Judged(b.tasks, held, read, before, policy, now),
        Settle(b.tasks, held, read, before, policy, now, atOnce).0;
    if decision.Start? {
      DecidingKeepsTheGraph(b.tasks, Taken(b.tasks, held, decision.allowed, atOnce), held.id, now, held.model);
      SameGraphStaysWellFormed(b.tasks, us);
    }
  }

  lemma WorkersKeepSound(w: World, s: Step)
    requires Enabled(w, s) && (s.Ends? || s.TurnsAway?) && Sound(w.backlog)
    ensures Sound(Next(w, s).backlog)
  {
    var id := w.threads[s.i].at.task;
    if s.Ends? {
      CommandKeepsSound(w.backlog, End(id, s.state, s.reason, s.conversation, s.consumed, s.now));
    } else {
      CommandKeepsSound(w.backlog, TurnAway(id, s.consumed, s.now));
    }
  }

  lemma BacklogStaysSound(w: World, s: Step)
    requires Enabled(w, s) && Sound(w.backlog)
    ensures Sound(Next(w, s).backlog)
  {
    var b := w.backlog;
    match s
    case Commands(c) => CommandKeepsSound(b, c);
    case Prepares(i, at) => CommandKeepsSound(b, Place(w.threads[i].at.task, at));
    case Ends(_, _, _, _, _, _) => WorkersKeepSound(w, s);
    case TurnsAway(_, _, _) => WorkersKeepSound(w, s);
    case Cuts(i, now) => CommandKeepsSound(b, CutOff(w.threads[i].at.session, Spelled(w.threads[i].at.why), now));
    case Decides(i, before, now) =>
      SettlingStaysSound(b, w.threads[i].at.held, w.threads[i].at.read, before, w.policy, now, w.atOnce);
    case _ =>
  }

  // ---------------------------------------------------------------- what is carried

  function Times(ids: seq<TaskId>, id: TaskId): nat {
    multiset(ids)[id]
  }

  /** How often a thread is about to queue a task, or has it in hand. */
  function CarriedBy(at: Phase, id: TaskId): nat {
    match at
    case Looking(task) => if task == id then 1 else 0
    case Preparing(task) => if task == id then 1 else 0
    case Working(task) => if task == id then 1 else 0
    case Noting(_, _, verdict) => if verdict.Started? then Times(verdict.tasks, id) else 0
    case Queuing(tasks) => Times(tasks, id)
    case _ => 0
  }

  function CarriedAmong(threads: seq<Thread>, n: nat, id: TaskId): nat
    requires n <= |threads|
  {
    if n == 0 then 0 else CarriedAmong(threads, n - 1, id) + CarriedBy(threads[n - 1].at, id)
  }

  /** How many runs of a task there are to carry out: queued, about to be, or in a worker's hands. */
  function Carried(w: World, id: TaskId): nat {
    Times(w.queue, id) + CarriedAmong(w.threads, |w.threads|, id)
  }

  lemma {:induction false} CarriedAfterOne(threads: seq<Thread>, i: nat, t: Thread, n: nat, id: TaskId)
    requires i < |threads| && n <= |threads|
    ensures CarriedAmong(threads[i := t], n, id)
         == CarriedAmong(threads, n, id) + if i < n then CarriedBy(t.at, id) - CarriedBy(threads[i].at, id) else 0
  {
    if n > 0 {
      CarriedAfterOne(threads, i, t, n - 1, id);
    }
  }

  lemma {:induction false} CarriedAfterAnother(threads: seq<Thread>, t: Thread, n: nat, id: TaskId)
    requires n <= |threads|
    ensures CarriedAmong(threads + [t], n, id) == CarriedAmong(threads, n, id)
  {
    if n > 0 {
      CarriedAfterAnother(threads, t, n - 1, id);
    }
  }

  lemma {:induction false} CarriedContains(threads: seq<Thread>, i: nat, n: nat, id: TaskId)
    requires i < n <= |threads|
    ensures CarriedBy(threads[i].at, id) <= CarriedAmong(threads, n, id)
  {
    if i < n - 1 {
      CarriedContains(threads, i, n - 1, id);
    }
  }

  /** What a thread moving on does to what is carried. */
  lemma CarriedOn(w: World, i: nat, at: Phase, id: TaskId)
    requires i < |w.threads|
    ensures CarriedBy(w.threads[i].at, id) <= Carried(w, id)
    ensures Carried(w.Goes(i, at), id) == Carried(w, id) - CarriedBy(w.threads[i].at, id) + CarriedBy(at, id)
  {
    CarriedContains(w.threads, i, |w.threads|, id);
    CarriedAfterOne(w.threads, i, w.threads[i].(at := at), |w.threads|, id);
  }

  /** The runs a step picks up: what a decision assigned. */
  function PickedUp(w: World, s: Step, id: TaskId): nat
    requires Enabled(w, s)
  {
    if s.Decides? then CarriedBy(Next(w, s).threads[s.i].at, id) else 0
  }

  /** And what it puts down: a run that ended, or one a worker found no longer running. */
  function PutDown(w: World, s: Step, id: TaskId): nat
    requires Enabled(w, s)
  {
    if s.Ends? || s.TurnsAway? || (s.Looks? && Next(w, s).threads[s.i].at.Idle?)
    then CarriedBy(w.threads[s.i].at, id)
    else 0
  }

  lemma TakenOff(ids: seq<TaskId>, id: TaskId)
    requires ids != []
    ensures Times(ids, id) == Times(ids[1..], id) + if ids[0] == id then 1 else 0
  {
    assert ids == [ids[0]] + ids[1..];
  }

  lemma ThroughTheQueue(w: World, s: Step, id: TaskId)
    requires Enabled(w, s) && (s.Takes? || s.Queues?)
    ensures Carried(Next(w, s), id) == Carried(w, id)
  {
    CarriedOn(w, s.i, Next(w, s).threads[s.i].at, id);
    if s.Takes? {
      TakenOff(w.queue, id);
    } else if w.threads[s.i].at.tasks != [] {
      TakenOff(w.threads[s.i].at.tasks, id);
    }
  }

  /** Steps one thread takes without touching the queue. */
  predicate OnItsOwn(s: Step) {
    !s.Takes? && !s.Queues? && !s.Opens? && !s.AsksToStop? && !s.Commands?
  }

  lemma BesidesTheThread(w: World, s: Step)
    requires Enabled(w, s) && OnItsOwn(s)
    ensures Next(w, s).queue == w.queue
    ensures s.i < |w.threads| && Next(w, s).threads == w.Goes(s.i, Next(w, s).threads[s.i].at).threads
  {
  }

  lemma WhatAPhaseCarries(w: World, s: Step, id: TaskId)
    requires Enabled(w, s) && OnItsOwn(s)
    ensures s.i < |w.threads|
    ensures PutDown(w, s, id) <= CarriedBy(w.threads[s.i].at, id)
    ensures CarriedBy(Next(w, s).threads[s.i].at, id)
         == CarriedBy(w.threads[s.i].at, id) - PutDown(w, s, id) + PickedUp(w, s, id)
  {
  }

  /** A run is carried from the hold that assigns it until it ends or a worker finds it no longer
      running, whatever passes it from hand to hand between. */
  lemma WhatAStepCarries(w: World, s: Step, id: TaskId)
    requires Enabled(w, s)
    ensures PutDown(w, s, id) <= Carried(w, id)
    ensures Carried(Next(w, s), id) == Carried(w, id) - PutDown(w, s, id) + PickedUp(w, s, id)
  {
    if s.Takes? || s.Queues? {
      ThroughTheQueue(w, s, id);
    } else if s.Opens? || s.AsksToStop? {
      CarriedAfterAnother(w.threads, Next(w, s).threads[|w.threads|], |w.threads|, id);
    } else if !s.Commands? {
      BesidesTheThread(w, s);
      WhatAPhaseCarries(w, s, id);
      CarriedOn(w, s.i, Next(w, s).threads[s.i].at, id);
    }
  }
}
