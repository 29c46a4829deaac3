/** What a session is committed to, and the runs that commit it: one to a task, and while the session
    runs, exactly its running tasks. */
module Commitments {
  import opened Wrappers
  import opened Numbers
  import opened Spendings
  import opened Tasks
  import opened Graph
  import opened Closure
  import opened SessionValues
  import opened Decisions
  import opened Settling
  import opened Protocol
  import opened Steps
  import opened NoIdle

  // ---------------------------------------------------------------- what a session is committed to

  function CountOf(consumed: Observation): nat {
    if consumed.Spent? then consumed.spent.Exactly() else 0
  }

  function CeilingOf(t: Task): nat {
    if t.ceiling.Some? then t.ceiling.value else 0
  }

  /** What one task holds against a session: what it reported, and the whole ceiling of a run of it that
      is queued, about to be, or in a worker's hands, whatever state the task is in by then. */
  function HoldsAgainst(w: World, session: SessionId, t: Task): nat {
    if t.session == Some(session) then CountOf(t.consumed) + if Carried(w, t.id) > 0 then CeilingOf(t) else 0 else 0
  }

  function CommittedAmong(w: World, session: SessionId, n: nat): nat
    requires n <= |w.backlog.tasks|
  {
    if n == 0 then 0 else CommittedAmong(w, session, n - 1) + HoldsAgainst(w, session, w.backlog.tasks[n - 1])
  }

  function Committed(w: World, session: SessionId): nat {
    CommittedAmong(w, session, |w.backlog.tasks|)
  }

  // ---------------------------------------------------------------- one run to a task

  /** A decision is made for a session that is still running when the backlog is held, which is what taking
      it in one step with the reading of the session would give. */
  predicate DecidesInTime(w: World, s: Step) {
    s.Decides? && s.i < |w.threads| && w.threads[s.i].at.Deciding? ==> Runs(w.sessions, w.threads[s.i].at.held.id)
  }

  /** A person retries a task only once no run of it is left to carry. */
  predicate RetriesInTime(w: World, s: Step) {
    s.Commands? && s.command.Requeue? ==> Carried(w, s.command.id) == 0
  }

  predicate Timely(w: World, s: Step) {
    DecidesInTime(w, s) && RetriesInTime(w, s)
  }

  predicate OneRunEach(w: World) {
    && (forall id: TaskId :: Carried(w, id) <= 1)
    && (forall id: TaskId :: Carried(w, id) > 0 ==> Has(w.backlog.tasks, id))
    && (forall k :: 0 <= k < |w.backlog.tasks| && w.backlog.tasks[k].state.Pending? ==>
          Carried(w, w.backlog.tasks[k].id) == 0)
  }

  lemma {:induction false} NamedOnce(allowed: seq<Allowance>, id: TaskId)
    requires forall k, l :: 0 <= k < l < |allowed| ==> allowed[k].task != allowed[l].task
    ensures Times(Named(allowed), id) == if NamedAt(allowed, id) < |allowed| then 1 else 0
  {
    if allowed != [] {
      var front, last := allowed[..|allowed| - 1], allowed[|allowed| - 1];
      NamedOnce(front, id);
      assert forall k :: 0 <= k < |front| ==> front[k] == allowed[k];
      assert allowed == front + [last];
      NamedLast(front, last, id);
    }
  }

  lemma NamedIsHandedOver(ts: seq<Task>, us: seq<Task>, taken: seq<Allowance>, to: SessionId, now: U64,
                          fallback: Option<string>, id: TaskId)
    requires HandsOver(ts, us, taken, to, now, fallback) && StillWaiting(ts, taken)
    ensures Times(Named(taken), id) <= 1
    ensures Times(Named(taken), id) == 1 ==>
              Has(ts, id) && |us| == |ts| && ts[IndexOf(ts, id)].state.Pending? && us[IndexOf(ts, id)].RunsFor(to)
  {
    NamedOnce(taken, id);
    if NamedAt(taken, id) < |taken| {
      assert us[IndexOf(ts, id)] == HandedOver(ts[IndexOf(ts, id)], taken, to, now, fallback);
    }
  }

  /** What a decision picks up is what it handed over, once each. */
  lemma PickedUpIsHandedOver(w: World, s: Step, id: TaskId)
    requires Enabled(w, s) && s.Decides? && Distinct(w.backlog.tasks)
    ensures PickedUp(w, s, id) <= 1
    ensures PickedUp(w, s, id) == 1 ==>
              Has(w.backlog.tasks, id) && w.backlog.tasks[IndexOf(w.backlog.tasks, id)].state.Pending?
              && Next(w, s).backlog.tasks[IndexOf(w.backlog.tasks, id)].RunsFor(w.threads[s.i].at.held.id)
  {
    var held := w.threads[s.i].at.held;
    var taken := WhatADecisionHandsOver(w, s, id);
    NamedIsHandedOver(w.backlog.tasks, Next(w, s).backlog.tasks, taken, held.id, s.now, held.model, id);
  }

  lemma DecisionsKeepOneRunEach(w: World, s: Step)
    requires Enabled(w, s) && s.Decides? && Distinct(w.backlog.tasks) && OneRunEach(w)
    ensures OneRunEach(Next(w, s))
  {
    var ts, us := w.backlog.tasks, Next(w, s).backlog.tasks;
    forall k | 0 <= k < |us| ensures us[k].id == ts[k].id && (us[k].state.Pending? ==> us[k] == ts[k]) {
      DecidingCarriesWhatItStarts(w, s, k);
      if us[k] != ts[k] {
        PickedUpIsHandedOver(w, s, ts[k].id);
        assert IndexOf(ts, ts[k].id) == k;
      }
    }
    forall id: TaskId
      ensures Carried(Next(w, s), id) <= 1
      ensures Carried(Next(w, s), id) > 0 ==> Has(us, id)
      ensures PickedUp(w, s, id) > 0 ==> Has(ts, id) && !us[IndexOf(ts, id)].state.Pending?
      ensures Carried(Next(w, s), id) == Carried(w, id) + PickedUp(w, s, id)
    {
      WhatAStepCarries(w, s, id);
      PickedUpIsHandedOver(w, s, id);
      if Has(ts, id) {
        assert us[IndexOf(ts, id)].id == id;
      }
    }
    forall k | 0 <= k < |us| && us[k].state.Pending? ensures Carried(Next(w, s), us[k].id) == 0 {
      assert IndexOf(ts, ts[k].id) == k;
    }
  }

  /** What is left waiting by any other step was waiting before, or its run is what that step ended, or it
      was retried, or is new. */
  lemma WaitsBecause(w: World, s: Step, k: nat)
    requires Enabled(w, s) && !s.Decides? && k < |Next(w, s).backlog.tasks|
    requires Next(w, s).backlog.tasks[k].state.Pending?
    ensures var id := Next(w, s).backlog.tasks[k].id;
            || (exists was :: 0 <= was < |w.backlog.tasks| &&
                  w.backlog.tasks[was].id == id && w.backlog.tasks[was].state.Pending?)
            || EndsTheRunOf(w, s, id)
            || (s.Commands? && s.command.Requeue? && s.command.id == id)
            || (s.Commands? && s.command.Register? && id == w.backlog.nextId)
  {
    if !(s.Commands? && s.command.Register? && k == |w.backlog.tasks|) {
      var was := WhereATaskWas(w, s, k);
      if s.Ends? {
        var id := w.threads[s.i].at.task;
        var finished := Finish(w.backlog.tasks, id, s.state, s.reason, s.now);
        assert Record(finished, id, s.consumed)[k].state == finished[k].state;
      } else if s.TurnsAway? {
        assert Record(w.backlog.tasks, w.threads[s.i].at.task, s.consumed)[k].state == w.backlog.tasks[k].state;
      }
    }
  }

  lemma WorkKeepsTheGraph(w: World, s: Step)
    requires Enabled(w, s) && !s.Commands? && !s.Decides?
    ensures SameGraph(w.backlog.tasks, Next(w, s).backlog.tasks)
  {
    if s.Ends? || s.TurnsAway? {
      WorkersKeepTheGraph(w, s);
    }
  }

  lemma OnlyWaitingTasksAreRemoved(b: Shelf, c: Command, at: nat)
    requires FromAPerson(c) && Sound(b) && at < |b.tasks| && !b.tasks[at].state.Pending?
    ensures Has(Apply(b, c).tasks, b.tasks[at].id)
  {
    var us, id := Apply(b, c).tasks, b.tasks[at].id;
    if c.Remove? && Apply(b, c) != b {
      var gone := IndexOf(b.tasks, c.id);
      assert us[if at < gone then at else at - 1].id == id;
    } else {
      assert us[at].id == id;
    }
  }

  /** No task with a run to carry leaves the backlog. */
  lemma CarriedStaysThere(w: World, s: Step, id: TaskId)
    requires Enabled(w, s) && !s.Decides? && Sound(w.backlog) && OneRunEach(w) && Carried(w, id) > 0
    ensures Has(Next(w, s).backlog.tasks, id)
  {
    if s.Commands? {
      OnlyWaitingTasksAreRemoved(w.backlog, s.command, IndexOf(w.backlog.tasks, id));
    } else {
      WorkKeepsTheGraph(w, s);
      SameGraphFinds(w.backlog.tasks, Next(w, s).backlog.tasks, id);
    }
  }

  lemma OthersKeepOneRunEach(w: World, s: Step)
    requires Enabled(w, s) && !s.Decides? && Sound(w.backlog) && OneRunEach(w) && RetriesInTime(w, s)
    ensures OneRunEach(Next(w, s))
  {
    var us := Next(w, s).backlog.tasks;
    forall id: TaskId
      ensures Carried(Next(w, s), id) <= Carried(w, id) <= 1
      ensures Carried(Next(w, s), id) > 0 ==> Has(us, id)
      ensures EndsTheRunOf(w, s, id) ==> Carried(Next(w, s), id) == 0
    {
      WhatAStepCarries(w, s, id);
      if Carried(w, id) > 0 {
        CarriedStaysThere(w, s, id);
      }
    }
    forall k | 0 <= k < |us| && us[k].state.Pending? ensures Carried(Next(w, s), us[k].id) == 0 {
      WaitsBecause(w, s, k);
      if us[k].id == w.backlog.nextId {
        assert !Has(w.backlog.tasks, w.backlog.nextId);
      }
    }
  }

  lemma StepsKeepOneRunEach(w: World, s: Step)
    requires Enabled(w, s) && Sound(w.backlog) && OneRunEach(w) && RetriesInTime(w, s)
    ensures OneRunEach(Next(w, s))
  {
    if s.Decides? {
      DecisionsKeepOneRunEach(w, s);
    } else {
      OthersKeepOneRunEach(w, s);
    }
  }

  // ---------------------------------------------------------------- a running session's runs are its running tasks

  /** While a session runs, a task of it with a run to carry is running: only stopping the session
      cuts a task off under its worker. */
  predicate CarriedRuns(w: World) {
    forall k :: 0 <= k < |w.backlog.tasks| ==> CarriedRunsAt(w, w.backlog.tasks[k])
  }

  predicate CarriedRunsAt(w: World, t: Task) {
    Carried(w, t.id) > 0 && t.session.Some? && Runs(w.sessions, t.session.value) ==> t.state.Running?
  }

  lemma DecisionsKeepCarriedRuns(w: World, s: Step)
    requires Enabled(w, s) && s.Decides? && Distinct(w.backlog.tasks) && CarriedRuns(w)
    ensures CarriedRuns(Next(w, s))
  {
    var ts, us := w.backlog.tasks, Next(w, s).backlog.tasks;
    forall k | 0 <= k < |us| ensures CarriedRunsAt(Next(w, s), us[k]) {
      DecidingCarriesWhatItStarts(w, s, k);
      assert IndexOf(ts, ts[k].id) == k;
      WhatAStepCarries(w, s, ts[k].id);
      PickedUpIsHandedOver(w, s, ts[k].id);
      assert CarriedRunsAt(w, ts[k]);
    }
  }

  lemma CommandsKeepCarriedRuns(w: World, s: Step)
    requires Enabled(w, s) && s.Commands? && Sound(w.backlog) && OneRunEach(w) && RetriesInTime(w, s) && CarriedRuns(w)
    ensures CarriedRuns(Next(w, s))
  {
    var us := Next(w, s).backlog.tasks;
    forall k | 0 <= k < |us| ensures CarriedRunsAt(Next(w, s), us[k]) {
      if !(s.command.Register? && k == |w.backlog.tasks|) {
        var was := WhereATaskWas(w, s, k);
        assert CarriedRunsAt(w, w.backlog.tasks[was]);
      }
    }
  }

  /** A task some thread's work changed from running had its run ended, or its session stopped. */
  lemma StopsRunningBecause(w: World, s: Step, k: nat)
    requires Enabled(w, s) && !s.Commands? && !s.Decides? && k < |w.backlog.tasks|
    requires Next(w, s).backlog.tasks[k].id == w.backlog.tasks[k].id
    requires w.backlog.tasks[k].state.Running? && !Next(w, s).backlog.tasks[k].state.Running?
    ensures EndsTheRunOf(w, s, w.backlog.tasks[k].id)
            || (s.Cuts? && w.backlog.tasks[k].session == Some(w.threads[s.i].at.session))
  {
    if s.Ends? {
      var finished := Finish(w.backlog.tasks, w.threads[s.i].at.task, s.state, s.reason, s.now);
      assert Record(finished, w.threads[s.i].at.task, s.consumed)[k].state == finished[k].state;
    }
  }

  lemma WorkKeepsCarriedRuns(w: World, s: Step)
    requires Enabled(w, s) && !s.Commands? && !s.Decides? && Sound(w.backlog) && OneRunEach(w) && CarriedRuns(w)
    requires TasksKnown(w) && ThreadsKnown(w)
    ensures CarriedRuns(Next(w, s))
  {
    WorkKeepsTheGraph(w, s);
    SessionsOnlyGrow(w, s);
    var ts, us := w.backlog.tasks, Next(w, s).backlog.tasks;
    forall k | 0 <= k < |us| ensures CarriedRunsAt(Next(w, s), us[k]) {
      var was := WhereATaskWas(w, s, k);
      WhatAStepCarries(w, s, us[k].id);
      if us[k].session.Some? {
        assert Known(w.sessions, ts[k].session);
        GrownFinds(w.sessions, Next(w, s).sessions, us[k].session.value);
      }
      assert CarriedRunsAt(w, ts[k]);
      if ts[k].state.Running? && !us[k].state.Running? {
        StopsRunningBecause(w, s, k);
        if s.Cuts? {
          assert PhaseKnown(w.sessions, w.threads[s.i].at);
        }
      }
    }
  }

  lemma StepsKeepCarriedRuns(w: World, s: Step)
    requires Enabled(w, s) && Sound(w.backlog) && OneRunEach(w) && RetriesInTime(w, s) && CarriedRuns(w)
    requires TasksKnown(w) && ThreadsKnown(w)
    ensures CarriedRuns(Next(w, s))
  {
    if s.Decides? {
      DecisionsKeepCarriedRuns(w, s);
    } else if s.Commands? {
      CommandsKeepCarriedRuns(w, s);
    } else {
      WorkKeepsCarriedRuns(w, s);
    }
  }
}
