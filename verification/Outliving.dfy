/** A task never outlives its session: over timely runs, whatever runs for a session that has stopped is
    about to be cut off by whoever stopped it. */
module Outliving {
  import opened Wrappers
  import opened Numbers
  import opened Spendings
  import opened Tasks
  import opened Graph
  import opened Closure
  import opened SessionValues
  import opened Decisions
  import opened Settling
  import opened Protocol
  import opened Steps
  import opened NoIdle
  import opened Commitments
  import opened BudgetBound

  predicate SomebodyCuts(w: World, session: SessionId) {
    exists j :: 0 <= j < |w.threads| && w.threads[j].at.Cutting? && w.threads[j].at.session == session
  }

  /** A running task is of a session, and that one runs or is about to be cut. */
  predicate RunsOrIsCut(w: World, t: Task) {
    t.state.Running? ==> t.session.Some? && (Runs(w.sessions, t.session.value) || SomebodyCuts(w, t.session.value))
  }

  predicate NothingOutlives(w: World) {
    forall k :: 0 <= k < |w.backlog.tasks| ==> RunsOrIsCut(w, w.backlog.tasks[k])
  }

  /** Who is about to cut still is after any step but its own cutting. */
  lemma CuttingGoesOn(w: World, s: Step, session: Option<SessionId>)
    requires Enabled(w, s) && session.Some? && SomebodyCuts(w, session.value)
    requires !(s.Cuts? && w.threads[s.i].at.session == session.value)
    ensures SomebodyCuts(Next(w, s), session.value)
  {
    var j :| 0 <= j < |w.threads| && w.threads[j].at.Cutting? && w.threads[j].at.session == session.value;
    assert Next(w, s).threads[j].at == w.threads[j].at;
  }

  lemma DecisionsLeaveThis(w: World, s: Step, k: nat)
    requires Enabled(w, s) && s.Decides? && DecidesInTime(w, s) && Distinct(w.backlog.tasks) && k < |w.backlog.tasks|
    requires RunsOrIsCut(w, w.backlog.tasks[k])
    ensures |Next(w, s).backlog.tasks| == |w.backlog.tasks| && RunsOrIsCut(Next(w, s), Next(w, s).backlog.tasks[k])
  {
    HandedOrNotPickedUp(w, s, k);
    if w.backlog.tasks[k].session.Some? && SomebodyCuts(w, w.backlog.tasks[k].session.value) {
      CuttingGoesOn(w, s, w.backlog.tasks[k].session);
    }
  }

  lemma {:induction false} DecidersCutNothing(w: World, s: Step, session: SessionId)
    requires Enabled(w, s) && s.Decides?
    ensures SomebodyCuts(Next(w, s), session) <==> SomebodyCuts(w, session)
  {
    var v := Next(w, s);
    if j :| 0 <= j < |w.threads| && w.threads[j].at.Cutting? && w.threads[j].at.session == session {
      assert v.threads[j] == w.threads[j];
    }
    if j :| 0 <= j < |v.threads| && v.threads[j].at.Cutting? && v.threads[j].at.session == session {
      assert v.threads[j] == w.threads[j];
    }
  }

  lemma {:induction false} HandedIsOfIt(ts: seq<Task>, us: seq<Task>, taken: seq<Allowance>, to: SessionId, now: U64,
                                        fallback: Option<string>, k: nat)
    requires HandsOver(ts, us, taken, to, now, fallback) && k < |ts|
    ensures us[k] == ts[k] || (taken != [] && us[k].RunsFor(to))
  {
  }

  /** What is handed to a session that has stopped outlives it, unless somebody is about to cut it off. */
  lemma {:induction false} SomethingOutlives(ts: seq<Task>, us: seq<Task>, taken: seq<Allowance>, to: SessionId,
                                             now: U64, fallback: Option<string>)
    returns (k: nat)
    requires HandsOver(ts, us, taken, to, now, fallback) && StillWaiting(ts, taken) && taken != []
    ensures k < |us| && us[k].RunsFor(to)
  {
    k := IndexOf(ts, taken[0].task);
    assert us[k] == HandedOver(ts[k], taken, to, now, fallback);
  }

  /** A decision leaves nothing to outlive its session exactly where the session still runs, or nothing is
      handed over, or somebody who stopped it is still about to cut its tasks off. */
  lemma {:induction false} DecisionsLeaveNothingExactlyWhere(w: World, s: Step) returns (taken: seq<Allowance>)
    requires Enabled(w, s) && s.Decides? && Distinct(w.backlog.tasks) && NothingOutlives(w)
    ensures var held := w.threads[s.i].at.held;
            HandsOver(w.backlog.tasks, Next(w, s).backlog.tasks, taken, held.id, s.now, held.model)
    ensures var id := w.threads[s.i].at.held.id;
            NothingOutlives(Next(w, s)) <==> Runs(w.sessions, id) || taken == [] || SomebodyCuts(w, id)
  {
    var held, v := w.threads[s.i].at.held, Next(w, s);
    taken := HandedOutOfWhatIsFree(w, s);
    DecidingLeavesSessions(w, s);
    DecidersCutNothing(w, s, held.id);
    if Runs(w.sessions, held.id) || taken == [] || SomebodyCuts(w, held.id) {
      forall k | 0 <= k < |v.backlog.tasks| ensures RunsOrIsCut(v, v.backlog.tasks[k]) {
        HandedIsOfIt(w.backlog.tasks, v.backlog.tasks, taken, held.id, s.now, held.model, k);
        StillRunsOrIsCut(w, s, k);
      }
    } else {
      var k := SomethingOutlives(w.backlog.tasks, v.backlog.tasks, taken, held.id, s.now, held.model);
      assert !RunsOrIsCut(v, v.backlog.tasks[k]);
    }
  }

  lemma {:induction false} StillRunsOrIsCut(w: World, s: Step, k: nat)
    requires Enabled(w, s) && s.Decides? && k < |w.backlog.tasks| && RunsOrIsCut(w, w.backlog.tasks[k])
    ensures RunsOrIsCut(Next(w, s), w.backlog.tasks[k])
  {
    DecidingLeavesSessions(w, s);
    if w.backlog.tasks[k].session.Some? {
      DecidersCutNothing(w, s, w.backlog.tasks[k].session.value);
    }
  }

  /** A stop leaves whoever stopped about to cut; no other step but its own cutting stops a session, or
      leaves one that has stopped with a task running that was not. */
  lemma OthersLeaveThis(w: World, s: Step, k: nat, was: nat)
    requires Enabled(w, s) && !s.Decides? && SessionsSound(w) && TasksKnown(w)
    requires was < |w.backlog.tasks| && k < |Next(w, s).backlog.tasks|
    requires RunsOrIsCut(w, w.backlog.tasks[was]) && w.backlog.tasks[was].state.Running?
    requires Next(w, s).backlog.tasks[k].session == w.backlog.tasks[was].session
    requires Next(w, s).backlog.tasks[k].state.Running?
    ensures RunsOrIsCut(Next(w, s), Next(w, s).backlog.tasks[k])
  {
    var session := w.backlog.tasks[was].session.value;
    assert Known(w.sessions, w.backlog.tasks[was].session);
    if SomebodyCuts(w, session) {
      CutOrCuttingGoesOn(w, s, k, session);
    } else {
      StoppedOrRunsOn(w, s, session);
    }
  }

  lemma CutOrCuttingGoesOn(w: World, s: Step, k: nat, session: SessionId)
    requires Enabled(w, s) && !s.Decides? && SomebodyCuts(w, session)
    requires k < |Next(w, s).backlog.tasks| && Next(w, s).backlog.tasks[k].RunsFor(session)
    ensures SomebodyCuts(Next(w, s), session)
  {
    CuttingGoesOn(w, s, Some(session));
  }

  lemma StoppedOrRunsOn(w: World, s: Step, session: SessionId)
    requires Enabled(w, s) && Runs(w.sessions, session)
    ensures Runs(Next(w, s).sessions, session) || SomebodyCuts(Next(w, s), session)
  {
    SessionsOnlyGrow(w, s);
    GrownFinds(w.sessions, Next(w, s).sessions, session);
    if s.Stops? && w.threads[s.i].at.session == session {
      assert Next(w, s).threads[s.i].at.Cutting? && Next(w, s).threads[s.i].at.session == session;
    }
  }

  lemma StepsLeaveNothing(w: World, s: Step)
    requires Enabled(w, s) && DecidesInTime(w, s) && Sound(w.backlog) && SessionsSound(w) && TasksKnown(w)
    requires NothingOutlives(w)
    ensures NothingOutlives(Next(w, s))
  {
    var v := Next(w, s);
    forall k | 0 <= k < |v.backlog.tasks| ensures RunsOrIsCut(v, v.backlog.tasks[k]) {
      if s.Decides? {
        AsMany(w, s);
        DecisionsLeaveThis(w, s, k);
      } else if v.backlog.tasks[k].state.Running? {
        StillRunsSince(w, s, k);
      }
    }
  }

  lemma AsMany(w: World, s: Step)
    requires Enabled(w, s) && s.Decides?
    ensures |Next(w, s).backlog.tasks| == |w.backlog.tasks|
  {
  }

  lemma StillRunsSince(w: World, s: Step, k: nat)
    requires Enabled(w, s) && !s.Decides? && SessionsSound(w) && TasksKnown(w) && NothingOutlives(w)
    requires k < |Next(w, s).backlog.tasks| && Next(w, s).backlog.tasks[k].state.Running?
    ensures RunsOrIsCut(Next(w, s), Next(w, s).backlog.tasks[k])
  {
    var was := WhereItRan(w, s, k);
    assert RunsOrIsCut(w, w.backlog.tasks[was]);
    OthersLeaveThis(w, s, k, was);
  }

  /** What runs after a step that does not decide ran before it, for the same session. */
  lemma WhereItRan(w: World, s: Step, k: nat) returns (was: nat)
    requires Enabled(w, s) && !s.Decides? && k < |Next(w, s).backlog.tasks|
    requires Next(w, s).backlog.tasks[k].state.Running?
    ensures was < |w.backlog.tasks| && w.backlog.tasks[was].state.Running?
    ensures Next(w, s).backlog.tasks[k].session == w.backlog.tasks[was].session
  {
    was := WhereATaskWas(w, s, k);
    if s.Ends? || s.TurnsAway? {
      WorkersLeaveOthers(w, s, k);
    }
  }

  lemma {:induction false} RunsLeaveNothing(w: World, steps: seq<Step>)
    requires CanRun(w, steps) && AllDecideInTime(w, steps) && Sound(w.backlog) && Kept(w) && NothingOutlives(w)
    ensures NothingOutlives(Ran(w, steps))
    decreases steps
  {
    if steps != [] {
      StepsKeep(w, steps[0]);
      StepsLeaveNothing(w, steps[0]);
      RunsLeaveNothing(Next(w, steps[0]), steps[1..]);
    }
  }

  /** After any timely run of the daemon from its start, a task that runs is of a session that runs too, or
      that somebody who stopped it is about to cut; so once nobody is, no session that has stopped has a
      task running. */
  lemma NoTaskOutlivesItsSession(atOnce: nat, policy: Policy, steps: seq<Step>)
    requires atOnce > 0 && CanRun(NewDaemon(atOnce, policy), steps) && AllDecideInTime(NewDaemon(atOnce, policy), steps)
    ensures NothingOutlives(Ran(NewDaemon(atOnce, policy), steps))
  {
    ADaemonStartsKept(atOnce, policy);
    RunsLeaveNothing(NewDaemon(atOnce, policy), steps);
  }
}
