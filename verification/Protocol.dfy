/** The daemon as a state machine. A step is one hold of one store, or one look at the queue, by one
    thread; anything may happen between two of them. What the vendor, the clock and the agent answer is
    a parameter of the step that asked. */
module Protocol {
  import opened Wrappers
  import opened Numbers
  import opened Spendings
  import opened Tasks
  import opened Graph
  import opened Closure
  import opened SessionValues
  import opened Decisions
  import opened Settling

  /** Where a thread is between two holds. */
  datatype Phase =
    | Idle
    // a worker with a task off the queue
    | Looking(task: TaskId)
    | Preparing(task: TaskId)
    | Working(task: TaskId)
    // whoever owes a session a decision
    | Measuring(session: SessionId)
    | Asking(session: SessionId)
    | Deferring(session: SessionId, read: Option<Measured>)
    | Deciding(held: Session, read: Option<Measured>)
    | Noting(session: SessionId, spent: Spending, verdict: Verdict)
    | Queuing(tasks: seq<TaskId>)
    // whoever is stopping one
    | Resetting(session: SessionId)
    | Stopping(session: SessionId, why: StoppedReason)
    | Cutting(session: SessionId, why: StoppedReason)

  /** A worker goes back for more once it is idle; a caller is answered. */
  datatype Thread = Thread(hand: bool, at: Phase)

  datatype World = World(
    atOnce: nat,
    policy: Policy,
    backlog: Shelf,
    nextSession: U32,
    sessions: seq<Session>,
    queue: seq<TaskId>,
    threads: seq<Thread>)
  {
    predicate At(i: nat, at: Phase) {
      i < |threads| && threads[i].at == at
    }

    function Goes(i: nat, at: Phase): World
      requires i < |threads|
    {
      this.(threads := threads[i := threads[i].(at := at)])
    }

    function Holding(tasks: seq<Task>): World {
      this.(backlog := backlog.(tasks := tasks))
    }
  }

  datatype Step =
    // from outside
    | Commands(command: Command)
    | Opens(budget: Budget, model: Option<string>, used: U64, now: U64)
    | AsksToStop(session: SessionId, why: StoppedReason)
    // a worker
    | Takes(i: nat)
    | Looks(i: nat)
    | Prepares(i: nat, at: string)
    | Ends(i: nat, state: TaskState, reason: Option<string>, conversation: Option<string>, consumed: Observation,
           now: U64)
    | TurnsAway(i: nat, consumed: Observation, now: U64)
    | Resets(i: nat, startsOver: Option<U64>)
    // whoever decides
    | Measures(i: nat)
    | Asks(i: nat, reading: Option<(U64, Option<U64>)>, now: U64)
    | Reads(i: nat)
    | Decides(i: nat, before: Figures, now: U64)
    | Notes(i: nat, now: U64)
    | Queues(i: nat)
    // whoever stops
    | Stops(i: nat, now: U64)
    | Cuts(i: nat, now: U64)

  /** The commands a person gives about tasks. The others on the list are the daemon's own steps. */
  predicate FromAPerson(c: Command) {
    c.Register? || c.Remove? || c.Requeue?
  }

  /** The task a worker is at, and whether a run of it can end here. */
  predicate Carrying(at: Phase) {
    at.Preparing? || at.Working?
  }

  /** How a run in a worker's hands can end. One with nowhere to work fails for a reason and consumed nothing,
      and so does one whose agent gave no answer. An answer says what was consumed, or why that does not
      read: a run that finished says no more, and the only one interrupted is one held to its ceiling. */
  predicate EndsAs(at: Phase, state: TaskState, reason: Option<string>, conversation: Option<string>,
                   consumed: Observation): (so: bool)
    ensures so ==> Carrying(at) && state.Ended()
  {
    match state
    case Completed => at.Working? && !consumed.NotYet? && reason == None && conversation == None
    case Interrupted => at.Working? && !consumed.NotYet? && reason == Some(AT_CEILING)
    case Error =>
      if consumed.NotYet? then Carrying(at) && reason.Some? && conversation == None else at.Working?
    case _ => false
  }

  predicate Enabled(w: World, s: Step) {
    match s
    case Commands(c) => FromAPerson(c) && (c.Register? ==> w.backlog.nextId < U32_MAX)
    case Opens(_, _, _, _) => RunningAt(w.sessions) == |w.sessions| && w.nextSession < U32_MAX
    case AsksToStop(session, _) => Keeps(w.sessions, session)
    case Takes(i) => i < |w.threads| && w.threads[i] == Thread(true, Idle) && w.queue != []
    case Looks(i) => i < |w.threads| && w.threads[i].at.Looking?
    case Prepares(i, _) => i < |w.threads| && w.threads[i].at.Preparing?
    case Ends(i, state, reason, conversation, consumed, _) =>
      i < |w.threads| && EndsAs(w.threads[i].at, state, reason, conversation, consumed)
    case TurnsAway(i, consumed, _) => i < |w.threads| && w.threads[i].at.Working? && !consumed.NotYet?
    case Resets(i, _) => i < |w.threads| && w.threads[i].at.Resetting?
    case Measures(i) => i < |w.threads| && w.threads[i].at.Measuring?
    case Asks(i, _, _) => i < |w.threads| && w.threads[i].at.Asking?
    case Reads(i) => i < |w.threads| && w.threads[i].at.Deferring?
    case Decides(i, _, _) => i < |w.threads| && w.threads[i].at.Deciding?
    case Notes(i, _) => i < |w.threads| && w.threads[i].at.Noting?
    case Queues(i) => i < |w.threads| && w.threads[i].at.Queuing?
    case Stops(i, _) => i < |w.threads| && w.threads[i].at.Stopping?
    case Cuts(i, _) => i < |w.threads| && w.threads[i].at.Cutting?
  }

  /** What the worker whose run ended does next: the session its task names is owed a decision. */
  function AfterARun(ts: seq<Task>, id: TaskId): Phase {
    if Has(ts, id) && ts[IndexOf(ts, id)].session.Some? then Measuring(ts[IndexOf(ts, id)].session.value) else Idle
  }

  function AfterTurningAway(ts: seq<Task>, id: TaskId): Phase {
    if Has(ts, id) && ts[IndexOf(ts, id)].session.Some? then Resetting(ts[IndexOf(ts, id)].session.value) else Idle
  }

  /** A session read before a decision, as the store holds it. */
  function HeldAs(ss: seq<Session>, id: SessionId): Session
    requires Keeps(ss, id)
  {
    ss[IndexOfSession(ss, id)]
  }

  /** What measuring starts with: a share is asked of the vendor, and a count is not. */
  function AfterMeasuring(ss: seq<Session>, id: SessionId): Phase {
    if !Runs(ss, id) then Deferring(id, None)
    else if HeldAs(ss, id).budget.usage.InTokens? then Deferring(id, Some(Measured(Tokens(0), None)))
    else if HeldAs(ss, id).limitAtStart.None? then Idle
    else Asking(id)
  }

  function AfterAsking(ss: seq<Session>, id: SessionId, reading: Option<(U64, Option<U64>)>, now: U64): Phase {
    if reading.None? || !Keeps(ss, id) then Deferring(id, None)
    else Deferring(id, Some(LookedAt(HeldAs(ss, id), reading.value.0, reading.value.1, now).1))
  }

  function AfterNoting(session: SessionId, verdict: Verdict): Phase {
    match verdict
    case Halting(why) => Stopping(session, why)
    case Started(tasks) => Queuing(tasks)
  }

  function Next(w: World, s: Step): World
    requires Enabled(w, s)
  {
    var ts, ss := w.backlog.tasks, w.sessions;
    match s
    case Commands(c) => w.(backlog := Apply(w.backlog, c))
    case Opens(budget, model, used, now) =>
      var opening := Opening(budget, model, now, if budget.usage.InShare? then Some(used) else None);
      w.(sessions := ss + [Opened(w.nextSession, opening)], nextSession := w.nextSession + 1,
         threads := w.threads + [Thread(false, Measuring(w.nextSession))])
    case AsksToStop(session, why) => w.(threads := w.threads + [Thread(false, Stopping(session, why))])
    case Takes(i) => w.Goes(i, Looking(w.queue[0])).(queue := w.queue[1..])
    case Looks(i) =>
      var id := w.threads[i].at.task;
      w.Goes(i, if Has(ts, id) && ts[IndexOf(ts, id)].state.Running? then Preparing(id) else Idle)
    case Prepares(i, at) =>
      var id := w.threads[i].at.task;
      w.Goes(i, Working(id)).Holding(Placed(ts, id, at))
    case Ends(i, state, reason, conversation, consumed, now) =>
      var id := w.threads[i].at.task;
      var us := Ended(ts, id, state, reason, conversation, consumed, now);
      w.Goes(i, AfterARun(us, id)).Holding(us)
    case TurnsAway(i, consumed, now) =>
      var id := w.threads[i].at.task;
      var us := TurnedAway(ts, id, consumed, now);
      w.Goes(i, AfterTurningAway(us, id)).Holding(us)
    case Resets(i, startsOver) =>
      var id := w.threads[i].at.session;
      w.Goes(i, Stopping(id, VendorLimit))
      .(sessions := if startsOver.Some? then Reset(ss, id, startsOver.value) else ss)
    case Measures(i) => w.Goes(i, AfterMeasuring(ss, w.threads[i].at.session))
    case Asks(i, reading, now) =>
      var id := w.threads[i].at.session;
      w.Goes(i, AfterAsking(ss, id, reading, now))
       .(sessions := if reading.Some? then Look(ss, id, reading.value.0, reading.value.1, now) else ss)
    case Reads(i) =>
      var id, read := w.threads[i].at.session, w.threads[i].at.read;
      w.Goes(i, if Runs(ss, id) then Deciding(HeldAs(ss, id), read) else Idle)
    case Decides(i, before, now) =>
      var held, read := w.threads[i].at.held, w.threads[i].at.read;
      var (us, verdict) := Settle(ts, held, read, before, w.policy, now, w.atOnce);
      w.Goes(i, Noting(held.id, SpentBy(ts, held, read), verdict)).Holding(us)
    case Notes(i, now) =>
      var at := w.threads[i].at;
      w.Goes(i, AfterNoting(at.session, at.verdict)).(sessions := Note(ss, at.session, at.spent, now))
    case Queues(i) =>
      var tasks := w.threads[i].at.tasks;
      if tasks == [] then w.Goes(i, Idle) else w.Goes(i, Queuing(tasks[1..])).(queue := w.queue + [tasks[0]])
    case Stops(i, now) =>
      var at := w.threads[i].at;
      w.Goes(i, Cutting(at.session, at.why)).(sessions := Halt(ss, at.session, at.why, now))
    case Cuts(i, now) =>
      var at := w.threads[i].at;
      w.Goes(i, Idle).Holding(Interrupt(ts, at.session, Spelled(at.why), now))
  }

  /** A daemon just started over empty stores. */
  function NewDaemon(atOnce: nat, policy: Policy): World {
    World(atOnce, policy, EMPTY, 1, [], [], seq(atOnce, _ => Thread(true, Idle)))
  }

  predicate CanRun(w: World, steps: seq<Step>)
    decreases steps
  {
    steps == [] || (Enabled(w, steps[0]) && CanRun(Next(w, steps[0]), steps[1..]))
  }

  function Ran(w: World, steps: seq<Step>): World
    requires CanRun(w, steps)
    decreases steps
  {
    if steps == [] then w else Ran(Next(w, steps[0]), steps[1..])
  }
}
