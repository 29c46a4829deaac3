/** Every backlog the commands reach is one the core can read back, and no number is handed out twice. */
module Closure {
  import opened Wrappers
  import opened Numbers
  import opened Spendings
  import opened Tasks
  import opened Graph

  /** The backlog as one value. */
  datatype Shelf = Shelf(nextId: U32, tasks: seq<Task>)

  const EMPTY := Shelf(1, [])

  /** One hold of the backlog, by whoever takes it. */
  datatype Command =
    | Register(title: string, given: string, original: Option<string>, branch: Option<string>, after: Option<TaskId>,
               model: Option<string>, repository: string)
    | Remove(id: TaskId)
    | Requeue(id: TaskId, afresh: bool)
    | Assign(id: TaskId, to: SessionId, ceiling: U64, now: U64, fallback: Option<string>)
    | Place(id: TaskId, at: string)
    | End(id: TaskId, state: TaskState, reason: Option<string>, conversation: Option<string>, consumed: Observation,
          now: U64)
    | TurnAway(id: TaskId, consumed: Observation, now: U64)
    | CutOff(to: SessionId, why: string, now: U64)

  /** A registration is turned back where the predecessor it names is not there. */
  predicate Registers(s: Shelf, c: Command) {
    c.Register? && (c.after.Some? ==> Has(s.tasks, c.after.value))
  }

  function Apply(s: Shelf, c: Command): Shelf {
    match c
    case Register(title, given, original, branch, after, model, repository) =>
      if Registers(s, c)
      then Shelf(Next32(s.nextId), s.tasks + [Registered(s.nextId, title, given, original, branch, after, model,
                                                         repository)])
      else s
    case Remove(id) =>
      if Has(s.tasks, id) && s.tasks[IndexOf(s.tasks, id)].state.Pending?
      then s.(tasks := Spliced(s.tasks, IndexOf(s.tasks, id)))
      else s
    case Requeue(id, afresh) => if Retriable(s.tasks, id) then s.(tasks := Retry(s.tasks, id, afresh)) else s
    case Assign(id, to, ceiling, now, fallback) => s.(tasks := Tasks.Assign(s.tasks, id, to, ceiling, now, fallback))
    case Place(id, at) => s.(tasks := Placed(s.tasks, id, at))
    case End(id, state, reason, conversation, consumed, now) =>
      s.(tasks := Ended(s.tasks, id, state, reason, conversation, consumed, now))
    case TurnAway(id, consumed, now) => s.(tasks := TurnedAway(s.tasks, id, consumed, now))
    case CutOff(to, why, now) => s.(tasks := Interrupt(s.tasks, to, why, now))
  }

  /** What one hold does when a run ends: its task ends, and what it consumed and the conversation it
      was in are written down with it. */
  function Ended(ts: seq<Task>, id: TaskId, state: TaskState, reason: Option<string>, conversation: Option<string>,
                 consumed: Observation, now: U64): (us: seq<Task>)
    ensures |us| == |ts|
  {
    Converse(Record(Finish(ts, id, state, reason, now), id, consumed), id, conversation)
  }

  /** What one hold does when the vendor would not run a task. */
  function TurnedAway(ts: seq<Task>, id: TaskId, consumed: Observation, now: U64): (us: seq<Task>)
    ensures |us| == |ts|
  {
    WaitAgain(Record(ts, id, consumed), id, now)
  }

  function Run(s: Shelf, cs: seq<Command>): Shelf
    decreases cs
  {
    if cs == [] then s else Run(Apply(s, cs[0]), cs[1..])
  }

  /** The numbers a run of commands hands out, in the order it does. */
  function HandedOut(s: Shelf, cs: seq<Command>): seq<TaskId>
    decreases cs
  {
    if cs == [] then []
    else (if Registers(s, cs[0]) then [s.nextId] else []) + HandedOut(Apply(s, cs[0]), cs[1..])
  }

  /** Every number on the list has been handed out already. */
  predicate Fresh(s: Shelf) {
    forall i :: 0 <= i < |s.tasks| ==> s.tasks[i].id < s.nextId
  }

  ghost predicate Sound(s: Shelf) {
    WellFormed(s.tasks) && Fresh(s)
  }

  /** The counter wraps, and the registration that wraps it is the one that stops it being ahead of
      every number on the list. */
  lemma OnlyTheLastNumberWraps(s: Shelf, c: Command)
    requires Fresh(s) && Registers(s, c)
    ensures Fresh(Apply(s, c)) <==> s.nextId < U32_MAX
  {
    var t := Apply(s, c);
    assert t.tasks[|s.tasks|].id == s.nextId;
  }

  /** Nothing but registering and removing changes what waits for what. */
  lemma OtherCommandsKeepTheGraph(s: Shelf, c: Command)
    requires !c.Register? && !c.Remove?
    ensures SameGraph(s.tasks, Apply(s, c).tasks) && Apply(s, c).nextId == s.nextId
  {
    match c
    case End(id, state, reason, conversation, consumed, now) =>
      var ended := Finish(s.tasks, id, state, reason, now);
      assert SameGraph(s.tasks, ended);
      assert SameGraph(ended, Record(ended, id, consumed));
    case TurnAway(id, consumed, now) =>
      assert SameGraph(s.tasks, Record(s.tasks, id, consumed));
    case _ =>
  }

  lemma CommandKeepsSound(s: Shelf, c: Command)
    requires Sound(s) && (Registers(s, c) ==> s.nextId < U32_MAX)
    ensures Sound(Apply(s, c))
    ensures Apply(s, c).nextId == if Registers(s, c) then s.nextId + 1 else s.nextId
  {
    if Registers(s, c) {
      RegisteringStaysWellFormed(s.tasks, Apply(s, c).tasks[|s.tasks|]);
    } else if c.Remove? {
      if Apply(s, c) != s {
        SplicingStaysWellFormed(s.tasks, IndexOf(s.tasks, c.id));
        SplicingKeepsFresh(s, IndexOf(s.tasks, c.id));
      }
    } else if !c.Register? {
      OtherCommandsKeepTheGraph(s, c);
      SameGraphStaysWellFormed(s.tasks, Apply(s, c).tasks);
    }
  }

  lemma SplicingKeepsFresh(s: Shelf, at: nat)
    requires Fresh(s) && at < |s.tasks|
    ensures Fresh(s.(tasks := Spliced(s.tasks, at)))
  {
    forall i | 0 <= i < |s.tasks| - 1 ensures Spliced(s.tasks, at)[i].id == s.tasks[Before(at, i)].id {
    }
  }

  /** From any backlog that adds up, after any commands that leave the counter short of its top, the
      backlog adds up, and the numbers handed out only increase from where the counter stood. */
  lemma {:induction false} CommandsKeepSound(s: Shelf, cs: seq<Command>)
    requires Sound(s) && s.nextId + |HandedOut(s, cs)| <= U32_MAX
    ensures Sound(Run(s, cs)) && Run(s, cs).nextId == s.nextId + |HandedOut(s, cs)|
    ensures forall k :: 0 <= k < |HandedOut(s, cs)| ==> HandedOut(s, cs)[k] == s.nextId + k
    decreases cs
  {
    if cs != [] {
      CommandKeepsSound(s, cs[0]);
      CommandsKeepSound(Apply(s, cs[0]), cs[1..]);
    }
  }

  /** From an empty store: whatever the commands were, what they leave is a backlog `restore`
      accepts, and no two tasks were ever given one number, removed ones included. */
  lemma ReachableBacklogsAreAccepted(cs: seq<Command>)
    requires 1 + |HandedOut(EMPTY, cs)| <= U32_MAX
    ensures WellFormed(Run(EMPTY, cs).tasks)
    ensures forall k, l :: 0 <= k < l < |HandedOut(EMPTY, cs)| ==> HandedOut(EMPTY, cs)[k] != HandedOut(EMPTY, cs)[l]
  {
    assert Ranked(EMPTY.tasks, map[]);
    CommandsKeepSound(EMPTY, cs);
  }
}
