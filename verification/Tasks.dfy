/** A task, what may happen to one, and what is asked of a list of them. Everything here is a value;
    `Backlogs` holds the class that changes one in place, and says what it does in these words. */
module Tasks {
  import opened Wrappers
  import opened Numbers
  import opened Spendings

  type TaskId = U32
  type SessionId = U32

  datatype TaskState = Pending | Running | Completed | Interrupted | Error {
    predicate Ended() {
      Completed? || Interrupted? || Error?
    }
  }

  /** The reason a run held to its ceiling is ended with. */
  const AT_CEILING := "task ceiling"

  datatype Disposition = Applied | Discarded

  datatype Task = Task(
    id: TaskId,
    title: string,
    instruction: string,
    original: Option<string>,
    branch: Option<string>,
    after: Option<TaskId>,
    model: Option<string>,
    repository: string,
    state: TaskState,
    session: Option<SessionId>,
    worktree: Option<string>,
    conversation: Option<string>,
    startedAt: Option<U64>,
    endedAt: Option<U64>,
    reason: Option<string>,
    attempts: U32,
    ceiling: Option<U64>,
    consumed: Observation,
    disposition: Option<Disposition>)
  {
    predicate RunsFor(to: SessionId) {
      session == Some(to) && state.Running?
    }
  }

  /** A task as it is registered, before anything happened to it. */
  function Registered(id: TaskId, title: string, given: string, original: Option<string>, branch: Option<string>,
                      after: Option<TaskId>, model: Option<string>, repository: string): Task
  {
    Task(id, title, given, original, branch, after, model, repository, TaskState.Pending, None, None, None, None, None,
         None, 0, None, NotYet, None)
  }

  // ---------------------------------------------------------------- looking

  /** Where the first task carrying this number is, or the length where none does. */
  function IndexOf(ts: seq<Task>, id: TaskId): (at: nat)
    ensures at <= |ts|
    ensures at < |ts| ==> ts[at].id == id
    ensures forall j :: 0 <= j < at ==> ts[j].id != id
  {
    if ts == [] then 0
    else if ts[0].id == id then 0
    else
      var rest := IndexOf(ts[1..], id);
      assert forall j :: 0 < j < |ts| ==> ts[j] == ts[1..][j - 1];
      1 + rest
  }

  function Find(ts: seq<Task>, id: TaskId): Option<Task> {
    var at := IndexOf(ts, id);
    if at < |ts| then Some(ts[at]) else None
  }

  predicate Has(ts: seq<Task>, id: TaskId) {
    IndexOf(ts, id) < |ts|
  }

  predicate Done(ts: seq<Task>, id: TaskId) {
    Has(ts, id) && ts[IndexOf(ts, id)].state.Completed?
  }

  /** Whether a task of this list may be assigned: it waits, and what it waits for is done. */
  predicate MayStart(ts: seq<Task>, t: Task) {
    t.state.Pending? && (t.after.Some? ==> Done(ts, t.after.value))
  }

  type Candidate = (TaskId, Option<string>)

  /** The first `n` tasks' worth of what may start, in the order they were registered. */
  function WaitingAmong(ts: seq<Task>, n: nat): seq<Candidate>
    requires n <= |ts|
  {
    if n == 0 then []
    else WaitingAmong(ts, n - 1) + if MayStart(ts, ts[n - 1]) then [(ts[n - 1].id, ts[n - 1].model)] else []
  }

  function Waiting(ts: seq<Task>): seq<Candidate> {
    WaitingAmong(ts, |ts|)
  }

  predicate SomePending(ts: seq<Task>) {
    exists i :: 0 <= i < |ts| && ts[i].state.Pending?
  }

  /** Tasks are left and none of them may start. */
  predicate AllBlocked(ts: seq<Task>) {
    Waiting(ts) == [] && SomePending(ts)
  }

  /** How many of the first `n` are running for a session. */
  function RunningAmong(ts: seq<Task>, to: SessionId, n: nat): (count: nat)
    requires n <= |ts|
    ensures count <= n
  {
    if n == 0 then 0 else RunningAmong(ts, to, n - 1) + if ts[n - 1].RunsFor(to) then 1 else 0
  }

  function RunningIn(ts: seq<Task>, to: SessionId): nat {
    RunningAmong(ts, to, |ts|)
  }

  /** The room one task's run holds against its session's budget. */
  function RoomOf(t: Task, to: SessionId): nat {
    if t.RunsFor(to) && t.ceiling.Some? then t.ceiling.value else 0
  }

  function RoomAmong(ts: seq<Task>, to: SessionId, n: nat): nat
    requires n <= |ts|
  {
    if n == 0 then 0 else RoomAmong(ts, to, n - 1) + RoomOf(ts[n - 1], to)
  }

  /** What the runs going are allowed to take together, summed in 64 bits. */
  function BookedIn(ts: seq<Task>, to: SessionId): U64 {
    Wrap64(RoomAmong(ts, to, |ts|))
  }

  function CountedAmong(ts: seq<Task>, to: SessionId, n: nat): seq<Consumption>
    requires n <= |ts|
  {
    if n == 0 then []
    else CountedAmong(ts, to, n - 1)
         + if ts[n - 1].session == Some(to) && ts[n - 1].consumed.Spent? then [ts[n - 1].consumed.spent] else []
  }

  /** What a session's own tasks reported, in the order they were registered. */
  function CountedIn(ts: seq<Task>, to: SessionId): seq<Consumption> {
    CountedAmong(ts, to, |ts|)
  }

  /** Whether a task the session took has a count nobody could read. */
  predicate Unread(ts: seq<Task>, to: SessionId) {
    exists i :: 0 <= i < |ts| && ts[i].session == Some(to) && ts[i].consumed.Unreadable?
  }

  // ---------------------------------------------------------------- changing

  /** Takes the task at a place out, and hands what it waited for to whatever waited for it. */
  function Spliced(ts: seq<Task>, at: nat): (us: seq<Task>)
    requires at < |ts|
    ensures |us| == |ts| - 1
  {
    var kept := ts[..at] + ts[at + 1..];
    seq(|kept|, i requires 0 <= i < |kept| =>
      if kept[i].after == Some(ts[at].id) then kept[i].(after := ts[at].after) else kept[i])
  }

  function Handed(t: Task, to: SessionId, ceiling: U64, now: U64, fallback: Option<string>): Task {
    t.(state := TaskState.Running, session := Some(to), ceiling := Some(ceiling), attempts := Next32(t.attempts),
       model := if t.model.None? then fallback else t.model, startedAt := Some(now), endedAt := None)
  }

  predicate Assignable(ts: seq<Task>, id: TaskId) {
    exists i :: 0 <= i < |ts| && ts[i].id == id && ts[i].state.Pending?
  }

  /** Where the first waiting task carrying this number is. */
  function PendingIndexOf(ts: seq<Task>, id: TaskId): (at: nat)
    ensures at <= |ts|
    ensures at < |ts| ==> ts[at].id == id && ts[at].state.Pending?
    ensures forall j :: 0 <= j < at ==> !(ts[j].id == id && ts[j].state.Pending?)
  {
    if ts == [] then 0
    else if ts[0].id == id && ts[0].state.Pending? then 0
    else
      var rest := PendingIndexOf(ts[1..], id);
      assert forall j :: 0 < j < |ts| ==> ts[j] == ts[1..][j - 1];
      1 + rest
  }

  function Assign(ts: seq<Task>, id: TaskId, to: SessionId, ceiling: U64, now: U64,
                  fallback: Option<string>): (us: seq<Task>)
    ensures |us| == |ts|
  {
    var at := PendingIndexOf(ts, id);
    if at == |ts| then ts else ts[at := Handed(ts[at], to, ceiling, now, fallback)]
  }

  function Placed(ts: seq<Task>, id: TaskId, at: string): (us: seq<Task>)
    ensures |us| == |ts|
  {
    seq(|ts|, i requires 0 <= i < |ts| => if ts[i].id == id then ts[i].(worktree := Some(at)) else ts[i])
  }

  function Finish(ts: seq<Task>, id: TaskId, state: TaskState, reason: Option<string>, now: U64): (us: seq<Task>)
    ensures |us| == |ts|
  {
    seq(|ts|, i requires 0 <= i < |ts| =>
      if ts[i].id == id && ts[i].state.Running?
      then ts[i].(state := state, reason := reason, endedAt := Some(now))
      else ts[i])
  }

  function Record(ts: seq<Task>, id: TaskId, consumed: Observation): (us: seq<Task>)
    ensures |us| == |ts|
  {
    seq(|ts|, i requires 0 <= i < |ts| => if ts[i].id == id then ts[i].(consumed := consumed) else ts[i])
  }

  function Converse(ts: seq<Task>, id: TaskId, conversation: Option<string>): (us: seq<Task>)
    ensures |us| == |ts|
  {
    var at := IndexOf(ts, id);
    if at == |ts| then ts else ts[at := ts[at].(conversation := conversation)]
  }

  /** Puts a task the vendor turned away back where it was. Whatever state it is in, as the source has it. */
  function WaitAgain(ts: seq<Task>, id: TaskId, now: U64): (us: seq<Task>)
    ensures |us| == |ts|
  {
    seq(|ts|, i requires 0 <= i < |ts| =>
      if ts[i].id == id
      then ts[i].(state := TaskState.Pending, reason := None, endedAt := Some(now))
      else ts[i])
  }

  /** A task that ended, waiting once more, with or without the conversation its last run left. */
  function Requeued(t: Task, afresh: bool): Task {
    t.(state := TaskState.Pending, reason := None, ceiling := None, disposition := None,
       conversation := if afresh then None else t.conversation)
  }

  predicate Retriable(ts: seq<Task>, id: TaskId) {
    Has(ts, id) && ts[IndexOf(ts, id)].state.Ended()
  }

  function Retry(ts: seq<Task>, id: TaskId, afresh: bool): (us: seq<Task>)
    requires Retriable(ts, id)
    ensures |us| == |ts|
  {
    ts[IndexOf(ts, id) := Requeued(ts[IndexOf(ts, id)], afresh)]
  }

  function Interrupt(ts: seq<Task>, to: SessionId, reason: string, now: U64): (us: seq<Task>)
    ensures |us| == |ts|
  {
    seq(|ts|, i requires 0 <= i < |ts| =>
      if ts[i].RunsFor(to)
      then ts[i].(state := TaskState.Interrupted, reason := Some(reason), endedAt := Some(now))
      else ts[i])
  }

  /** The numbers of the first `n` that are running for a session. */
  function CutAmong(ts: seq<Task>, to: SessionId, n: nat): seq<TaskId>
    requires n <= |ts|
  {
    if n == 0 then [] else CutAmong(ts, to, n - 1) + if ts[n - 1].RunsFor(to) then [ts[n - 1].id] else []
  }

  // ---------------------------------------------------------------- what the questions mean

  /** Where the tasks that may start stand, from the front. */
  ghost function PlacesAmong(ts: seq<Task>, n: nat): (places: seq<nat>)
    requires n <= |ts|
    ensures |places| == |WaitingAmong(ts, n)|
    ensures forall k :: 0 <= k < |places| ==> places[k] < n && MayStart(ts, ts[places[k]])
    ensures forall k, l :: 0 <= k < l < |places| ==> places[k] < places[l]
  {
    if n == 0 then []
    else PlacesAmong(ts, n - 1) + if MayStart(ts, ts[n - 1]) then [n - 1] else []
  }

  lemma {:induction false} WhoWaitsAt(ts: seq<Task>, n: nat, k: nat)
    requires n <= |ts| && k < |WaitingAmong(ts, n)|
    ensures WaitingAmong(ts, n)[k] == (ts[PlacesAmong(ts, n)[k]].id, ts[PlacesAmong(ts, n)[k]].model)
  {
    if k < |WaitingAmong(ts, n - 1)| {
      WhoWaitsAt(ts, n - 1, k);
    }
  }

  lemma {:induction false} WhoMayStartWaits(ts: seq<Task>, n: nat, i: nat)
    requires i < n <= |ts| && MayStart(ts, ts[i])
    ensures i in PlacesAmong(ts, n)
  {
    if i < n - 1 {
      WhoMayStartWaits(ts, n - 1, i);
    }
  }

  /** The list a decision is made over is the tasks that may start, each once, in the order they
      were registered. */
  lemma WaitingIsWhatMayStart(ts: seq<Task>, n: nat)
    requires n <= |ts|
    ensures forall k :: 0 <= k < |WaitingAmong(ts, n)| ==>
              WaitingAmong(ts, n)[k] == (ts[PlacesAmong(ts, n)[k]].id, ts[PlacesAmong(ts, n)[k]].model)
    ensures forall i :: 0 <= i < n && MayStart(ts, ts[i]) ==> i in PlacesAmong(ts, n)
  {
    forall k | 0 <= k < |WaitingAmong(ts, n)|
      ensures WaitingAmong(ts, n)[k] == (ts[PlacesAmong(ts, n)[k]].id, ts[PlacesAmong(ts, n)[k]].model)
    {
      WhoWaitsAt(ts, n, k);
    }
    forall i | 0 <= i < n && MayStart(ts, ts[i]) ensures i in PlacesAmong(ts, n) {
      WhoMayStartWaits(ts, n, i);
    }
  }

  lemma NothingWaits(ts: seq<Task>)
    ensures Waiting(ts) == [] <==> forall i :: 0 <= i < |ts| ==> !MayStart(ts, ts[i])
  {
    WaitingIsWhatMayStart(ts, |ts|);
    if Waiting(ts) != [] {
      assert MayStart(ts, ts[PlacesAmong(ts, |ts|)[0]]);
    }
  }

  lemma {:induction false} SomethingRuns(ts: seq<Task>, to: SessionId, n: nat)
    requires n <= |ts|
    ensures RunningAmong(ts, to, n) > 0 <==> exists i :: 0 <= i < n && ts[i].RunsFor(to)
  {
    if n > 0 {
      SomethingRuns(ts, to, n - 1);
    }
  }
}
