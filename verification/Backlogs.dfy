/** The backlog as the core changes it: one list and one number, updated in place. */
module Backlogs {
  import opened Wrappers
  import opened Numbers
  import opened Spendings
  import opened Tasks
  import opened Graph

  datatype RemovalRefused = NoSuchTask | NotPending

  datatype DisposalRefused = NothingThere | NotEnded

  datatype NotABacklog =
    | RepeatedId(id: TaskId)
    | NoSuchPredecessor(task: TaskId, after: TaskId)
    | Cycle(start: TaskId)

  class Backlog {
    var nextId: U32
    var tasks: seq<Task>

    /** What a store nobody has written reads as. */
    constructor ()
      ensures nextId == 1 && tasks == []
    {
      nextId, tasks := 1, [];
    }

    constructor Holding(nextId: U32, tasks: seq<Task>)
      ensures this.nextId == nextId && this.tasks == tasks
    {
      this.nextId, this.tasks := nextId, tasks;
    }

    method Add(title: string, given: string, original: Option<string>, branch: Option<string>, after: Option<TaskId>,
               model: Option<string>, repository: string)
      returns (registered: Task)
      modifies this
      ensures registered == Registered(old(nextId), title, given, original, branch, after, model, repository)
      ensures tasks == old(tasks) + [registered] && nextId == Next32(old(nextId))
    {
      registered := Registered(nextId, title, given, original, branch, after, model, repository);
      nextId := Next32(nextId);
      tasks := tasks + [registered];
    }

    /** Takes a waiting task out. Whatever waited for it waits for what it waited for, and a backlog
        the core could read stays one. */
    method Remove(id: TaskId) returns (r: Result<Task, RemovalRefused>)
      modifies this
      ensures nextId == old(nextId)
      ensures !Has(old(tasks), id) ==> r == Err(NoSuchTask) && tasks == old(tasks)
      ensures Has(old(tasks), id) && !old(tasks)[IndexOf(old(tasks), id)].state.Pending? ==>
                r == Err(NotPending) && tasks == old(tasks)
      ensures Has(old(tasks), id) && old(tasks)[IndexOf(old(tasks), id)].state.Pending? ==>
                r == Ok(old(tasks)[IndexOf(old(tasks), id)]) && tasks == Spliced(old(tasks), IndexOf(old(tasks), id))
      ensures WellFormed(old(tasks)) ==> WellFormed(tasks) && (r.Ok? ==> !Has(tasks, id))
    {
      var at := IndexOf(tasks, id);
      if at == |tasks| {
        return Err(NoSuchTask);
      }
      if !tasks[at].state.Pending? {
        return Err(NotPending);
      }
      var removed := tasks[at];
      tasks := tasks[..at] + tasks[at + 1..];
      ghost var kept := tasks;
      for i := 0 to |tasks|
        invariant nextId == old(nextId) && |tasks| == |kept|
        invariant forall j :: 0 <= j < i ==> tasks[j] == Spliced(old(tasks), at)[j]
        invariant forall j :: i <= j < |tasks| ==> tasks[j] == kept[j]
      {
        if tasks[i].after == Some(id) {
          tasks := tasks[i := tasks[i].(after := removed.after)];
        }
      }
      assert tasks == Spliced(old(tasks), at);
      if WellFormed(old(tasks)) {
        SplicingStaysWellFormed(old(tasks), at);
      }
      r := Ok(removed);
    }

    method Assign(id: TaskId, to: SessionId, ceiling: U64, now: U64, fallback: Option<string>)
      returns (handedOver: Option<TaskId>)
      modifies this
      ensures nextId == old(nextId)
      ensures tasks == Tasks.Assign(old(tasks), id, to, ceiling, now, fallback)
      ensures handedOver == if Assignable(old(tasks), id) then Some(id) else None
    {
      var at := PendingIndexOf(tasks, id);
      if at == |tasks| {
        return None;
      }
      tasks := tasks[at := Handed(tasks[at], to, ceiling, now, fallback)];
      handedOver := Some(id);
    }

    method WorkArea(id: TaskId, at: string)
      modifies this
      ensures nextId == old(nextId) && tasks == Placed(old(tasks), id, at)
    {
      for i := 0 to |tasks|
        invariant nextId == old(nextId) && |tasks| == |old(tasks)|
        invariant forall j :: 0 <= j < i ==> tasks[j] == Placed(old(tasks), id, at)[j]
        invariant forall j :: i <= j < |tasks| ==> tasks[j] == old(tasks)[j]
      {
        if tasks[i].id == id {
          tasks := tasks[i := tasks[i].(worktree := Some(at))];
        }
      }
    }

    method Finish(id: TaskId, state: TaskState, reason: Option<string>, now: U64)
      modifies this
      ensures nextId == old(nextId) && tasks == Tasks.Finish(old(tasks), id, state, reason, now)
    {
      for i := 0 to |tasks|
        invariant nextId == old(nextId) && |tasks| == |old(tasks)|
        invariant forall j :: 0 <= j < i ==> tasks[j] == Tasks.Finish(old(tasks), id, state, reason, now)[j]
        invariant forall j :: i <= j < |tasks| ==> tasks[j] == old(tasks)[j]
      {
        if tasks[i].id == id && tasks[i].state.Running? {
          tasks := tasks[i := tasks[i].(state := state, reason := reason, endedAt := Some(now))];
        }
      }
    }

    method Record(id: TaskId, consumed: Observation)
      modifies this
      ensures nextId == old(nextId) && tasks == Tasks.Record(old(tasks), id, consumed)
    {
      for i := 0 to |tasks|
        invariant nextId == old(nextId) && |tasks| == |old(tasks)|
        invariant forall j :: 0 <= j < i ==> tasks[j] == Tasks.Record(old(tasks), id, consumed)[j]
        invariant forall j :: i <= j < |tasks| ==> tasks[j] == old(tasks)[j]
      {
        if tasks[i].id == id {
          tasks := tasks[i := tasks[i].(consumed := consumed)];
        }
      }
    }

    method Conversed(id: TaskId, conversation: Option<string>)
      modifies this
      ensures nextId == old(nextId) && tasks == Converse(old(tasks), id, conversation)
    {
      var at := IndexOf(tasks, id);
      if at < |tasks| {
        tasks := tasks[at := tasks[at].(conversation := conversation)];
      }
    }

    method WaitAgain(id: TaskId, now: U64)
      modifies this
      ensures nextId == old(nextId) && tasks == Tasks.WaitAgain(old(tasks), id, now)
    {
      for i := 0 to |tasks|
        invariant nextId == old(nextId) && |tasks| == |old(tasks)|
        invariant forall j :: 0 <= j < i ==> tasks[j] == Tasks.WaitAgain(old(tasks), id, now)[j]
        invariant forall j :: i <= j < |tasks| ==> tasks[j] == old(tasks)[j]
      {
        if tasks[i].id == id {
          tasks := tasks[i := tasks[i].(state := TaskState.Pending, reason := None, endedAt := Some(now))];
        }
      }
    }

    /** `try_again` where it starts afresh, `carries_on` where it keeps the conversation. */
    method WaitsAgain(id: TaskId, afresh: bool) returns (r: Result<(), DisposalRefused>)
      modifies this
      ensures nextId == old(nextId)
      ensures r.Ok? <==> Retriable(old(tasks), id)
      ensures r.Ok? ==> tasks == Retry(old(tasks), id, afresh)
      ensures r.Err? ==> tasks == old(tasks) && (r.error.NothingThere? <==> !Has(old(tasks), id))
    {
      var at := IndexOf(tasks, id);
      if at == |tasks| {
        return Err(NothingThere);
      }
      if !tasks[at].state.Ended() {
        return Err(NotEnded);
      }
      tasks := tasks[at := Requeued(tasks[at], afresh)];
      r := Ok(());
    }

    method Interrupt(to: SessionId, reason: string, now: U64) returns (ended: seq<TaskId>)
      modifies this
      ensures nextId == old(nextId) && tasks == Tasks.Interrupt(old(tasks), to, reason, now)
      ensures ended == CutAmong(old(tasks), to, |old(tasks)|)
    {
      ended := [];
      for i := 0 to |tasks|
        invariant nextId == old(nextId) && |tasks| == |old(tasks)|
        invariant ended == CutAmong(old(tasks), to, i)
        invariant forall j :: 0 <= j < i ==> tasks[j] == Tasks.Interrupt(old(tasks), to, reason, now)[j]
        invariant forall j :: i <= j < |tasks| ==> tasks[j] == old(tasks)[j]
      {
        if tasks[i].RunsFor(to) {
          ended := ended + [tasks[i].id];
          tasks := tasks[i := tasks[i].(state := TaskState.Interrupted, reason := Some(reason), endedAt := Some(now))];
        }
      }
    }

    /** Rebuilds what a store held, and refuses exactly what is not a backlog, for the first of the
        three reasons that applies. */
    static method Restore(nextId: U32, restored: seq<Task>) returns (r: Result<Backlog, NotABacklog>)
      ensures r.Ok? <==> WellFormed(restored)
      ensures r.Ok? ==> fresh(r.value) && r.value.nextId == nextId && r.value.tasks == restored
      ensures r.Err? ==> match r.error
                         case RepeatedId(id) => !Distinct(restored)
                         case NoSuchPredecessor(task, after) => Distinct(restored) && !Present(restored)
                           && !Has(restored, after)
                         case Cycle(start) => Distinct(restored) && Present(restored) && LeadsBack(restored, start)
    {
      var repeated := RepeatedIn(restored);
      if repeated.Some? {
        return Err(RepeatedId(repeated.value));
      }
      var absent := AbsentFrom(restored);
      if absent.Some? {
        return Err(NoSuchPredecessor(absent.value.0, absent.value.1));
      }
      BoundedWalkDecidesAcyclic(restored);
      var start := CycleIn(restored);
      if start.Some? {
        return Err(Cycle(start.value));
      }
      var backlog := new Backlog.Holding(nextId, restored);
      r := Ok(backlog);
    }
  }

  /** The first number a later task carries again, if any does. */
  method RepeatedIn(ts: seq<Task>) returns (repeated: Option<TaskId>)
    ensures repeated.None? <==> Distinct(ts)
    ensures repeated.Some? ==> exists j :: 0 <= j < |ts| && ts[j].id == repeated.value
                                           && Distinct(ts[..j]) && IndexOf(ts, repeated.value) < j
  {
    for at := 0 to |ts|
      invariant Distinct(ts[..at])
    {
      if IndexOf(ts[..at], ts[at].id) < at {
        assert ts[..at][IndexOf(ts[..at], ts[at].id)] == ts[IndexOf(ts[..at], ts[at].id)];
        return Some(ts[at].id);
      }
      forall i | 0 <= i < at ensures ts[i].id != ts[at].id {
        assert ts[..at][i] == ts[i];
      }
      assert forall i :: 0 <= i <= at ==> ts[..at + 1][i] == ts[i];
    }
    assert ts[..|ts|] == ts;
    repeated := None;
  }

  /** The first task waiting for one that is not there, with the number it names. */
  method AbsentFrom(ts: seq<Task>) returns (absent: Option<(TaskId, TaskId)>)
    ensures absent.None? <==> Present(ts)
    ensures absent.Some? ==> exists i :: 0 <= i < |ts| && ts[i].id == absent.value.0
                                         && ts[i].after == Some(absent.value.1) && !Has(ts, absent.value.1)
                                         && PresentAmong(ts, i)
  {
    for i := 0 to |ts|
      invariant PresentAmong(ts, i)
    {
      if ts[i].after.Some? && Find(ts, ts[i].after.value).None? {
        return Some((ts[i].id, ts[i].after.value));
      }
    }
    absent := None;
  }

  /** The first `n` wait for tasks that are there. */
  predicate PresentAmong(ts: seq<Task>, n: nat)
    requires n <= |ts|
  {
    forall i :: 0 <= i < n && ts[i].after.Some? ==> Has(ts, ts[i].after.value)
  }

  /** The first task following `after` leads back to. */
  method CycleIn(ts: seq<Task>) returns (start: Option<TaskId>)
    ensures start.None? <==> forall i :: 0 <= i < |ts| ==> !LeadsBack(ts, ts[i].id)
    ensures start.Some? ==> exists i :: 0 <= i < |ts| && ts[i].id == start.value && LeadsBack(ts, start.value)
                                        && forall j :: 0 <= j < i ==> !LeadsBack(ts, ts[j].id)
  {
    for i := 0 to |ts|
      invariant forall j :: 0 <= j < i ==> !LeadsBack(ts, ts[j].id)
    {
      var at := ts[i].id;
      var steps := 0;
      while steps < |ts|
        invariant steps <= |ts| && Walk(ts, ts[i].id, steps) == Some(at)
        invariant forall k :: 1 <= k <= steps ==> Walk(ts, ts[i].id, k) != Some(ts[i].id)
      {
        WalkOn(ts, ts[i].id, steps);
        var next := Predecessor(ts, at);
        if next.None? {
          forall k | steps < k ensures Walk(ts, ts[i].id, k).None? {
            WalkSplits(ts, ts[i].id, steps + 1, k - steps - 1);
          }
          break;
        }
        at := next.value;
        if at == ts[i].id {
          assert LeadsBack(ts, ts[i].id);
          return Some(ts[i].id);
        }
        steps := steps + 1;
      }
      assert !LeadsBack(ts, ts[i].id);
    }
    start := None;
  }
}
