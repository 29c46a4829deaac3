/** What a worker does to the backlog when a run ends, what registering one more task does to it, and the
    queue between whoever assigned a task and the worker that takes it. */
module Working {
  import opened Wrappers
  import opened Numbers
  import opened Spendings
  import opened Tasks
  import opened Graph
  import opened Closure
  import Backlogs

  class Worker {
    const tasks: Backlogs.Backlog

    constructor (tasks: Backlogs.Backlog)
      ensures this.tasks == tasks
    {
      this.tasks := tasks;
    }

    method SessionOf(id: TaskId) returns (session: Option<SessionId>)
      ensures session == if Has(tasks.tasks, id) then tasks.tasks[IndexOf(tasks.tasks, id)].session else None
    {
      var found := Find(tasks.tasks, id);
      session := if found.Some? then found.value.session else None;
    }

    /** One hold: the task ends, and what it consumed and the conversation it was in go down with it. */
    method End(id: TaskId, state: TaskState, told: Option<string>, conversation: Option<string>, consumed: Observation,
               now: U64)
      returns (session: Option<SessionId>)
      modifies tasks
      ensures tasks.nextId == old(tasks.nextId)
      ensures tasks.tasks == Ended(old(tasks.tasks), id, state, told, conversation, consumed, now)
      ensures session == if Has(tasks.tasks, id) then tasks.tasks[IndexOf(tasks.tasks, id)].session else None
    {
      tasks.Finish(id, state, told, now);
      tasks.Record(id, consumed);
      tasks.Conversed(id, conversation);
      session := SessionOf(id);
    }

    /** One hold: what the run consumed goes down, and the task goes back to waiting. */
    method TurnAway(id: TaskId, consumed: Observation, now: U64) returns (session: Option<SessionId>)
      modifies tasks
      ensures tasks.nextId == old(tasks.nextId)
      ensures tasks.tasks == TurnedAway(old(tasks.tasks), id, consumed, now)
      ensures session == if Has(tasks.tasks, id) then tasks.tasks[IndexOf(tasks.tasks, id)].session else None
    {
      tasks.Record(id, consumed);
      session := SessionOf(id);
      tasks.WaitAgain(id, now);
      SameSession(old(tasks.tasks), id, consumed, now);
    }
  }

  lemma SameSession(ts: seq<Task>, id: TaskId, consumed: Observation, now: U64)
    ensures var recorded, us := Record(ts, id, consumed), TurnedAway(ts, id, consumed, now);
            IndexOf(us, id) == IndexOf(recorded, id)
              && (Has(us, id) ==> us[IndexOf(us, id)].session == recorded[IndexOf(us, id)].session)
  {
    var recorded, us := Record(ts, id, consumed), TurnedAway(ts, id, consumed, now);
    assert SameGraph(recorded, us);
    if Has(recorded, id) {
      SameGraphFinds(recorded, us, id);
    } else {
      assert forall j :: 0 <= j < |us| ==> us[j].id == recorded[j].id;
    }
  }

  /** Adds a task under the hold the task it waits for is looked for under. */
  method Register(tasks: Backlogs.Backlog, title: string, given: string, original: Option<string>,
                  branch: Option<string>, after: Option<TaskId>, model: Option<string>, repository: string)
    returns (r: Result<Task, TaskId>)
    modifies tasks
    ensures var c := Command.Register(title, given, original, branch, after, model, repository);
            && Shelf(tasks.nextId, tasks.tasks) == Apply(Shelf(old(tasks.nextId), old(tasks.tasks)), c)
            && (r.Ok? <==> Registers(Shelf(old(tasks.nextId), old(tasks.tasks)), c))
    ensures r.Ok? ==> r.value == tasks.tasks[|tasks.tasks| - 1] && r.value.id == old(tasks.nextId)
    ensures r.Err? ==> after == Some(r.error) && !Has(tasks.tasks, r.error)
  {
    if after.Some? && Find(tasks.tasks, after.value).None? {
      return Err(after.value);
    }
    var registered := tasks.Add(title, given, original, branch, after, model, repository);
    r := Ok(registered);
  }

  // ---------------------------------------------------------------- the queue

  class Queue<T> {
    var waiting: seq<T>

    constructor ()
      ensures waiting == []
    {
      waiting := [];
    }

    method Add(what: T)
      modifies this
      ensures waiting == old(waiting) + [what]
    {
      waiting := waiting + [what];
    }

    /** One look at the queue: the one at the front, or nothing, and then the thread sleeps until something
        is added and looks again. */
    method Take() returns (what: Option<T>)
      modifies this
      ensures what.None? <==> old(waiting) == []
      ensures old(waiting) == (if what.Some? then [what.value] else []) + waiting
    {
      if waiting == [] {
        return None;
      }
      what := Some(waiting[0]);
      waiting := waiting[1..];
    }

    /** What was assigned goes on one at a time. */
    method AddEach(these: seq<T>)
      modifies this
      ensures waiting == old(waiting) + these
    {
      for i := 0 to |these|
        invariant waiting == old(waiting) + these[..i]
      {
        Add(these[i]);
        assert these[..i + 1] == these[..i] + [these[i]];
      }
      assert these[..|these|] == these;
    }
  }

  datatype Call<T> = Adding(what: T) | Taking

  /** The queue after some calls, taking nothing where there is nothing. */
  function Left<T>(waiting: seq<T>, calls: seq<Call<T>>): seq<T>
    decreases calls
  {
    if calls == [] then waiting
    else if calls[0].Adding? then Left(waiting + [calls[0].what], calls[1..])
    else Left(if waiting == [] then [] else waiting[1..], calls[1..])
  }

  function Added<T>(calls: seq<Call<T>>): seq<T> {
    if calls == [] then [] else (if calls[0].Adding? then [calls[0].what] else []) + Added(calls[1..])
  }

  function TakenBy<T>(waiting: seq<T>, calls: seq<Call<T>>): seq<T>
    decreases calls
  {
    if calls == [] then []
    else if calls[0].Adding? then TakenBy(waiting + [calls[0].what], calls[1..])
    else if waiting == [] then TakenBy([], calls[1..])
    else [waiting[0]] + TakenBy(waiting[1..], calls[1..])
  }

  /** Nothing is lost, doubled or overtaken: what was taken and what is left, one after the other, is what
      was there and then what was added, in that order. */
  lemma {:induction false} FirstInFirstOut<T>(waiting: seq<T>, calls: seq<Call<T>>)
    ensures TakenBy(waiting, calls) + Left(waiting, calls) == waiting + Added(calls)
    decreases calls
  {
    if calls != [] {
      var call, rest := calls[0], calls[1..];
      if call.Adding? {
        FirstInFirstOut(waiting + [call.what], rest);
        assert waiting + [call.what] + Added(rest) == waiting + Added(calls);
      } else if waiting == [] {
        FirstInFirstOut(waiting, rest);
      } else {
        FirstInFirstOut(waiting[1..], rest);
        assert TakenBy(waiting, calls) + Left(waiting, calls)
             == [waiting[0]] + (TakenBy(waiting[1..], rest) + Left(waiting[1..], rest));
        assert waiting == [waiting[0]] + waiting[1..];
      }
    }
  }
}
