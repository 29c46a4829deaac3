/** The `after` graph: what the bounded walk that looks for a cycle really decides, and what
    taking a task out of the middle of a chain leaves behind. */
module Graph {
  import opened Wrappers
  import opened Numbers
  import opened Tasks

  predicate Distinct(ts: seq<Task>) {
    forall i, j :: 0 <= i < j < |ts| ==> ts[i].id != ts[j].id
  }

  predicate Present(ts: seq<Task>) {
    forall i :: 0 <= i < |ts| && ts[i].after.Some? ==> Has(ts, ts[i].after.value)
  }

  /** A number for every task that falls along every `after`. What acyclic means, said without walking. */
  ghost predicate Ranked(ts: seq<Task>, rank: map<TaskId, nat>) {
    && (forall i :: 0 <= i < |ts| ==> ts[i].id in rank)
    && (forall i :: 0 <= i < |ts| && ts[i].after.Some? ==>
          ts[i].after.value in rank && rank[ts[i].after.value] < rank[ts[i].id])
  }

  ghost predicate Acyclic(ts: seq<Task>) {
    exists rank :: Ranked(ts, rank)
  }

  /** What every backlog the core reads is held to. */
  ghost predicate WellFormed(ts: seq<Task>) {
    Distinct(ts) && Present(ts) && Acyclic(ts)
  }

  /** The same numbers waiting for the same numbers, whatever else differs. */
  predicate SameGraph(ts: seq<Task>, us: seq<Task>) {
    |ts| == |us| && forall i :: 0 <= i < |ts| ==> ts[i].id == us[i].id && ts[i].after == us[i].after
  }

  // ---------------------------------------------------------------- walking

  function Predecessor(ts: seq<Task>, id: TaskId): Option<TaskId> {
    if Has(ts, id) then ts[IndexOf(ts, id)].after else None
  }

  /** Where following `after` from a task leads in `k` steps, while there is somewhere to go. */
  function Walk(ts: seq<Task>, id: TaskId, k: nat): Option<TaskId>
    decreases k
  {
    if k == 0 then Some(id)
    else if Predecessor(ts, id).None? then None
    else Walk(ts, Predecessor(ts, id).value, k - 1)
  }

  /** What the loop asks: does a walk of at most as many steps as there are tasks come back? */
  ghost predicate LeadsBack(ts: seq<Task>, id: TaskId) {
    exists k :: 1 <= k <= |ts| && Walk(ts, id, k) == Some(id)
  }

  lemma {:induction false} WalkSplits(ts: seq<Task>, id: TaskId, j: nat, k: nat)
    ensures Walk(ts, id, j + k)
         == if Walk(ts, id, j).Some? then Walk(ts, Walk(ts, id, j).value, k) else None
    decreases j
  {
    if j > 0 && Predecessor(ts, id).Some? {
      WalkSplits(ts, Predecessor(ts, id).value, j - 1, k);
    }
  }

  /** One more step of a walk is a step from where it is. */
  lemma WalkOn(ts: seq<Task>, id: TaskId, k: nat)
    requires Walk(ts, id, k).Some?
    ensures Walk(ts, id, k + 1) == Predecessor(ts, Walk(ts, id, k).value)
  {
    WalkSplits(ts, id, k, 1);
    var at := Walk(ts, id, k).value;
    assert Walk(ts, at, 1) == if Predecessor(ts, at).None? then None else Walk(ts, Predecessor(ts, at).value, 0);
  }

  lemma {:induction false} WalkIsOnTheList(ts: seq<Task>, id: TaskId, k: nat)
    requires Present(ts) && Has(ts, id) && Walk(ts, id, k).Some?
    ensures Has(ts, Walk(ts, id, k).value)
    decreases k
  {
    if k > 0 {
      WalkIsOnTheList(ts, Predecessor(ts, id).value, k - 1);
    }
  }

  ghost function Ids(ts: seq<Task>): set<TaskId> {
    set i | 0 <= i < |ts| :: ts[i].id
  }

  lemma {:induction false} FewIds(ts: seq<Task>)
    ensures |Ids(ts)| <= |ts|
  {
    if ts == [] {
      assert Ids(ts) == {};
    } else {
      var front := ts[..|ts| - 1];
      FewIds(front);
      assert Ids(ts) == Ids(front) + {ts[|ts| - 1].id};
    }
  }

  lemma {:induction false} Pigeonhole(path: seq<TaskId>, ids: set<TaskId>) returns (i: nat, j: nat)
    requires forall k :: 0 <= k < |path| ==> path[k] in ids
    requires |path| > |ids|
    ensures i < j < |path| && path[i] == path[j]
  {
    var last := |path| - 1;
    if k :| 0 <= k < last && path[k] == path[last] {
      i, j := k, last;
    } else {
      i, j := Pigeonhole(path[..last], ids - {path[last]});
    }
  }

  /** A walk that takes as many steps as there are tasks has been somewhere twice. */
  lemma {:induction false} LongWalkRepeats(ts: seq<Task>, id: TaskId) returns (i: nat, j: nat)
    requires Present(ts) && Has(ts, id) && Walk(ts, id, |ts|).Some?
    ensures i < j <= |ts| && Walk(ts, id, i).Some? && Walk(ts, id, i) == Walk(ts, id, j)
  {
    forall k | 0 <= k <= |ts|
      ensures Walk(ts, id, k).Some? && Walk(ts, id, k).value in Ids(ts)
    {
      WalkSplits(ts, id, k, |ts| - k);
      WalkIsOnTheList(ts, id, k);
    }
    FewIds(ts);
    var path := seq(|ts| + 1, k requires 0 <= k <= |ts| => Walk(ts, id, k).value);
    i, j := Pigeonhole(path, Ids(ts));
  }

  /** And the task it has been at twice leads back to itself. */
  lemma {:induction false} ARepeatLeadsBack(ts: seq<Task>, id: TaskId, i: nat, j: nat) returns (at: nat)
    requires Present(ts) && Has(ts, id) && i < j <= |ts| && Walk(ts, id, i).Some? && Walk(ts, id, i) == Walk(ts, id, j)
    ensures at < |ts| && LeadsBack(ts, ts[at].id)
  {
    var met := Walk(ts, id, i).value;
    WalkSplits(ts, id, i, j - i);
    WalkIsOnTheList(ts, id, i);
    at := IndexOf(ts, met);
    assert Walk(ts, met, j - i) == Some(met);
  }

  /** So where no bounded walk comes back, every walk ends, and within as many steps as there are tasks. */
  lemma {:induction false} WalksEnd(ts: seq<Task>, id: TaskId)
    requires Present(ts) && Has(ts, id)
    requires forall i :: 0 <= i < |ts| ==> !LeadsBack(ts, ts[i].id)
    ensures Walk(ts, id, |ts|).None?
  {
    if Walk(ts, id, |ts|).Some? {
      var i, j := LongWalkRepeats(ts, id);
      var at := ARepeatLeadsBack(ts, id, i, j);
      assert false;
    }
  }

  /** How many steps there are to take, looking no further than `n`. */
  ghost function Steps(ts: seq<Task>, id: TaskId, n: nat): nat
    decreases n
  {
    if n == 0 || Predecessor(ts, id).None? then 0 else 1 + Steps(ts, Predecessor(ts, id).value, n - 1)
  }

  lemma {:induction false} LookingFurtherFindsNoMore(ts: seq<Task>, id: TaskId, n: nat)
    requires Walk(ts, id, n).None?
    ensures Steps(ts, id, n + 1) == Steps(ts, id, n)
    decreases n
  {
    if Predecessor(ts, id).Some? {
      LookingFurtherFindsNoMore(ts, Predecessor(ts, id).value, n - 1);
    }
  }

  lemma {:induction false} RankFallsAlongAWalk(ts: seq<Task>, rank: map<TaskId, nat>, id: TaskId, k: nat)
    requires Ranked(ts, rank) && id in rank && Walk(ts, id, k).Some?
    ensures Walk(ts, id, k).value in rank && rank[Walk(ts, id, k).value] + k <= rank[id]
    decreases k
  {
    if k > 0 {
      RankFallsAlongAWalk(ts, rank, Predecessor(ts, id).value, k - 1);
    }
  }

  lemma OneStepTaken(ts: seq<Task>, id: TaskId, next: TaskId, n: nat)
    requires Predecessor(ts, id) == Some(next) && n > 0
    ensures Walk(ts, id, n) == Walk(ts, next, n - 1) && Steps(ts, id, n) == 1 + Steps(ts, next, n - 1)
  {
  }

  lemma StepsFallFrom(ts: seq<Task>, id: TaskId, next: TaskId, n: nat)
    requires Predecessor(ts, id) == Some(next) && n > 0 && Walk(ts, id, n).None?
    ensures Steps(ts, next, n) < Steps(ts, id, n)
  {
    OneStepTaken(ts, id, next, n);
    LookingFurtherFindsNoMore(ts, next, n - 1);
  }

  /** The steps there are to take fall along every `after`. */
  lemma StepsFall(ts: seq<Task>, i: nat)
    requires Distinct(ts) && Present(ts) && i < |ts| && ts[i].after.Some? && Walk(ts, ts[i].id, |ts|).None?
    ensures Has(ts, ts[i].after.value) && Steps(ts, ts[i].after.value, |ts|) < Steps(ts, ts[i].id, |ts|)
  {
    assert IndexOf(ts, ts[i].id) == i;
    StepsFallFrom(ts, ts[i].id, ts[i].after.value, |ts|);
  }

  lemma WhereNoWalkComesBack(ts: seq<Task>)
    requires Distinct(ts) && Present(ts)
    requires forall k :: 0 <= k < |ts| ==> !LeadsBack(ts, ts[k].id)
    ensures Acyclic(ts)
  {
    var rank := map id | id in Ids(ts) :: Steps(ts, id, |ts|);
    forall i | 0 <= i < |ts| && ts[i].after.Some?
      ensures ts[i].after.value in rank && rank[ts[i].after.value] < rank[ts[i].id]
    {
      WalksEnd(ts, ts[i].id);
      StepsFall(ts, i);
      assert ts[i].after.value == ts[IndexOf(ts, ts[i].after.value)].id;
    }
    assert Ranked(ts, rank);
  }

  lemma NoWalkComesBack(ts: seq<Task>, rank: map<TaskId, nat>, i: nat)
    requires Ranked(ts, rank) && i < |ts|
    ensures !LeadsBack(ts, ts[i].id)
  {
    if k :| 1 <= k <= |ts| && Walk(ts, ts[i].id, k) == Some(ts[i].id) {
      RankFallsAlongAWalk(ts, rank, ts[i].id, k);
    }
  }

  /** The bounded walk accepts exactly the acyclic graphs. */
  lemma BoundedWalkDecidesAcyclic(ts: seq<Task>)
    requires Distinct(ts) && Present(ts)
    ensures (forall i :: 0 <= i < |ts| ==> !LeadsBack(ts, ts[i].id)) <==> Acyclic(ts)
  {
    if forall i :: 0 <= i < |ts| ==> !LeadsBack(ts, ts[i].id) {
      WhereNoWalkComesBack(ts);
    }
    if rank :| Ranked(ts, rank) {
      forall i | 0 <= i < |ts| ensures !LeadsBack(ts, ts[i].id) {
        NoWalkComesBack(ts, rank, i);
      }
    }
  }

  // ---------------------------------------------------------------- what keeps a graph as it should be

  lemma SameGraphFinds(ts: seq<Task>, us: seq<Task>, id: TaskId)
    requires SameGraph(ts, us)
    ensures IndexOf(ts, id) == IndexOf(us, id)
  {
  }

  lemma SameGraphStaysWellFormed(ts: seq<Task>, us: seq<Task>)
    requires SameGraph(ts, us) && WellFormed(ts)
    ensures WellFormed(us)
  {
    var rank :| Ranked(ts, rank);
    assert Ranked(us, rank);
    forall i | 0 <= i < |us| && us[i].after.Some? ensures Has(us, us[i].after.value) {
      SameGraphFinds(ts, us, us[i].after.value);
    }
  }

  /** A task may only name one that is already there, so registering one closes no cycle. */
  lemma RegisteringStaysWellFormed(ts: seq<Task>, t: Task)
    requires WellFormed(ts) && !Has(ts, t.id)
    requires t.after.Some? ==> Has(ts, t.after.value)
    ensures WellFormed(ts + [t])
  {
    var us := ts + [t];
    var rank :| Ranked(ts, rank);
    var above := rank[t.id := if t.after.Some? then rank[t.after.value] + 1 else 0];
    assert t.after.Some? ==> t.after.value == ts[IndexOf(ts, t.after.value)].id;
    assert Ranked(us, above) by {
      forall i | 0 <= i < |ts| ensures ts[i].id != t.id && ts[i].after != Some(t.id) {
      }
    }
    forall i | 0 <= i < |us| && us[i].after.Some? ensures Has(us, us[i].after.value) {
      var id := us[i].after.value;
      assert Has(ts, id);
      assert us[IndexOf(ts, id)].id == id;
    }
  }

  /** Splicing a task out leaves every predecessor present and closes no cycle: whatever waited for
      it waits for something further down the same chain. */
  lemma SplicingStaysWellFormed(ts: seq<Task>, at: nat)
    requires WellFormed(ts) && at < |ts|
    ensures WellFormed(Spliced(ts, at)) && !Has(Spliced(ts, at), ts[at].id)
  {
    var us, gone := Spliced(ts, at), ts[at];
    var rank :| Ranked(ts, rank);
    forall i | 0 <= i < |us|
      ensures us[i].id == ts[Before(at, i)].id && us[i].id != gone.id
      ensures us[i].after.Some? ==>
                us[i].after.value in rank && rank[us[i].after.value] < rank[us[i].id] && Has(us, us[i].after.value)
    {
      if us[i].after.Some? {
        var j := IndexOf(ts, us[i].after.value);
        assert j != at;
        assert us[if j < at then j else j - 1].id == us[i].after.value;
      }
    }
    assert Ranked(us, rank);
  }

  /** Where the task now at `i` stood before the one at `at` was taken out. */
  function Before(at: nat, i: nat): nat {
    if i < at then i else i + 1
  }

  // ---------------------------------------------------------------- a blocked backlog can always be unblocked

  /** Below a task that is not done, in a backlog where nothing may start and nothing runs, stands one
      that ended without being done and waits for nothing that is not. */
  lemma {:induction false} FirstFailure(ts: seq<Task>, rank: map<TaskId, nat>, i: nat) returns (at: nat)
    requires Distinct(ts) && Present(ts) && Ranked(ts, rank) && i < |ts|
    requires forall k :: 0 <= k < |ts| ==> !MayStart(ts, ts[k]) && !ts[k].state.Running?
    requires !ts[i].state.Completed?
    ensures at < |ts| && ts[at].state.Ended() && !ts[at].state.Completed?
    ensures ts[at].after.Some? ==> Done(ts, ts[at].after.value)
    decreases rank[ts[i].id]
  {
    if ts[i].after.Some? && !Done(ts, ts[i].after.value) {
      at := FirstFailure(ts, rank, IndexOf(ts, ts[i].after.value));
    } else {
      assert !MayStart(ts, ts[i]);
      at := i;
    }
  }

  /** A backlog that is blocked with nothing running always has a task that ended short of being done
      and that one retry, of either kind, puts among what may start. */
  lemma {:induction false} BlockedHasARetry(ts: seq<Task>, afresh: bool) returns (id: TaskId)
    requires WellFormed(ts) && AllBlocked(ts)
    requires forall i :: 0 <= i < |ts| ==> !ts[i].state.Running?
    ensures Retriable(ts, id) && !Done(ts, id)
    ensures exists model :: (id, model) in Waiting(Retry(ts, id, afresh))
  {
    NothingWaits(ts);
    var rank :| Ranked(ts, rank);
    var i :| 0 <= i < |ts| && ts[i].state.Pending?;
    var at := FirstFailure(ts, rank, i);
    id := ts[at].id;
    assert IndexOf(ts, id) == at;
    var us := Retry(ts, id, afresh);
    SameGraphFinds(ts, us, id);
    if us[at].after.Some? {
      SameGraphFinds(ts, us, us[at].after.value);
      assert us[at].after.value != id;
    }
    assert MayStart(us, us[at]);
    ThenItWaits(us, at);
  }

  lemma {:induction false} ThenItWaits(ts: seq<Task>, at: nat)
    requires at < |ts| && MayStart(ts, ts[at])
    ensures (ts[at].id, ts[at].model) in Waiting(ts)
  {
    WhoMayStartWaits(ts, |ts|, at);
    var k :| 0 <= k < |PlacesAmong(ts, |ts|)| && PlacesAmong(ts, |ts|)[k] == at;
    WhoWaitsAt(ts, |ts|, k);
  }
}
