/** The bound on a budget over the whole history: every figure a session was ever told counts, whatever
    became since of the task that said it. A retry writes over what its task said, and a removal takes it
    away, so the daemon counts less than it was told; the bound names what was forgotten so. */
module Reports {
  import opened Wrappers
  import opened Numbers
  import opened Spendings
  import opened Tasks
  import opened Graph
  import opened Closure
  import opened SessionValues
  import opened Decisions
  import opened Settling
  import opened Protocol
  import opened Steps
  import opened NoIdle
  import opened Commitments
  import opened BudgetBound

  // ---------------------------------------------------------------- sums

  function Sum(xs: seq<nat>): nat {
    if xs == [] then 0 else Sum(xs[..|xs| - 1]) + xs[|xs| - 1]
  }

  lemma OneMore(xs: seq<nat>, n: nat)
    requires 0 < n <= |xs|
    ensures Sum(xs[..n]) == Sum(xs[..n - 1]) + xs[n - 1]
  {
    assert xs[..n][..n - 1] == xs[..n - 1];
  }

  /** Sums compare as their entries do, one by one. */
  lemma {:induction false} SumsCompare(xs: seq<nat>, more: seq<nat>, ys: seq<nat>, less: seq<nat>)
    requires |xs| == |more| == |ys| == |less|
    requires forall k :: 0 <= k < |xs| ==> xs[k] + more[k] <= ys[k] + less[k]
    ensures Sum(xs) + Sum(more) <= Sum(ys) + Sum(less)
  {
    if xs != [] {
      var n := |xs| - 1;
      SumsCompare(xs[..n], more[..n], ys[..n], less[..n]);
    }
  }

  function Only(n: nat, at: nat, x: nat): (xs: seq<nat>)
    ensures |xs| == n && forall k :: 0 <= k < n ==> xs[k] == if k == at then x else 0
  {
    seq(n, k => if k == at then x else 0)
  }

  lemma {:induction false} OnlyThis(n: nat, at: nat, x: nat)
    ensures Sum(Only(n, at, x)) == if at < n then x else 0
  {
    if n > 0 {
      OnlyThis(n - 1, at, x);
      assert Only(n, at, x)[..n - 1] == Only(n - 1, at, x);
    }
  }

  lemma SumSpliced(xs: seq<nat>, ys: seq<nat>, at: nat)
    requires at < |xs| == |ys| + 1
    requires forall k :: 0 <= k < |ys| ==> ys[k] == xs[if k < at then k else k + 1]
    ensures Sum(ys) + xs[at] == Sum(xs)
  {
    SumWithoutOne(xs, at);
    assert ys == xs[..at] + xs[at + 1..];
  }

  lemma {:induction false} SumWithoutOne(xs: seq<nat>, at: nat)
    requires at < |xs|
    ensures Sum(xs[..at] + xs[at + 1..]) + xs[at] == Sum(xs)
  {
    var n := |xs| - 1;
    var without := xs[..at] + xs[at + 1..];
    if at < n {
      SumWithoutOne(xs[..n], at);
      assert without[..n - 1] == xs[..n][..at] + xs[..n][at + 1..];
    } else {
      assert without == xs[..n];
    }
  }

  // ---- what was ever reported, and what is forgotten of it

  /** What a step tells a session it spent. */
  function ReportedBy(w: World, s: Step, session: SessionId): nat
    requires Enabled(w, s)
  {
    if RecordsFor(w, s, session) then CountOf(s.consumed) else 0
  }

  /** The ceiling of a run that is still to be recorded. */
  function OutstandingBy(w: World, session: SessionId, t: Task): nat {
    if t.session == Some(session) && Carried(w, t.id) > 0 then CeilingOf(t) else 0
  }

  function OutstandingEach(w: World, session: SessionId): (xs: seq<nat>)
    ensures |xs| == |w.backlog.tasks|
    ensures forall k :: 0 <= k < |xs| ==> xs[k] == OutstandingBy(w, session, w.backlog.tasks[k])
  {
    seq(|w.backlog.tasks|, k requires 0 <= k < |w.backlog.tasks| => OutstandingBy(w, session, w.backlog.tasks[k]))
  }

  function Outstanding(w: World, session: SessionId): nat {
    Sum(OutstandingEach(w, session))
  }

  /** What a task with no run still to be recorded says it consumed. */
  function StandsFor(w: World, session: SessionId, t: Task): nat {
    if t.session == Some(session) && Carried(w, t.id) == 0 then CountOf(t.consumed) else 0
  }

  function SettledEach(w: World, session: SessionId): (xs: seq<nat>)
    ensures |xs| == |w.backlog.tasks|
    ensures forall k :: 0 <= k < |xs| ==> xs[k] == StandsFor(w, session, w.backlog.tasks[k])
  {
    seq(|w.backlog.tasks|, k requires 0 <= k < |w.backlog.tasks| => StandsFor(w, session, w.backlog.tasks[k]))
  }

  function Settled(w: World, session: SessionId): nat {
    Sum(SettledEach(w, session))
  }

  /** Whether a decision for a session may still come: it runs, or somebody read it while it did. */
  predicate DecidedFor(w: World, session: SessionId) {
    Runs(w.sessions, session)
    || exists j :: 0 <= j < |w.threads| && w.threads[j].at.Deciding? && w.threads[j].at.held.id == session
  }

  /** What the tasks a decision hands over had told this session before: their next run writes over it. */
  function WrittenOverEach(ts: seq<Task>, us: seq<Task>, session: SessionId): (xs: seq<nat>)
    requires |us| == |ts|
    ensures |xs| == |ts|
    ensures forall k :: 0 <= k < |xs| ==>
              xs[k] == if ts[k].session == Some(session) && us[k] != ts[k] then CountOf(ts[k].consumed) else 0
  {
    seq(|ts|, k requires 0 <= k < |ts| =>
      if ts[k].session == Some(session) && us[k] != ts[k] then CountOf(ts[k].consumed) else 0)
  }

  /** What a task says it consumed, where it is this session's. */
  function CountedBy(t: Task, session: SessionId): nat {
    if t.session == Some(session) then CountOf(t.consumed) else 0
  }

  /** What a step loses of what a session was told, whether or not anything is decided by it again. */
  function Lost(w: World, s: Step, session: SessionId): nat
    requires Enabled(w, s)
  {
    if s.Decides? then Sum(WrittenOverEach(w.backlog.tasks, Next(w, s).backlog.tasks, session))
    else if Removes(w, s) then CountedBy(w.backlog.tasks[IndexOf(w.backlog.tasks, s.command.id)], session)
    else 0
  }

  /** What a step makes a session forget that may still be decided for. */
  function Forgotten(w: World, s: Step, session: SessionId): nat
    requires Enabled(w, s)
  {
    if DecidedFor(w, session) then Lost(w, s, session) else 0
  }

  // ---------------------------------------------------------------- what each step does to what is outstanding

  lemma RecordingEndsWhatIsOutstanding(w: World, s: Step, session: SessionId, k: nat)
    requires Enabled(w, s) && (s.Ends? || s.TurnsAway?) && Sound(w.backlog) && OneRunEach(w) && k < |w.backlog.tasks|
    ensures |Next(w, s).backlog.tasks| == |w.backlog.tasks|
    ensures var t, u := w.backlog.tasks[k], Next(w, s).backlog.tasks[k];
            var this' := RecordsFor(w, s, session) && k == IndexOf(w.backlog.tasks, w.threads[s.i].at.task);
            && OutstandingBy(Next(w, s), session, u) + (if this' then CeilingOf(t) else 0)
               <= OutstandingBy(w, session, t)
            && StandsFor(w, session, t) + (if this' then CountOf(s.consumed) else 0)
               == StandsFor(Next(w, s), session, u)
  {
    WhatARecordLeaves(w, s, k);
    WhatAStepCarries(w, s, w.backlog.tasks[k].id);
    if w.backlog.tasks[k].id == w.threads[s.i].at.task {
      assert IndexOf(w.backlog.tasks, w.threads[s.i].at.task) == k;
    }
  }

  /** One pointwise comparison, with so much more on one side at one place. */
  lemma SumsCompareBut(xs: seq<nat>, ys: seq<nat>, at: nat, more: nat)
    requires |xs| == |ys|
    requires forall k :: 0 <= k < |xs| ==> xs[k] + (if k == at then more else 0) <= ys[k]
    ensures Sum(xs) + (if at < |xs| then more else 0) <= Sum(ys)
  {
    SumsCompare(xs, Only(|xs|, at, more), ys, Only(|xs|, at, 0));
    OnlyThis(|xs|, at, more);
    OnlyThis(|xs|, at, 0);
  }

  /** A task holds no more outstanding than it did, and stands for no less, but for the one at a place. */
  predicate Trades(w: World, v: World, session: SessionId, k: nat, at: nat, ceiling: nat, reported: nat)
    requires k < |w.backlog.tasks| && k < |v.backlog.tasks|
  {
    && OutstandingBy(v, session, v.backlog.tasks[k]) + (if k == at then ceiling else 0)
       <= OutstandingBy(w, session, w.backlog.tasks[k])
    && StandsFor(w, session, w.backlog.tasks[k]) + (if k == at then reported else 0)
       <= StandsFor(v, session, v.backlog.tasks[k])
  }

  lemma TradingMoves(w: World, v: World, session: SessionId, at: nat, ceiling: nat, reported: nat)
    requires |v.backlog.tasks| == |w.backlog.tasks|
    requires forall k :: 0 <= k < |w.backlog.tasks| ==> Trades(w, v, session, k, at, ceiling, reported)
    ensures Outstanding(v, session) + (if at < |w.backlog.tasks| then ceiling else 0) <= Outstanding(w, session)
    ensures Settled(w, session) + (if at < |w.backlog.tasks| then reported else 0) <= Settled(v, session)
  {
    forall k | 0 <= k < |w.backlog.tasks|
      ensures OutstandingEach(v, session)[k] + (if k == at then ceiling else 0) <= OutstandingEach(w, session)[k]
      ensures SettledEach(w, session)[k] + (if k == at then reported else 0) <= SettledEach(v, session)[k]
    {
      assert Trades(w, v, session, k, at, ceiling, reported);
    }
    SumsCompareBut(OutstandingEach(v, session), OutstandingEach(w, session), at, ceiling);
    SumsCompareBut(SettledEach(w, session), SettledEach(v, session), at, reported);
  }

  /** Where the task is whose run a step records for a session, or past the last where it records none. */
  function RecordedAt(w: World, s: Step, session: SessionId): (at: nat)
    requires Enabled(w, s)
    ensures at < |w.backlog.tasks| <==> RecordsFor(w, s, session)
  {
    if RecordsFor(w, s, session) then IndexOf(w.backlog.tasks, w.threads[s.i].at.task) else |w.backlog.tasks|
  }

  function CeilingAt(ts: seq<Task>, at: nat): nat {
    if at < |ts| then CeilingOf(ts[at]) else 0
  }

  lemma RecordingTrades(w: World, s: Step, session: SessionId, at: nat)
    requires Enabled(w, s) && (s.Ends? || s.TurnsAway?) && Sound(w.backlog) && OneRunEach(w)
    requires at == RecordedAt(w, s, session)
    ensures |Next(w, s).backlog.tasks| == |w.backlog.tasks|
    ensures forall k :: 0 <= k < |w.backlog.tasks| ==>
              Trades(w, Next(w, s), session, k, at, CeilingAt(w.backlog.tasks, at), CountOf(s.consumed))
  {
    SameLength(w, s);
    forall k | 0 <= k < |w.backlog.tasks|
      ensures Trades(w, Next(w, s), session, k, at, CeilingAt(w.backlog.tasks, at), CountOf(s.consumed))
    {
      RecordingEndsWhatIsOutstanding(w, s, session, k);
    }
  }

  lemma WhatIsRecorded(w: World, s: Step, session: SessionId)
    requires Enabled(w, s) && (s.Ends? || s.TurnsAway?)
    ensures var at := RecordedAt(w, s, session);
            && ReportedBy(w, s, session) == (if at < |w.backlog.tasks| then CountOf(s.consumed) else 0)
            && ReportedBy(w, s, session)
               <= (if at < |w.backlog.tasks| then CeilingAt(w.backlog.tasks, at) else 0) + WentPast(w, s, session)
  {
  }

  lemma RecordingMoves(w: World, s: Step, session: SessionId)
    requires Enabled(w, s) && (s.Ends? || s.TurnsAway?) && Sound(w.backlog) && OneRunEach(w)
    ensures Outstanding(Next(w, s), session) + ReportedBy(w, s, session)
         <= Outstanding(w, session) + WentPast(w, s, session)
    ensures Settled(w, session) + ReportedBy(w, s, session) <= Settled(Next(w, s), session)
  {
    var at := RecordedAt(w, s, session);
    WhatIsRecorded(w, s, session);
    RecordingTrades(w, s, session, at);
    TradingMoves(w, Next(w, s), session, at, CeilingAt(w.backlog.tasks, at), CountOf(s.consumed));
  }

  lemma SameLength(w: World, s: Step)
    requires Enabled(w, s) && !s.Commands?
    ensures |Next(w, s).backlog.tasks| == |w.backlog.tasks|
  {
  }

  /** Nothing is reported by the steps that neither decide nor end a run, nor by a retry. */
  lemma OtherWorkMoves(w: World, s: Step, session: SessionId)
    requires Enabled(w, s) && !s.Commands? && !s.Decides? && !s.Ends? && !s.TurnsAway?
    ensures Outstanding(Next(w, s), session) <= Outstanding(w, session)
    ensures Settled(w, session) <= Settled(Next(w, s), session)
  {
    SameLength(w, s);
    forall k | 0 <= k < |w.backlog.tasks| ensures Trades(w, Next(w, s), session, k, |w.backlog.tasks|, 0, 0) {
      WhatAStepCarries(w, s, w.backlog.tasks[k].id);
      OtherWorkLeaves(w, s, k);
    }
    TradingMoves(w, Next(w, s), session, |w.backlog.tasks|, 0, 0);
  }

  lemma RetryingMoves(w: World, s: Step, session: SessionId)
    requires Enabled(w, s) && s.Commands? && s.command.Requeue?
    ensures Outstanding(Next(w, s), session) <= Outstanding(w, session)
    ensures Settled(w, session) <= Settled(Next(w, s), session)
  {
    forall k | 0 <= k < |w.backlog.tasks| ensures Trades(w, Next(w, s), session, k, |w.backlog.tasks|, 0, 0) {
      WhatAStepCarries(w, s, w.backlog.tasks[k].id);
    }
    TradingMoves(w, Next(w, s), session, |w.backlog.tasks|, 0, 0);
  }

  lemma AnotherTaskMovesNothing(w: World, v: World, session: SessionId, t: Task)
    requires v.queue == w.queue && v.threads == w.threads && t.session == None
    requires v.backlog.tasks == w.backlog.tasks + [t]
    ensures Outstanding(v, session) == Outstanding(w, session) && Settled(v, session) == Settled(w, session)
  {
    var n := |w.backlog.tasks|;
    assert OutstandingEach(v, session)[..n] == OutstandingEach(w, session);
    assert SettledEach(v, session)[..n] == SettledEach(w, session);
  }

  lemma RegisteringMoves(w: World, s: Step, session: SessionId)
    requires Enabled(w, s) && s.Commands? && s.command.Register?
    ensures Outstanding(Next(w, s), session) <= Outstanding(w, session)
    ensures Settled(w, session) <= Settled(Next(w, s), session)
  {
    if Registers(w.backlog, s.command) {
      AnotherTaskMovesNothing(w, Next(w, s), session, Next(w, s).backlog.tasks[|w.backlog.tasks|]);
    } else {
      assert Next(w, s) == w;
    }
  }

  lemma RemovingMoves(w: World, s: Step, session: SessionId)
    requires Enabled(w, s) && s.Commands? && s.command.Remove?
    ensures Outstanding(Next(w, s), session) <= Outstanding(w, session)
    ensures Settled(w, session) <= Settled(Next(w, s), session) + Lost(w, s, session)
  {
    if Removes(w, s) {
      SplicingMoves(w, Next(w, s), IndexOf(w.backlog.tasks, s.command.id), session);
    } else {
      assert Next(w, s) == w;
    }
  }

  lemma SplicedAt(w: World, v: World, at: nat, session: SessionId, k: nat)
    requires at < |w.backlog.tasks| && v == w.Holding(Spliced(w.backlog.tasks, at)) && k < |v.backlog.tasks|
    ensures var was := if k < at then k else k + 1;
            && OutstandingBy(v, session, v.backlog.tasks[k]) == OutstandingBy(w, session, w.backlog.tasks[was])
            && StandsFor(v, session, v.backlog.tasks[k]) == StandsFor(w, session, w.backlog.tasks[was])
  {
    var t, u := w.backlog.tasks[if k < at then k else k + 1], v.backlog.tasks[k];
    assert u.id == t.id && u.session == t.session && u.ceiling == t.ceiling && u.consumed == t.consumed;
    assert Carried(v, t.id) == Carried(w, t.id);
  }

  lemma SplicingMoves(w: World, v: World, at: nat, session: SessionId)
    requires at < |w.backlog.tasks| && v == w.Holding(Spliced(w.backlog.tasks, at))
    ensures Outstanding(v, session) <= Outstanding(w, session)
    ensures Settled(w, session) <= Settled(v, session) + CountedBy(w.backlog.tasks[at], session)
  {
    forall k | 0 <= k < |v.backlog.tasks|
      ensures OutstandingEach(v, session)[k] == OutstandingEach(w, session)[if k < at then k else k + 1]
      ensures SettledEach(v, session)[k] == SettledEach(w, session)[if k < at then k else k + 1]
    {
      SplicedAt(w, v, at, session, k);
    }
    SumSpliced(OutstandingEach(w, session), OutstandingEach(v, session), at);
    SumSpliced(SettledEach(w, session), SettledEach(v, session), at);
  }

  lemma DecidingLosesWhatItWritesOver(w: World, s: Step, session: SessionId, k: nat)
    requires Enabled(w, s) && s.Decides? && Distinct(w.backlog.tasks) && OneRunEach(w) && k < |w.backlog.tasks|
    ensures |Next(w, s).backlog.tasks| == |w.backlog.tasks|
    ensures var t, u := w.backlog.tasks[k], Next(w, s).backlog.tasks[k];
            StandsFor(w, session, t)
            == StandsFor(Next(w, s), session, u)
              + if t.session == Some(session) && u != t then CountOf(t.consumed) else 0
  {
    var id := w.backlog.tasks[k].id;
    assert IndexOf(w.backlog.tasks, id) == k;
    WhatAStepCarries(w, s, id);
    PickedUpIsHandedOver(w, s, id);
    DecidingCarriesWhatItStarts(w, s, k);
  }

  lemma {:induction false} SumsAgree(xs: seq<nat>, ys: seq<nat>, more: seq<nat>)
    requires |xs| == |ys| == |more|
    requires forall k :: 0 <= k < |xs| ==> xs[k] == ys[k] + more[k]
    ensures Sum(xs) == Sum(ys) + Sum(more)
  {
    if xs != [] {
      var n := |xs| - 1;
      SumsAgree(xs[..n], ys[..n], more[..n]);
    }
  }

  lemma DecidingLoses(w: World, s: Step, session: SessionId)
    requires Enabled(w, s) && s.Decides? && Distinct(w.backlog.tasks) && OneRunEach(w)
    ensures Settled(w, session) == Settled(Next(w, s), session) + Lost(w, s, session)
  {
    var ts, v := w.backlog.tasks, Next(w, s);
    SameLength(w, s);
    var lost := WrittenOverEach(ts, v.backlog.tasks, session);
    forall k | 0 <= k < |ts| ensures SettledEach(w, session)[k] == SettledEach(v, session)[k] + lost[k] {
      DecidingLosesWhatItWritesOver(w, s, session, k);
    }
    SumsAgree(SettledEach(w, session), SettledEach(v, session), lost);
  }

  /** What is told a session is kept, but for what a step loses. */
  lemma WhatStandsMoves(w: World, s: Step, session: SessionId)
    requires Enabled(w, s) && Sound(w.backlog) && OneRunEach(w)
    ensures Settled(w, session) + ReportedBy(w, s, session) <= Settled(Next(w, s), session) + Lost(w, s, session)
  {
    match s
    case Decides(_, _, _) => DecidingLoses(w, s, session);
    case Ends(_, _, _, _, _, _) => RecordingMoves(w, s, session);
    case TurnsAway(_, _, _) => RecordingMoves(w, s, session);
    case Commands(Register(_, _, _, _, _, _, _)) => RegisteringMoves(w, s, session);
    case Commands(Remove(_)) => RemovingMoves(w, s, session);
    case Commands(Requeue(_, _)) => RetryingMoves(w, s, session);
    case _ => OtherWorkMoves(w, s, session);
  }

  /** No step but a decision leaves more outstanding, and recording a run trades its ceiling for what it
      reported, which is more only by what went past it. */
  lemma WorkLeavesNoMoreOutstanding(w: World, s: Step, session: SessionId)
    requires Enabled(w, s) && !s.Decides? && Sound(w.backlog) && OneRunEach(w)
    ensures Outstanding(Next(w, s), session) + ReportedBy(w, s, session)
         <= Outstanding(w, session) + WentPast(w, s, session)
  {
    match s
    case Ends(_, _, _, _, _, _) => RecordingMoves(w, s, session);
    case TurnsAway(_, _, _) => RecordingMoves(w, s, session);
    case Commands(Register(_, _, _, _, _, _, _)) => RegisteringMoves(w, s, session);
    case Commands(Remove(_)) => RemovingMoves(w, s, session);
    case Commands(Requeue(_, _)) => RetryingMoves(w, s, session);
    case _ => OtherWorkMoves(w, s, session);
  }

  // ---------------------------------------------------------------- what a decision leaves outstanding

  /** What is outstanding is the room a decision books, and the ceilings of runs cut off. */
  lemma {:induction false} OutstandingIsRoomAndUnbooked(w: World, session: SessionId, n: nat)
    requires n <= |w.backlog.tasks| && AllCarried(w)
    ensures Sum(OutstandingEach(w, session)[..n])
         == RoomAmong(w.backlog.tasks, session, n) + UnbookedAmong(w, session, n)
  {
    if n > 0 {
      OutstandingIsRoomAndUnbooked(w, session, n - 1);
      OneMore(OutstandingEach(w, session), n);
    }
  }

  lemma WhatIsOutstanding(w: World, session: SessionId)
    requires AllCarried(w)
    ensures Outstanding(w, session) == RoomAmong(w.backlog.tasks, session, |w.backlog.tasks|) + Unbooked(w, session)
  {
    OutstandingIsRoomAndUnbooked(w, session, |w.backlog.tasks|);
    assert OutstandingEach(w, session)[..|w.backlog.tasks|] == OutstandingEach(w, session);
  }

  /** What stands is among what a decision counts. */
  lemma {:induction false} WhatStandsIsCountedAmong(w: World, session: SessionId, n: nat)
    requires n <= |w.backlog.tasks|
    ensures Sum(SettledEach(w, session)[..n]) <= ExactAmong(w.backlog.tasks, session, n)
  {
    if n > 0 {
      WhatStandsIsCountedAmong(w, session, n - 1);
      OneMore(SettledEach(w, session), n);
      assert SettledEach(w, session)[n - 1] <= CountedBy(w.backlog.tasks[n - 1], session);
    }
  }

  lemma WhatStandsIsCounted(w: World, session: SessionId)
    ensures Settled(w, session) <= ExactAmong(w.backlog.tasks, session, |w.backlog.tasks|)
  {
    WhatStandsIsCountedAmong(w, session, |w.backlog.tasks|);
    assert SettledEach(w, session)[..|w.backlog.tasks|] == SettledEach(w, session);
  }

  lemma OthersGiveUpWhatIsHandedOn(w: World, s: Step, session: SessionId, k: nat)
    requires Enabled(w, s) && s.Decides? && Distinct(w.backlog.tasks) && session != w.threads[s.i].at.held.id
    requires k < |w.backlog.tasks|
    ensures |Next(w, s).backlog.tasks| == |w.backlog.tasks|
    ensures OutstandingBy(Next(w, s), session, Next(w, s).backlog.tasks[k])
         <= OutstandingBy(w, session, w.backlog.tasks[k])
  {
    WhatAStepCarries(w, s, w.backlog.tasks[k].id);
    HandedOrNotPickedUp(w, s, k);
  }

  lemma OthersHaveNoMoreOutstanding(w: World, s: Step, session: SessionId)
    requires Enabled(w, s) && s.Decides? && Distinct(w.backlog.tasks) && session != w.threads[s.i].at.held.id
    ensures Outstanding(Next(w, s), session) <= Outstanding(w, session)
  {
    SameLength(w, s);
    forall k | 0 <= k < |w.backlog.tasks|
      ensures OutstandingEach(Next(w, s), session)[k] <= OutstandingEach(w, session)[k]
    {
      OthersGiveUpWhatIsHandedOn(w, s, session, k);
    }
    SumsCompareBut(OutstandingEach(Next(w, s), session), OutstandingEach(w, session), 0, 0);
  }

  /** A decision hands out of what it finds free, and what it hands out is outstanding from then on. */
  lemma HandingOutLeavesOutstanding(w: World, s: Step) returns (handed: nat)
    requires Enabled(w, s) && s.Decides? && Sound(w.backlog) && Kept(w) && OneRunEach(w)
    ensures var held := w.threads[s.i].at.held;
            && handed <= StandsAt(w.backlog.tasks, held, w.threads[s.i].at.read, s.before, w.policy, s.now).Free()
            && Outstanding(Next(w, s), held.id) == Outstanding(w, held.id) + handed
  {
    var held := w.threads[s.i].at.held;
    var taken := HandedOutOfWhatIsFree(w, s);
    handed := Decisions.Total(taken);
    RunningTasksStayCarried(w, s);
    WhatIsOutstanding(w, held.id);
    WhatIsOutstanding(Next(w, s), held.id);
    UnbookedStaysAmong(w, s, held.id, |w.backlog.tasks|);
  }

  /** What stands, what is outstanding and what is free stay within what was declared, or nothing is free. */
  lemma {:induction false} WhatIsFreeIsNotOutstanding(w: World, held: Session, read: Option<Measured>, before: Figures,
                                                      now: U64)
    requires RoomBounded(w) && Keeps(w.sessions, held.id) && held.budget.usage.InTokens? && AllCarried(w)
    ensures var free := StandsAt(w.backlog.tasks, held, read, before, w.policy, now).Free();
            free == 0 || Settled(w, held.id) + Outstanding(w, held.id) + free
                         <= held.budget.Declared() + Unbooked(w, held.id)
  {
    FreeOfTokens(w, held, read, before, now);
    WhatIsOutstanding(w, held.id);
    WhatStandsIsCounted(w, held.id);
  }

  /** So what was ever told a session and what is outstanding stay within what it declared, where what it
      was told still stands but for what it forgot. */
  lemma {:induction false} DecidingLeavesOutstanding(w: World, s: Step, reported: nat, forgot: nat)
    requires Enabled(w, s) && s.Decides? && Sound(w.backlog) && Kept(w) && OneRunEach(w) && RoomBounded(w)
    requires w.threads[s.i].at.held.budget.usage.InTokens?
    requires reported <= Settled(w, w.threads[s.i].at.held.id) + forgot
    ensures var held := w.threads[s.i].at.held;
            reported + Outstanding(Next(w, s), held.id)
            <= Max(reported + Outstanding(w, held.id), held.budget.Declared() + forgot + Unbooked(w, held.id))
  {
    var held := w.threads[s.i].at.held;
    assert PhaseKnown(w.sessions, w.threads[s.i].at);
    var handed := HandingOutLeavesOutstanding(w, s);
    WhatIsFreeIsNotOutstanding(w, held, w.threads[s.i].at.read, s.before, s.now);
  }

  // ---------------------------------------------------------------- over whole runs

  lemma DecidedForBefore(w: World, s: Step, session: SessionId)
    requires Enabled(w, s) && Keeps(w.sessions, session) && DecidedFor(Next(w, s), session)
    ensures DecidedFor(w, session)
  {
    SessionsOnlyGrow(w, s);
    GrownFinds(w.sessions, Next(w, s).sessions, session);
    var v := Next(w, s);
    if !Runs(w.sessions, session) {
      var j :| 0 <= j < |v.threads| && v.threads[j].at.Deciding? && v.threads[j].at.held.id == session;
      StaysDeciding(w, s, j);
    }
  }

  lemma StaysDeciding(w: World, s: Step, j: nat)
    requires Enabled(w, s) && j < |Next(w, s).threads| && Next(w, s).threads[j].at.Deciding?
    ensures Runs(w.sessions, Next(w, s).threads[j].at.held.id)
            || (j < |w.threads| && w.threads[j].at == Next(w, s).threads[j].at)
  {
  }

  /** What is known of a session after so much was told it, runs it recorded went so far past their
      ceilings, it forgot so much, and late decisions booked no room for so much. */
  predicate Balanced(w: World, session: SessionId, reported: nat, past: nat, forgot: nat, late: nat) {
    && (!Keeps(w.sessions, session) ==> reported == 0 && Outstanding(w, session) == 0)
    && (DecidedFor(w, session) ==> reported <= Settled(w, session) + forgot)
    && (Keeps(w.sessions, session) && HeldAs(w.sessions, session).budget.usage.InTokens? ==>
          reported + Outstanding(w, session) <= HeldAs(w.sessions, session).budget.Declared() + past + forgot + late)
  }

  lemma NobodyRecords(w: World, s: Step, session: SessionId)
    requires Enabled(w, s) && TasksKnown(w) && !Keeps(w.sessions, session)
    ensures !RecordsFor(w, s, session)
  {
    if s.Ends? || s.TurnsAway? {
      var at := IndexOf(w.backlog.tasks, w.threads[s.i].at.task);
      if at < |w.backlog.tasks| {
        assert Known(w.sessions, w.backlog.tasks[at].session);
      }
    }
  }

  lemma {:induction false} NothingIsNothing(xs: seq<nat>)
    requires forall k :: 0 <= k < |xs| ==> xs[k] == 0
    ensures Sum(xs) == 0
  {
    if xs != [] {
      NothingIsNothing(xs[..|xs| - 1]);
    }
  }

  lemma NothingOutstanding(w: World, session: SessionId)
    requires TasksKnown(w) && !Keeps(w.sessions, session)
    ensures Outstanding(w, session) == 0
  {
    forall k | 0 <= k < |w.backlog.tasks| ensures OutstandingEach(w, session)[k] == 0 {
      assert Known(w.sessions, w.backlog.tasks[k].session);
    }
    NothingIsNothing(OutstandingEach(w, session));
  }

  /** What stands stays what was told, but for what is forgotten. */
  lemma WhatStandsStaysTold(w: World, s: Step, session: SessionId, reported: nat, forgot: nat)
    requires Enabled(w, s) && Sound(w.backlog) && OneRunEach(w) && TasksKnown(w)
    requires !Keeps(w.sessions, session) ==> reported == 0
    requires DecidedFor(w, session) ==> reported <= Settled(w, session) + forgot
    ensures DecidedFor(Next(w, s), session) ==>
              reported + ReportedBy(w, s, session) <= Settled(Next(w, s), session) + forgot + Forgotten(w, s, session)
  {
    if DecidedFor(Next(w, s), session) {
      if Keeps(w.sessions, session) {
        DecidedForBefore(w, s, session);
        WhatStandsMoves(w, s, session);
      } else {
        NobodyRecords(w, s, session);
      }
    }
  }

  lemma OutstandingStaysWithin(w: World, s: Step, session: SessionId, reported: nat, past: nat, forgot: nat, late: nat)
    requires Enabled(w, s) && Sound(w.backlog) && Kept(w) && Accounted(w)
    requires Balanced(w, session, reported, past, forgot, late)
    requires Keeps(w.sessions, session) && HeldAs(w.sessions, session).budget.usage.InTokens?
    ensures reported + ReportedBy(w, s, session) + Outstanding(Next(w, s), session)
            <= HeldAs(w.sessions, session).budget.Declared() + past + WentPast(w, s, session) + forgot
               + late + NotBooked(w, s, session)
  {
    if !s.Decides? {
      WorkLeavesNoMoreOutstanding(w, s, session);
    } else if w.threads[s.i].at.held.id != session {
      OthersHaveNoMoreOutstanding(w, s, session);
    } else {
      assert PhaseKnown(w.sessions, w.threads[s.i].at);
      assert DecidedFor(w, session);
      DecidingLeavesOutstanding(w, s, reported, forgot);
    }
  }

  lemma StepsStayBalanced(w: World, s: Step, session: SessionId, reported: nat, past: nat, forgot: nat, late: nat)
    requires Enabled(w, s) && Sound(w.backlog) && Kept(w) && Accounted(w)
    requires Balanced(w, session, reported, past, forgot, late)
    ensures Balanced(Next(w, s), session, reported + ReportedBy(w, s, session), past + WentPast(w, s, session),
                     forgot + Forgotten(w, s, session), late + NotBooked(w, s, session))
  {
    SessionsOnlyGrow(w, s);
    TasksStayKnown(w, s);
    WhatStandsStaysTold(w, s, session, reported, forgot);
    if Keeps(w.sessions, session) {
      GrownFinds(w.sessions, Next(w, s).sessions, session);
      if HeldAs(w.sessions, session).budget.usage.InTokens? {
        OutstandingStaysWithin(w, s, session, reported, past, forgot, late);
      }
    } else {
      NobodyRecords(w, s, session);
      NoMoreIsOutstanding(w, s, session);
    }
  }

  /** A session not opened yet has nothing outstanding, nor has one that just was. */
  lemma NoMoreIsOutstanding(w: World, s: Step, session: SessionId)
    requires Enabled(w, s) && Sound(w.backlog) && OneRunEach(w) && TasksKnown(w) && ThreadsKnown(w)
    requires !Keeps(w.sessions, session)
    ensures Outstanding(Next(w, s), session) == 0
  {
    NothingOutstanding(w, session);
    if s.Decides? {
      assert PhaseKnown(w.sessions, w.threads[s.i].at);
      OthersHaveNoMoreOutstanding(w, s, session);
    } else {
      NobodyRecords(w, s, session);
      WorkLeavesNoMoreOutstanding(w, s, session);
    }
  }

  /** All that a session was ever told its runs spent. */
  function ReportedOver(w: World, steps: seq<Step>, session: SessionId): nat
    requires CanRun(w, steps)
    decreases steps
  {
    if steps == [] then 0 else ReportedBy(w, steps[0], session) + ReportedOver(Next(w, steps[0]), steps[1..], session)
  }

  function AllForgotten(w: World, steps: seq<Step>, session: SessionId): nat
    requires CanRun(w, steps)
    decreases steps
  {
    if steps == [] then 0 else Forgotten(w, steps[0], session) + AllForgotten(Next(w, steps[0]), steps[1..], session)
  }

  lemma {:induction false} RunsStayBalanced(w: World, steps: seq<Step>, session: SessionId, reported: nat, past: nat,
                                            forgot: nat, late: nat)
    requires CanRun(w, steps) && AllRetryInTime(w, steps) && Sound(w.backlog) && Kept(w) && Accounted(w)
    requires Balanced(w, session, reported, past, forgot, late)
    ensures Balanced(Ran(w, steps), session, reported + ReportedOver(w, steps, session),
                     past + AllWentPast(w, steps, session), forgot + AllForgotten(w, steps, session),
                     late + AllNotBooked(w, steps, session))
    decreases steps
  {
    if steps != [] {
      var s := steps[0];
      StepsKeep(w, s);
      StepsKeepAccounted(w, s);
      StepsStayBalanced(w, s, session, reported, past, forgot, late);
      RunsStayBalanced(Next(w, s), steps[1..], session, reported + ReportedBy(w, s, session),
                       past + WentPast(w, s, session),
                       forgot + Forgotten(w, s, session), late + NotBooked(w, s, session));
    }
  }

  /** A budget in tokens is never over-committed: over every run of the daemon from its start whose retries
      come in time, all a session was ever told its runs spent, and the whole ceilings of those still to be
      recorded, come to no more than it declared, plus how far recorded runs went past their ceilings, plus
      what it was made to forget, plus what late decisions booked no room for. */
  lemma BudgetIsNeverOverCommitted(atOnce: nat, policy: Policy, steps: seq<Step>, session: SessionId)
    requires atOnce > 0 && CanRun(NewDaemon(atOnce, policy), steps) && AllRetryInTime(NewDaemon(atOnce, policy), steps)
    requires Keeps(Ran(NewDaemon(atOnce, policy), steps).sessions, session)
    requires HeldAs(Ran(NewDaemon(atOnce, policy), steps).sessions, session).budget.usage.InTokens?
    ensures var w0, w := NewDaemon(atOnce, policy), Ran(NewDaemon(atOnce, policy), steps);
            ReportedOver(w0, steps, session) + Outstanding(w, session)
            <= HeldAs(w.sessions, session).budget.Declared() + AllWentPast(w0, steps, session)
               + AllForgotten(w0, steps, session) + AllNotBooked(w0, steps, session)
  {
    var w0 := NewDaemon(atOnce, policy);
    ADaemonStartsKept(atOnce, policy);
    ADaemonStartsAccounted(atOnce, policy);
    assert OutstandingEach(w0, session) == [] && !DecidedFor(w0, session);
    RunsStayBalanced(w0, steps, session, 0, 0, 0, 0);
  }

  // ---------------------------------------------------------------- runs that forget nothing

  /** A step lets what was told stand: nobody removes a task that told a session still decided for, and no
      decision for that session is made while such a task waits. Only a retry by a person, and the vendor
      turning away a run that had spent something, leave one waiting. */
  predicate LetsReportsStand(w: World, s: Step, session: SessionId)
    requires Enabled(w, s)
  {
    DecidedFor(w, session) && (s.Decides? || (s.Commands? && s.command.Remove?)) ==>
      forall k :: 0 <= k < |w.backlog.tasks| && (s.Decides? || w.backlog.tasks[k].id == s.command.id) ==>
        TellsWaiting(w.backlog.tasks[k], session) == 0
  }

  /** What a waiting task told a session. */
  function TellsWaiting(t: Task, session: SessionId): nat {
    if t.session == Some(session) && t.state.Pending? then CountOf(t.consumed) else 0
  }

  predicate AllLetReportsStand(w: World, steps: seq<Step>, session: SessionId)
    requires CanRun(w, steps)
    decreases steps
  {
    steps == []
    || (LetsReportsStand(w, steps[0], session) && AllLetReportsStand(Next(w, steps[0]), steps[1..], session))
  }

  lemma StandingReportsAreNotForgotten(w: World, s: Step, session: SessionId)
    requires Enabled(w, s) && Sound(w.backlog) && LetsReportsStand(w, s, session)
    ensures Forgotten(w, s, session) == 0
  {
    if DecidedFor(w, session) && s.Decides? {
      SameLength(w, s);
      forall k | 0 <= k < |w.backlog.tasks|
        ensures WrittenOverEach(w.backlog.tasks, Next(w, s).backlog.tasks, session)[k] == 0
      {
        DecidingCarriesWhatItStarts(w, s, k);
        assert TellsWaiting(w.backlog.tasks[k], session) == 0;
      }
      NothingIsNothing(WrittenOverEach(w.backlog.tasks, Next(w, s).backlog.tasks, session));
    } else if DecidedFor(w, session) && Removes(w, s) {
      assert TellsWaiting(w.backlog.tasks[IndexOf(w.backlog.tasks, s.command.id)], session) == 0;
    }
  }

  lemma {:induction false} NothingIsForgotten(w: World, steps: seq<Step>, session: SessionId)
    requires CanRun(w, steps) && AllLetReportsStand(w, steps, session) && Sound(w.backlog)
    ensures AllForgotten(w, steps, session) == 0
    decreases steps
  {
    if steps != [] {
      StandingReportsAreNotForgotten(w, steps[0], session);
      BacklogStaysSound(w, steps[0]);
      NothingIsForgotten(Next(w, steps[0]), steps[1..], session);
    }
  }

  /** Over timely runs that let reports stand, only what recorded runs went past their own ceilings takes
      all that was ever spent for a session, and all that its runs may still spend, past what it declared. */
  lemma OnlyRunsPastTheirCeilingsOverspend(atOnce: nat, policy: Policy, steps: seq<Step>, session: SessionId)
    requires atOnce > 0 && CanRun(NewDaemon(atOnce, policy), steps) && AllTimely(NewDaemon(atOnce, policy), steps)
    requires AllLetReportsStand(NewDaemon(atOnce, policy), steps, session)
    requires Keeps(Ran(NewDaemon(atOnce, policy), steps).sessions, session)
    requires HeldAs(Ran(NewDaemon(atOnce, policy), steps).sessions, session).budget.usage.InTokens?
    ensures var w0, w := NewDaemon(atOnce, policy), Ran(NewDaemon(atOnce, policy), steps);
            ReportedOver(w0, steps, session) + Outstanding(w, session)
            <= HeldAs(w.sessions, session).budget.Declared() + AllWentPast(w0, steps, session)
  {
    ADaemonStartsKept(atOnce, policy);
    ADaemonStartsAccounted(atOnce, policy);
    BudgetIsNeverOverCommitted(atOnce, policy, steps, session);
    NothingIsForgotten(NewDaemon(atOnce, policy), steps, session);
    TimelyRunsBookEverything(NewDaemon(atOnce, policy), steps, session);
  }

  // ---- what a running session still counts of what it was told

  lemma RecordingStandsExactly(w: World, s: Step, session: SessionId)
    requires Enabled(w, s) && (s.Ends? || s.TurnsAway?) && Sound(w.backlog) && OneRunEach(w)
    ensures Settled(Next(w, s), session) == Settled(w, session) + ReportedBy(w, s, session)
  {
    var at, n := RecordedAt(w, s, session), |w.backlog.tasks|;
    SameLength(w, s);
    forall k | 0 <= k < n
      ensures SettledEach(Next(w, s), session)[k] == SettledEach(w, session)[k] + Only(n, at, CountOf(s.consumed))[k]
    {
      RecordingEndsWhatIsOutstanding(w, s, session, k);
    }
    SumsAgree(SettledEach(Next(w, s), session), SettledEach(w, session), Only(n, at, CountOf(s.consumed)));
    OnlyThis(n, at, CountOf(s.consumed));
    WhatIsRecorded(w, s, session);
  }

  /** A running session's task with a run still to be recorded keeps it through every step but the ones
      that record it: no worker finds it no longer running. */
  lemma RunsAreKept(w: World, s: Step, session: SessionId, k: nat)
    requires Enabled(w, s) && !s.Decides? && !s.Ends? && !s.TurnsAway? && Distinct(w.backlog.tasks) && CarriedRuns(w)
    requires k < |w.backlog.tasks| && w.backlog.tasks[k].session == Some(session) && Runs(w.sessions, session)
    ensures Carried(Next(w, s), w.backlog.tasks[k].id) == Carried(w, w.backlog.tasks[k].id)
  {
    var id := w.backlog.tasks[k].id;
    assert IndexOf(w.backlog.tasks, id) == k;
    assert CarriedRunsAt(w, w.backlog.tasks[k]);
    WhatAStepCarries(w, s, id);
  }

  lemma OtherWorkStandsExactly(w: World, s: Step, session: SessionId)
    requires Enabled(w, s) && !s.Commands? && !s.Decides? && !s.Ends? && !s.TurnsAway?
    requires Distinct(w.backlog.tasks) && CarriedRuns(w) && Runs(w.sessions, session)
    ensures Settled(Next(w, s), session) == Settled(w, session)
  {
    SameLength(w, s);
    forall k | 0 <= k < |w.backlog.tasks| ensures SettledEach(Next(w, s), session)[k] == SettledEach(w, session)[k] {
      OtherWorkLeaves(w, s, k);
      if w.backlog.tasks[k].session == Some(session) {
        RunsAreKept(w, s, session, k);
      }
    }
    assert SettledEach(Next(w, s), session) == SettledEach(w, session);
  }

  lemma RetryingStandsExactly(w: World, s: Step, session: SessionId)
    requires Enabled(w, s) && s.Commands? && s.command.Requeue?
    ensures Settled(Next(w, s), session) == Settled(w, session)
  {
    forall k | 0 <= k < |w.backlog.tasks| ensures SettledEach(Next(w, s), session)[k] == SettledEach(w, session)[k] {
      WhatAStepCarries(w, s, w.backlog.tasks[k].id);
    }
    assert SettledEach(Next(w, s), session) == SettledEach(w, session);
  }

  lemma RegisteringStandsExactly(w: World, s: Step, session: SessionId)
    requires Enabled(w, s) && s.Commands? && s.command.Register?
    ensures Settled(Next(w, s), session) == Settled(w, session)
  {
    if Registers(w.backlog, s.command) {
      AnotherTaskMovesNothing(w, Next(w, s), session, Next(w, s).backlog.tasks[|w.backlog.tasks|]);
    } else {
      assert Next(w, s) == w;
    }
  }

  lemma RemovingStandsExactly(w: World, s: Step, session: SessionId)
    requires Enabled(w, s) && s.Commands? && s.command.Remove? && OneRunEach(w)
    ensures Settled(w, session) == Settled(Next(w, s), session) + Lost(w, s, session)
  {
    if Removes(w, s) {
      SplicingStandsExactly(w, Next(w, s), IndexOf(w.backlog.tasks, s.command.id), session);
    } else {
      assert Next(w, s) == w;
    }
  }

  lemma SplicingStandsExactly(w: World, v: World, at: nat, session: SessionId)
    requires at < |w.backlog.tasks| && v == w.Holding(Spliced(w.backlog.tasks, at)) && OneRunEach(w)
    requires w.backlog.tasks[at].state.Pending?
    ensures Settled(w, session) == Settled(v, session) + CountedBy(w.backlog.tasks[at], session)
  {
    forall k | 0 <= k < |v.backlog.tasks|
      ensures SettledEach(v, session)[k] == SettledEach(w, session)[if k < at then k else k + 1]
    {
      SplicedAt(w, v, at, session, k);
    }
    SumSpliced(SettledEach(w, session), SettledEach(v, session), at);
  }

  lemma WhatStandsMovesExactly(w: World, s: Step, session: SessionId)
    requires Enabled(w, s) && Sound(w.backlog) && OneRunEach(w) && CarriedRuns(w) && Runs(w.sessions, session)
    ensures Settled(w, session) + ReportedBy(w, s, session) == Settled(Next(w, s), session) + Lost(w, s, session)
  {
    match s
    case Decides(_, _, _) => DecidingLoses(w, s, session);
    case Ends(_, _, _, _, _, _) => RecordingStandsExactly(w, s, session);
    case TurnsAway(_, _, _) => RecordingStandsExactly(w, s, session);
    case Commands(Register(_, _, _, _, _, _, _)) => RegisteringStandsExactly(w, s, session);
    case Commands(Remove(_)) => RemovingStandsExactly(w, s, session);
    case Commands(Requeue(_, _)) => RetryingStandsExactly(w, s, session);
    case _ => OtherWorkStandsExactly(w, s, session);
  }

  /** What stands of what a running session was told is all of it but what it forgot. */
  predicate Remembered(w: World, session: SessionId, reported: nat, forgot: nat) {
    && (!Keeps(w.sessions, session) ==> reported == 0 && forgot == 0)
    && (Runs(w.sessions, session) ==> reported == Settled(w, session) + forgot)
  }

  lemma NobodyDecidesForIt(w: World, session: SessionId)
    requires ThreadsKnown(w) && !Keeps(w.sessions, session)
    ensures !DecidedFor(w, session)
  {
    forall j | 0 <= j < |w.threads| && w.threads[j].at.Deciding? ensures w.threads[j].at.held.id != session {
      assert PhaseKnown(w.sessions, w.threads[j].at);
    }
  }

  lemma NothingStands(w: World, v: World, session: SessionId)
    requires TasksKnown(w) && !Keeps(w.sessions, session) && v.backlog == w.backlog
    ensures Settled(v, session) == 0
  {
    forall k | 0 <= k < |v.backlog.tasks| ensures SettledEach(v, session)[k] == 0 {
      assert Known(w.sessions, w.backlog.tasks[k].session);
    }
    NothingIsNothing(SettledEach(v, session));
  }

  lemma NoOtherStepAddsASession(w: World, s: Step, session: SessionId)
    requires Enabled(w, s) && !s.Opens? && !Keeps(w.sessions, session)
    ensures !Keeps(Next(w, s).sessions, session)
  {
    SessionsOnlyGrow(w, s);
    forall j | 0 <= j < |w.sessions| ensures Next(w, s).sessions[j].id != session {
      assert GoesOn(w.sessions[j], Next(w, s).sessions[j]);
    }
  }

  lemma StepsStayRemembered(w: World, s: Step, session: SessionId, reported: nat, forgot: nat)
    requires Enabled(w, s) && Sound(w.backlog) && Kept(w) && Accounted(w) && Remembered(w, session, reported, forgot)
    ensures Remembered(Next(w, s), session, reported + ReportedBy(w, s, session), forgot + Forgotten(w, s, session))
  {
    SessionsOnlyGrow(w, s);
    if Keeps(w.sessions, session) {
      GrownFinds(w.sessions, Next(w, s).sessions, session);
      if Runs(w.sessions, session) {
        WhatStandsMovesExactly(w, s, session);
      }
    } else {
      NobodyRecords(w, s, session);
      NobodyDecidesForIt(w, session);
      if s.Opens? {
        NothingStands(w, Next(w, s), session);
      } else {
        NoOtherStepAddsASession(w, s, session);
      }
    }
  }

  lemma {:induction false} RunsStayRemembered(w: World, steps: seq<Step>, session: SessionId, reported: nat,
                                              forgot: nat)
    requires CanRun(w, steps) && AllRetryInTime(w, steps) && Sound(w.backlog) && Kept(w) && Accounted(w)
    requires Remembered(w, session, reported, forgot)
    ensures Remembered(Ran(w, steps), session, reported + ReportedOver(w, steps, session),
                       forgot + AllForgotten(w, steps, session))
    decreases steps
  {
    if steps != [] {
      var s := steps[0];
      StepsKeep(w, s);
      StepsKeepAccounted(w, s);
      StepsStayRemembered(w, s, session, reported, forgot);
      RunsStayRemembered(Next(w, s), steps[1..], session, reported + ReportedBy(w, s, session),
                         forgot + Forgotten(w, s, session));
    }
  }

  /** What is forgotten is exact: while a session runs, what its tasks with no run out say they consumed is,
      to the token, all it was ever told less what it forgot. */
  lemma WhatStandsIsWhatWasToldLessWhatWasForgotten(atOnce: nat, policy: Policy, steps: seq<Step>, session: SessionId)
    requires atOnce > 0 && CanRun(NewDaemon(atOnce, policy), steps) && AllRetryInTime(NewDaemon(atOnce, policy), steps)
    requires Runs(Ran(NewDaemon(atOnce, policy), steps).sessions, session)
    ensures var w0 := NewDaemon(atOnce, policy);
            ReportedOver(w0, steps, session) == Settled(Ran(w0, steps), session) + AllForgotten(w0, steps, session)
  {
    ADaemonStartsKept(atOnce, policy);
    ADaemonStartsAccounted(atOnce, policy);
    RunsStayRemembered(NewDaemon(atOnce, policy), steps, session, 0, 0);
  }
}
