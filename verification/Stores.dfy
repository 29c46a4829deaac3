/** What the two stores are handed and hand back: every value as the text a user would have typed. */
module Stores {
  import opened Wrappers
  import opened Numbers
  import opened Spendings
  import opened Tasks
  import opened Graph
  import opened SessionValues
  import opened Decimals
  import opened Spellings
  import Sessions
  import Backlogs

  datatype Unusable =
    | NotReadable(field: string, value: string)
    | SaysBoth
    | NotSessions(of: Sessions.NotASessionSet)
    | NotTasks(among: Backlogs.NotABacklog)

  function Need<T>(field: string, value: string, read: Option<T>): Result<T, Unusable> {
    match read
    case Some(it) => Ok(it)
    case None => Err(NotReadable(field, value))
  }

  function Count(field: string, value: string): Result<U64, Unusable> {
    Need(field, value, Parsed(value, U64_MAX))
  }

  function CountIfAny(field: string, value: Option<string>): Result<Option<U64>, Unusable> {
    match value
    case None => Ok(None)
    case Some(text) =>
      var count :- Count(field, text);
      Ok(Some(count))
  }

  function DigitsIfAny(count: Option<nat>): Option<string> {
    match count
    case None => None
    case Some(n) => Some(Digits(n))
  }

  lemma CountsReadBack(field: string, count: U64)
    ensures Count(field, Digits(count)) == Ok(count)
    ensures CountIfAny(field, Some(Digits(count))) == Ok(Some(count))
  {
    WrittenReadsBack(count, U64_MAX);
  }

  lemma CountsIfAnyReadBack(field: string, count: Option<U64>)
    ensures CountIfAny(field, DigitsIfAny(count)) == Ok(count)
  {
    if count.Some? {
      CountsReadBack(field, count.value);
    }
  }

  // ---------------------------------------------------------------- lists

  /** Each in turn, as far as the first that cannot be read. */
  function ReadAmong<S, T>(read: S -> Result<T, Unusable>, stored: seq<S>, n: nat): Result<seq<T>, Unusable>
    requires n <= |stored|
  {
    if n == 0 then Ok([])
    else
      var before :- ReadAmong(read, stored, n - 1);
      var one :- read(stored[n - 1]);
      Ok(before + [one])
  }

  lemma {:induction false} NoneAfterAFault<S, T>(read: S -> Result<T, Unusable>, stored: seq<S>, m: nat, n: nat)
    requires m <= n <= |stored| && ReadAmong(read, stored, m).Err?
    ensures ReadAmong(read, stored, n) == ReadAmong(read, stored, m)
  {
    if m < n {
      NoneAfterAFault(read, stored, m, n - 1);
    }
  }

  method ReadEach<S, T>(read: S -> Result<T, Unusable>, stored: seq<S>) returns (r: Result<seq<T>, Unusable>)
    ensures r == ReadAmong(read, stored, |stored|)
  {
    var held: seq<T> := [];
    for i := 0 to |stored|
      invariant ReadAmong(read, stored, i) == Ok(held)
    {
      var one := read(stored[i]);
      if one.Err? {
        NoneAfterAFault(read, stored, i + 1, |stored|);
        return Err(one.error);
      }
      held := held + [one.value];
    }
    r := Ok(held);
  }

  predicate ReadsAs<S, T(==)>(read: S -> Result<T, Unusable>, stored: S, it: T) {
    read(stored) == Ok(it)
  }

  /** A list reads as what each on it reads as. */
  lemma {:induction false} ReadsAsEachDoes<S, T>(read: S -> Result<T, Unusable>, stored: seq<S>, these: seq<T>, n: nat)
    requires n <= |stored| && n <= |these|
    ensures ReadAmong(read, stored, n) == Ok(these[..n])
            <==> forall i :: 0 <= i < n ==> ReadsAs(read, stored[i], these[i])
  {
    if n > 0 {
      ReadsAsEachDoes(read, stored, these, n - 1);
      assert these[..n] == these[..n - 1] + [these[n - 1]];
      var before := ReadAmong(read, stored, n - 1);
      if before.Ok? && read(stored[n - 1]).Ok? {
        LastsAgree(before.value, read(stored[n - 1]).value, these[..n - 1], these[n - 1]);
      }
    }
  }

  lemma LastsAgree<T>(one: seq<T>, a: T, another: seq<T>, b: T)
    ensures one + [a] == another + [b] <==> one == another && a == b
  {
    if one + [a] == another + [b] {
      assert (one + [a])[..|one|] == one && (another + [b])[..|another|] == another;
      assert (one + [a])[|one|] == a && (another + [b])[|another|] == b;
    }
  }

  // ---------------------------------------------------------------- sessions

  datatype StoredSession = StoredSession(
    id: string,
    state: string,
    stoppedReason: Option<string>,
    usage: string,
    time: string,
    model: Option<string>,
    startedAt: string,
    limitAtStart: Option<string>,
    limitLastSeen: Option<string>,
    consumed: string,
    updatedAt: string,
    resetsAt: Option<string>)

  datatype StoredSessions = StoredSessions(nextId: string, sessions: seq<StoredSession>)

  function ReadSpending(consumed: string, usage: string): Result<Spending, Unusable> {
    var counted :- Count("consumed", consumed);
    var declared :- Need("usage", usage, ReadUsage(usage));
    Ok(if declared.InShare? then Share(counted) else Tokens(counted))
  }

  function ReasonIfAny(reason: Option<string>): Result<Option<StoppedReason>, Unusable> {
    match reason
    case None => Ok(None)
    case Some(text) =>
      var why :- Need("stopped_reason", text, ReadReason(text));
      Ok(Some(why))
  }

  function ReadBudget(usage: string, time: string): Result<Budget, Unusable> {
    var declared :- Need("usage", usage, ReadUsage(usage));
    var span :- Need("time", time, ReadSpan(time));
    Ok(Budget(declared, span))
  }

  function HeldFrom(one: StoredSession): Result<Session, Unusable> {
    var startedAt :- Count("started_at", one.startedAt);
    var updatedAt :- Count("updated_at", one.updatedAt);
    var resetsAt :- CountIfAny("resets_at", one.resetsAt);
    var consumed :- ReadSpending(one.consumed, one.usage);
    var limitAtStart :- CountIfAny("limit_at_start", one.limitAtStart);
    var limitLastSeen :- CountIfAny("limit_last_seen", one.limitLastSeen);
    var id :- Need("id", one.id, ReadId("session:", one.id));
    var state :- Need("state", one.state, ReadSessionState(one.state));
    var stoppedReason :- ReasonIfAny(one.stoppedReason);
    var budget :- ReadBudget(one.usage, one.time);
    Ok(Session(id, state, stoppedReason, budget, one.model, startedAt, limitAtStart, limitLastSeen, consumed, updatedAt,
               resetsAt))
  }

  function WrittenSession(s: Session): StoredSession {
    StoredSession(
      Digits(s.id),
      SessionStateText(s.state),
      match s.stoppedReason { case None => None case Some(why) => Some(Spelled(why)) },
      UsageText(s.budget.usage),
      SpanText(s.budget.time),
      s.model,
      Digits(s.startedAt),
      DigitsIfAny(s.limitAtStart),
      DigitsIfAny(s.limitLastSeen),
      Digits(s.consumed.figure),
      Digits(s.updatedAt),
      DigitsIfAny(s.resetsAt))
  }

  /** What a session must be for a store to hold it: a budget that may be declared, and a figure in its unit. */
  predicate Storable(s: Session) {
    MayBeDeclared(s.budget.usage) && s.budget.time > 0 && s.consumed.InTheUnitOf(s.budget.usage)
  }

  lemma SpendingReadsBack(s: Session)
    ensures ReadSpending(Digits(s.consumed.figure), UsageText(s.budget.usage)) == Ok(s.consumed)
       <==> MayBeDeclared(s.budget.usage) && s.consumed.InTheUnitOf(s.budget.usage)
  {
    CountsReadBack("consumed", s.consumed.figure);
    ReadsBackOrNot(s.budget.usage);
  }

  lemma ReadsBackOrNot(usage: Usage)
    ensures ReadUsage(UsageText(usage)) == if MayBeDeclared(usage) then Some(usage) else None
  {
    match usage
    case InShare(percent) => SharesReadBack(percent);
    case InTokens(count) => TokensReadBack(count);
  }

  lemma BudgetReadsBack(budget: Budget)
    ensures ReadBudget(UsageText(budget.usage), SpanText(budget.time)) == Ok(budget)
       <==> MayBeDeclared(budget.usage) && budget.time > 0
  {
    ReadsBackOrNot(budget.usage);
    SpanReadsBack(budget.time, "");
  }

  lemma NamesOfASessionReadBack(s: Session)
    ensures ReadId("session:", Digits(s.id)) == Some(s.id)
    ensures ReadSessionState(SessionStateText(s.state)) == Some(s.state)
    ensures ReasonIfAny(WrittenSession(s).stoppedReason) == Ok(s.stoppedReason)
  {
    IdsReadBack("session:", s.id);
    NamesReadBack(SessionStateText(s.state));
    if s.stoppedReason.Some? {
      NamesReadBack(Spelled(s.stoppedReason.value));
    }
  }

  lemma FiguresOfASessionReadBack(s: Session)
    ensures Count("started_at", Digits(s.startedAt)) == Ok(s.startedAt)
    ensures Count("updated_at", Digits(s.updatedAt)) == Ok(s.updatedAt)
    ensures CountIfAny("resets_at", DigitsIfAny(s.resetsAt)) == Ok(s.resetsAt)
    ensures CountIfAny("limit_at_start", DigitsIfAny(s.limitAtStart)) == Ok(s.limitAtStart)
    ensures CountIfAny("limit_last_seen", DigitsIfAny(s.limitLastSeen)) == Ok(s.limitLastSeen)
  {
    CountsReadBack("started_at", s.startedAt);
    CountsReadBack("updated_at", s.updatedAt);
    CountsIfAnyReadBack("resets_at", s.resetsAt);
    CountsIfAnyReadBack("limit_at_start", s.limitAtStart);
    CountsIfAnyReadBack("limit_last_seen", s.limitLastSeen);
  }

  /** A session reads back as itself exactly where a store may hold it. */
  lemma ASessionReadsBack(s: Session)
    ensures HeldFrom(WrittenSession(s)) == Ok(s) <==> Storable(s)
  {
    FiguresOfASessionReadBack(s);
    NamesOfASessionReadBack(s);
    SpendingReadsBack(s);
    BudgetReadsBack(s.budget);
  }

  function WrittenSessions(nextId: U32, ss: seq<Session>): StoredSessions {
    StoredSessions(Digits(nextId), seq(|ss|, i requires 0 <= i < |ss| => WrittenSession(ss[i])))
  }

  /** What a store holds, where it is one this core can use. */
  function SessionsIn(stored: StoredSessions): Option<(U32, seq<Session>)> {
    var nextId := Parsed(stored.nextId, U32_MAX);
    var held := ReadAmong(HeldFrom, stored.sessions, |stored.sessions|);
    if nextId.Some? && held.Ok? && ASessionSet(held.value) then Some((nextId.value, held.value)) else None
  }

  method ReadSessions(stored: StoredSessions) returns (r: Result<Sessions.Sessions, Unusable>)
    ensures r.Ok? <==> SessionsIn(stored).Some?
    ensures r.Ok? ==> fresh(r.value) && SessionsIn(stored) == Some((r.value.nextId, r.value.sessions))
  {
    var nextId :- Need("next_id", stored.nextId, Parsed(stored.nextId, U32_MAX));
    var held :- ReadEach(HeldFrom, stored.sessions);
    var restored := Sessions.Sessions.Restore(nextId, held);
    match restored
    case Ok(sessions) => r := Ok(sessions);
    case Err(why) => r := Err(NotSessions(why));
  }

  /** A set of sessions reads back as itself exactly where it is a set a store may hold: distinct numbers,
      one running at most, a reason on each that stopped and on no other, and every session one a store
      may hold. */
  lemma SessionsReadBack(nextId: U32, ss: seq<Session>)
    ensures SessionsIn(WrittenSessions(nextId, ss)) == Some((nextId, ss))
       <==> ASessionSet(ss) && forall i :: 0 <= i < |ss| ==> Storable(ss[i])
  {
    WrittenReadsBack(nextId, U32_MAX);
    var stored := WrittenSessions(nextId, ss).sessions;
    ReadsAsEachDoes(HeldFrom, stored, ss, |ss|);
    assert ss[..|ss|] == ss;
    forall i | 0 <= i < |ss| ensures ReadsAs(HeldFrom, stored[i], ss[i]) <==> Storable(ss[i]) {
      ASessionReadsBack(ss[i]);
    }
  }

  // ---------------------------------------------------------------- the backlog

  datatype StoredConsumption = StoredConsumption(input: string, output: string, cacheWritten: string, cacheRead: string,
                                                 cost: string)

  datatype StoredTask = StoredTask(
    id: string,
    title: string,
    instruction: string,
    original: Option<string>,
    branch: Option<string>,
    after: Option<string>,
    model: Option<string>,
    repository: string,
    state: string,
    session: Option<string>,
    worktree: Option<string>,
    conversation: Option<string>,
    startedAt: Option<string>,
    endedAt: Option<string>,
    reason: Option<string>,
    attempts: Option<string>,
    ceiling: Option<string>,
    consumed: Option<StoredConsumption>,
    unreadable: Option<string>,
    disposition: Option<string>)

  datatype StoredBacklog = StoredBacklog(nextId: string, tasks: seq<StoredTask>)

  function IdIfAny(field: string, prefix: string, value: Option<string>): Result<Option<U32>, Unusable> {
    match value
    case None => Ok(None)
    case Some(text) =>
      var id :- Need(field, text, ReadId(prefix, text));
      Ok(Some(id))
  }

  /** None written is none made. */
  function Attempts(value: Option<string>): Result<U32, Unusable> {
    match value
    case None => Ok(0)
    case Some(text) => Need("attempts", text, Parsed(text, U32_MAX))
  }

  function ReadConsumption(counted: StoredConsumption): Result<Consumption, Unusable> {
    var input :- Count("input", counted.input);
    var output :- Count("output", counted.output);
    var cacheWritten :- Count("cache_written", counted.cacheWritten);
    var cacheRead :- Count("cache_read", counted.cacheRead);
    var cost :- Count("cost", counted.cost);
    Ok(Consumption(input, output, cacheWritten, cacheRead, cost))
  }

  /** A count, or why there is none, and never both. */
  function Observed(consumed: Option<StoredConsumption>, unreadable: Option<string>): Result<Observation, Unusable> {
    match (consumed, unreadable)
    case (None, None) => Ok(NotYet)
    case (None, Some(why)) => Ok(Unreadable(why))
    case (Some(counted), None) =>
      var spent :- ReadConsumption(counted);
      Ok(Spent(spent))
    case (Some(_), Some(_)) => Err(SaysBoth)
  }

  function KeptAs(consumed: Observation): (Option<StoredConsumption>, Option<string>) {
    match consumed
    case Spent(c) =>
      (Some(StoredConsumption(Digits(c.input), Digits(c.output), Digits(c.cacheWritten), Digits(c.cacheRead),
                              Digits(c.cost))), None)
    case Unreadable(why) => (None, Some(why))
    case NotYet => (None, None)
  }

  function DispositionIfAny(value: Option<string>): Result<Option<Disposition>, Unusable> {
    match value
    case None => Ok(None)
    case Some(text) =>
      var it :- Need("disposition", text, ReadDisposition(text));
      Ok(Some(it))
  }

  function TaskFrom(held: StoredTask): Result<Task, Unusable> {
    var id :- Need("id", held.id, ReadId("task:", held.id));
    var after :- IdIfAny("after", "task:", held.after);
    var state :- Need("state", held.state, ReadTaskState(held.state));
    var session :- IdIfAny("session", "session:", held.session);
    var startedAt :- CountIfAny("started_at", held.startedAt);
    var endedAt :- CountIfAny("ended_at", held.endedAt);
    var attempts :- Attempts(held.attempts);
    var ceiling :- CountIfAny("ceiling", held.ceiling);
    var consumed :- Observed(held.consumed, held.unreadable);
    var disposition :- DispositionIfAny(held.disposition);
    Ok(Task(id, held.title, held.instruction, held.original, held.branch, after, held.model, held.repository, state,
            session, held.worktree, held.conversation, startedAt, endedAt, held.reason, attempts, ceiling, consumed,
            disposition))
  }

  function WrittenTask(t: Task): StoredTask {
    StoredTask(
      Digits(t.id), t.title, t.instruction, t.original, t.branch, DigitsIfAny(t.after), t.model, t.repository,
      TaskStateText(t.state), DigitsIfAny(t.session), t.worktree, t.conversation, DigitsIfAny(t.startedAt),
      DigitsIfAny(t.endedAt),
      t.reason, if t.attempts == 0 then None else Some(Digits(t.attempts)), DigitsIfAny(t.ceiling),
      KeptAs(t.consumed).0, KeptAs(t.consumed).1,
      match t.disposition { case None => None case Some(it) => Some(DispositionText(it)) })
  }

  lemma ConsumptionReadsBack(consumed: Observation)
    ensures Observed(KeptAs(consumed).0, KeptAs(consumed).1) == Ok(consumed)
  {
    if consumed.Spent? {
      CountsReadBack("input", consumed.spent.input);
      CountsReadBack("output", consumed.spent.output);
      CountsReadBack("cache_written", consumed.spent.cacheWritten);
      CountsReadBack("cache_read", consumed.spent.cacheRead);
      CountsReadBack("cost", consumed.spent.cost);
    }
  }

  lemma IdsOfATaskReadBack(t: Task)
    ensures ReadId("task:", Digits(t.id)) == Some(t.id)
    ensures IdIfAny("after", "task:", DigitsIfAny(t.after)) == Ok(t.after)
    ensures IdIfAny("session", "session:", DigitsIfAny(t.session)) == Ok(t.session)
  {
    IdsReadBack("task:", t.id);
    if t.after.Some? {
      IdsReadBack("task:", t.after.value);
    }
    if t.session.Some? {
      IdsReadBack("session:", t.session.value);
    }
  }

  lemma NamesOfATaskReadBack(t: Task)
    ensures ReadTaskState(TaskStateText(t.state)) == Some(t.state)
    ensures DispositionIfAny(WrittenTask(t).disposition) == Ok(t.disposition)
  {
    NamesReadBack(TaskStateText(t.state));
    if t.disposition.Some? {
      NamesReadBack(DispositionText(t.disposition.value));
    }
  }

  lemma FiguresOfATaskReadBack(t: Task)
    ensures CountIfAny("started_at", DigitsIfAny(t.startedAt)) == Ok(t.startedAt)
    ensures CountIfAny("ended_at", DigitsIfAny(t.endedAt)) == Ok(t.endedAt)
    ensures CountIfAny("ceiling", DigitsIfAny(t.ceiling)) == Ok(t.ceiling)
    ensures Attempts(WrittenTask(t).attempts) == Ok(t.attempts)
  {
    CountsIfAnyReadBack("started_at", t.startedAt);
    CountsIfAnyReadBack("ended_at", t.endedAt);
    CountsIfAnyReadBack("ceiling", t.ceiling);
    WrittenReadsBack(t.attempts, U32_MAX);
  }

  /** Every task reads back as itself, whatever it holds. */
  lemma ATaskReadsBack(t: Task)
    ensures TaskFrom(WrittenTask(t)) == Ok(t)
  {
    IdsOfATaskReadBack(t);
    NamesOfATaskReadBack(t);
    FiguresOfATaskReadBack(t);
    ConsumptionReadsBack(t.consumed);
  }

  function WrittenBacklog(nextId: U32, ts: seq<Task>): StoredBacklog {
    StoredBacklog(Digits(nextId), seq(|ts|, i requires 0 <= i < |ts| => WrittenTask(ts[i])))
  }

  ghost function BacklogIn(stored: StoredBacklog): Option<(U32, seq<Task>)> {
    var nextId := Parsed(stored.nextId, U32_MAX);
    var held := ReadAmong(TaskFrom, stored.tasks, |stored.tasks|);
    if nextId.Some? && held.Ok? && WellFormed(held.value) then Some((nextId.value, held.value)) else None
  }

  method ReadBacklog(stored: StoredBacklog) returns (r: Result<Backlogs.Backlog, Unusable>)
    ensures r.Ok? <==> BacklogIn(stored).Some?
    ensures r.Ok? ==> fresh(r.value) && BacklogIn(stored) == Some((r.value.nextId, r.value.tasks))
  {
    var nextId :- Need("next_id", stored.nextId, Parsed(stored.nextId, U32_MAX));
    var restored :- ReadEach(TaskFrom, stored.tasks);
    var backlog := Backlogs.Backlog.Restore(nextId, restored);
    match backlog
    case Ok(held) => r := Ok(held);
    case Err(why) => r := Err(NotTasks(why));
  }

  /** A backlog reads back as itself exactly where it is one: distinct numbers, every predecessor there,
      and none that leads back. */
  lemma BacklogReadsBack(nextId: U32, ts: seq<Task>)
    ensures BacklogIn(WrittenBacklog(nextId, ts)) == Some((nextId, ts)) <==> WellFormed(ts)
  {
    WrittenReadsBack(nextId, U32_MAX);
    var stored := WrittenBacklog(nextId, ts).tasks;
    forall i | 0 <= i < |ts| ensures ReadsAs(TaskFrom, stored[i], ts[i]) {
      ATaskReadsBack(ts[i]);
    }
    ReadsAsEachDoes(TaskFrom, stored, ts, |ts|);
    assert ts[..|ts|] == ts;
  }
}
