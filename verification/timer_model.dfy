/**
 SY.timer as a state machine: the durable table of timer rows, the in-memory heap of due entries
 (possibly out of date), the `sent` table of fires waiting for the router's UNREACHABLE, and a log of
 everything committed or sent. Every request handler, every popped heap entry, a crash and a restart
 is one step. Time is in integer milliseconds.
 */
module TimerModel {
  import opened Basics

  type Uuid = string
  type TraceId = string

  datatype Kind = OneShot | Recurring
  datatype Status = Pending | Fired | Canceled
  datatype Policy = FireMissed | DropMissed | FireIfWithin

  datatype Row = Row(
    owner: string,
    target: string,
    clientRef: Option<string>,
    kind: Kind,
    fireAt: int,
    cron: string,
    policy: Policy,
    within: Option<int>,
    status: Status,
    createdAt: int,
    lastFired: Option<int>,
    fireCount: nat)

  /** A fire on its way: the row as it was when it fired, which attempt this is, until when it is sent again. */
  datatype Fire = Fire(uuid: Uuid, row: Row, attempt: nat, deadline: int, sentAt: int) {
    /** The fire number its TIMER_FIRED carries. */
    function Number(): nat { row.fireCount + 1 }
    function Id(): (Uuid, nat) { (uuid, Number()) }
  }

  /** A heap entry; `retry` is set on one that sends a fire again. */
  datatype Entry = Entry(uuid: Uuid, at: int, retry: Option<Fire>)

  /** What happened, in order: rows committed, rows deleted, TIMER_FIRED handed to the link. */
  datatype Event =
    | Saved(uuid: Uuid, row: Row)
    | Deleted(uuids: set<Uuid>)
    | Sent(uuid: Uuid, number: nat, attempt: nat, time: int)

  datatype State = State(
    up: bool,
    clock: int,
    rows: map<Uuid, Row>,
    heap: multiset<Entry>,
    sent: map<TraceId, Fire>,
    ids: set<Uuid>,             // every timer uuid ever given out
    traces: set<TraceId>,       // every trace_id ever used
    failedAt: map<Uuid, int>,   // when the save of a timer's fire last failed
    log: seq<Event>)

  /** The cron library: the next instance strictly after an instant, None for an invalid or exhausted spec. */
  datatype Env = Env(cron: (string, int) -> Option<int>)

  ghost predicate GoodEnv(env: Env) {
    forall spec, t :: env.cron(spec, t).Some? ==> env.cron(spec, t).value > t
  }

  ghost predicate ValidCron(env: Env, spec: string) {
    forall t :: env.cron(spec, t).Some?
  }

  datatype SendResult = Taken | TooLarge | LinkFailed

  /** What the outside world answers during one popped entry: clock readings, storage, the link, a fresh trace_id. */
  datatype Io = Io(t1: int, t2: int, t3: int, readOk: bool, saveOk: bool, trace: TraceId, link: SendResult)

  const DELIVERY_RETRY_WINDOW := 3_600_000
  const DELIVERY_ANSWER_WINDOW := 30_000
  const STORAGE_RETRY_DELAY := 30_000
  const MIN_TIMER_DURATION := 60_000
  const MAX_TIMER_DELAY := 366 * 24 * 3_600_000
  const MAX_PENDING_PER_OWNER := 10_000
  const MAX_PENDING := 100_000
  const HISTORY_RETENTION := 7 * 24 * 3_600_000

  // ---- pure parts of the source ----

  /** The wait before the attempt after `attempt`; the last one repeats. */
  function RetryDelay(attempt: nat): int {
    if attempt <= 1 then 5_000
    else if attempt == 2 then 10_000
    else if attempt == 3 then 20_000
    else if attempt == 4 then 40_000
    else 60_000
  }

  function DeliveryDeadline(row: Row, first: int): int {
    var deadline := first + DELIVERY_RETRY_WINDOW;
    if row.kind == Recurring then deadline
    else match row.policy
      case DropMissed => first
      case FireIfWithin =>
        if row.within.Some? && row.fireAt + row.within.value < deadline
        then row.fireAt + row.within.value else deadline
      case FireMissed => deadline
  }

  /** A fire's deadline; a recurring one is cut at its next instance. */
  function FireDeadline(row: Row, first: int, next: Option<int>): int {
    var deadline := DeliveryDeadline(row, first);
    if row.kind == Recurring && next.Some? && next.value < deadline then next.value else deadline
  }

  /** The instants a retry may not pass, each where the source has it: an hour from the first attempt, that attempt
      itself for a drop one-shot, the window of a fire_if_within one-shot, the next instance of a recurring timer. */
  predicate WithinLimits(at: int, row: Row, first: int, next: Option<int>) {
    && at <= first + DELIVERY_RETRY_WINDOW
    && (row.kind == OneShot && row.policy == DropMissed ==> at <= first)
    && (row.kind == OneShot && row.policy == FireIfWithin && row.within.Some? ==> at <= row.fireAt + row.within.value)
    && (row.kind == Recurring && next.Some? ==> at <= next.value)
  }

  /** The deadline is exactly the first of them. */
  lemma DeadlineIsFirstLimit(row: Row, first: int, next: Option<int>, at: int)
    ensures at <= FireDeadline(row, first, next) <==> WithinLimits(at, row, first, next)
  {
  }

  /** The row as it is saved before its fire goes. */
  function FiredRow(row: Row, actual: int, next: Option<int>): Row {
    var counted := row.(fireCount := row.fireCount + 1, lastFired := Some(actual));
    if row.kind == Recurring && next.Some? then counted.(fireAt := next.value)
    else counted.(status := Fired)
  }

  datatype FireTime = At(at: int) | NeitherOrBoth | BelowMinimum | AboveMaximum

  /** Two's-complement wrap-around of a 64-bit sum or difference. */
  function Wrap64(x: int): int {
    (x + 0x8000_0000_0000_0000) % 0x1_0000_0000_0000_0000 - 0x8000_0000_0000_0000
  }

  predicate Int64(x: int) { -0x8000_0000_0000_0000 <= x < 0x8000_0000_0000_0000 }

  /** The instant a one-shot fires, from exactly one of an absolute instant or a delay. */
  function OneShotFireAt(at: Option<int>, delay: Option<int>, now: int): FireTime {
    if at.Some? == delay.Some? then NeitherOrBoth
    else if delay.Some? && delay.value > MAX_TIMER_DELAY then AboveMaximum
    else
      var fireAt := if at.Some? then at.value else Wrap64(now + delay.value);
      var ahead := Wrap64(fireAt - now);
      if ahead < MIN_TIMER_DURATION then BelowMinimum
      else if ahead > MAX_TIMER_DELAY then AboveMaximum
      else At(fireAt)
  }

  /** For every 64-bit request and a clock before the year 146 million, wrap-around never lets an
      instant through that is not between a minute and 366 days ahead, and refuses none that is. */
  lemma OneShotWindow(at: Option<int>, delay: Option<int>, now: int)
    requires 0 <= now < 0x4000_0000_0000_0000
    requires at.Some? ==> Int64(at.value)
    requires delay.Some? ==> Int64(delay.value)
    ensures OneShotFireAt(at, delay, now).At? <==>
      at.Some? != delay.Some? &&
      (at.Some? ==> MIN_TIMER_DURATION <= at.value - now <= MAX_TIMER_DELAY) &&
      (delay.Some? ==> MIN_TIMER_DURATION <= delay.value <= MAX_TIMER_DELAY)
    ensures OneShotFireAt(at, delay, now).At? ==>
      OneShotFireAt(at, delay, now).at == if at.Some? then at.value else now + delay.value
  {
  }

  // ---- state primitives ----

  function Push(s: State, u: Uuid, at: int): State {
    s.(heap := s.heap + multiset{Entry(u, at, None)})
  }

  function Save(s: State, u: Uuid, row: Row): State {
    s.(rows := s.rows[u := row], log := s.log + [Saved(u, row)])
  }

  function Delete(s: State, gone: set<Uuid>): State {
    s.(rows := s.rows - gone, log := s.log + [Deleted(gone)])
  }

  function Tick(s: State, t: int): State { s.(clock := t) }

  // ---- delivery ----

  function RetryLater(s: State, f: Fire, t: int): State {
    var next := t + RetryDelay(f.attempt);
    if next > f.deadline then Tick(s, t)
    else Tick(s, t).(heap := s.heap + multiset{Entry(f.uuid, next, Some(f.(attempt := f.attempt + 1)))})
  }

  /** The fires still inside the answer window at t. */
  function Unexpired(sent: map<TraceId, Fire>, t: int): map<TraceId, Fire> {
    map id | id in sent && t - sent[id].sentAt <= DELIVERY_ANSWER_WINDOW :: sent[id]
  }

  /** A send handed to the link at t; fires past their answer window are forgotten. */
  function AfterSend(s: State, f: Fire, t: int, trace: TraceId): State {
    s.(clock := t, sent := Unexpired(s.sent, t), traces := s.traces + {trace},
       log := s.log + [Sent(f.uuid, f.Number(), f.attempt, t)])
  }

  /** And what the link said. */
  function AfterLink(s: State, f: Fire, io: Io): State {
    match io.link
    case Taken => s.(sent := s.sent[io.trace := f])
    case TooLarge => s
    case LinkFailed => RetryLater(s, f, io.t3)
  }

  function Deliver(s: State, f: Fire, io: Io): State {
    AfterLink(AfterSend(s, f, io.t2, io.trace), f.(sentAt := io.t2), io)
  }

  predicate Transient(reason: string) {
    reason in {"NODE_NOT_FOUND", "PEER_UNAVAILABLE", "WAN_UNAVAILABLE", "GATEWAY_UNAVAILABLE"}
  }

  function Undelivered(s: State, trace: TraceId, reason: string, t: int): State {
    if trace !in s.sent then Tick(s, t)
    else
      var s1 := s.(sent := s.sent - {trace});
      if Transient(reason) then RetryLater(s1, s.sent[trace], t) else Tick(s1, t)
  }

  // ---- popped entries ----

  /** The state after a due row is committed, and after its next instance is queued. */
  function Committed(s: State, u: Uuid, next: Option<int>, t: int): State
    requires u in s.rows
  {
    var saved := FiredRow(s.rows[u], t, next);
    var s1 := Save(s, u, saved);
    if s.rows[u].kind == Recurring then Push(s1, u, saved.fireAt) else s1
  }

  /** The row of a due timer was not saved: nothing goes out, the timer is tried again later. */
  function SaveFailedRetry(s: State, u: Uuid, t: int): State {
    Push(s, u, t + STORAGE_RETRY_DELAY).(failedAt := s.failedAt[u := t])
  }

  function NextInstance(env: Env, row: Row, t: int): Option<int> {
    if row.kind == Recurring then env.cron(row.cron, t) else None
  }

  /** A non-retry entry of u was popped at `now`. */
  function FirePopped(env: Env, s: State, u: Uuid, now: int, io: Io): State {
    if u !in s.rows || !io.readOk then s
    else
      var row := s.rows[u];
      if row.status != Pending then s
      else if row.fireAt > now then Push(s, u, row.fireAt)
      else
        FireDueRow(env, s, u, io)
  }

  /** A due row: committed with one more fire, then that fire is sent. */
  function FireDueRow(env: Env, s: State, u: Uuid, io: Io): State
    requires u in s.rows
  {
    var row := s.rows[u];
    var next := NextInstance(env, row, io.t1);
    if row.kind == Recurring && next.None? then Tick(s, io.t1)
    else if !io.saveOk then SaveFailedRetry(Tick(s, io.t1), u, io.t1)
    else
      var fire := Fire(u, row, 1, FireDeadline(row, io.t1, next), 0);
      Deliver(Committed(Tick(s, io.t1), u, next, io.t1), fire, io)
  }

  /** A retry entry was popped: its fire goes again, unless its timer was canceled or purged since. */
  function RetryPopped(s: State, f: Fire, io: Io): State {
    if !io.readOk then RetryLater(s, f, io.t3)
    else if f.uuid !in s.rows || s.rows[f.uuid].status == Canceled then s
    else Deliver(s, f, io)
  }

  function PopStep(env: Env, s: State, e: Entry, now: int, io: Io): State
    requires e in s.heap
  {
    var s1 := s.(heap := s.heap - multiset{e});
    if e.retry.Some? then RetryPopped(s1, e.retry.value, io) else FirePopped(env, s1, e.uuid, now, io)
  }

  // ---- request handlers ----

  /** A schedule request whose fields passed the checks that do not look at the table. */
  datatype Request = Request(owner: string, target: string, clientRef: Option<string>, policy: Policy,
    within: Option<int>)

  predicate PendingRef(row: Row, owner: string, clientRef: string) {
    row.status == Pending && row.owner == owner && row.clientRef == Some(clientRef)
  }

  predicate HasPendingRef(rows: map<Uuid, Row>, owner: string, clientRef: Option<string>) {
    clientRef.Some? && exists u :: u in rows && PendingRef(rows[u], owner, clientRef.value)
  }

  function PendingOf(rows: map<Uuid, Row>, owner: string): set<Uuid> {
    set u | u in rows && rows[u].status == Pending && rows[u].owner == owner
  }

  function AllPending(rows: map<Uuid, Row>): set<Uuid> {
    set u | u in rows && rows[u].status == Pending
  }

  predicate UnderLimits(rows: map<Uuid, Row>, owner: string) {
    |PendingOf(rows, owner)| < MAX_PENDING_PER_OWNER && |AllPending(rows)| < MAX_PENDING
  }

  function NewRow(req: Request, kind: Kind, cron: string, at: int, t: int): Row {
    Row(req.owner, req.target, req.clientRef, kind, at, cron, req.policy, req.within, Pending, t, None, 0)
  }

  /** TIMER_SCHEDULE and TIMER_SCHEDULE_RECURRING once the first fire time is known. */
  function Insert(s: State, u: Uuid, row: Row, saveOk: bool): State {
    if HasPendingRef(s.rows, row.owner, row.clientRef) then s
    else if !UnderLimits(s.rows, row.owner) then s
    else if !saveOk then s
    else Push(Save(s, u, row).(ids := s.ids + {u}), u, row.fireAt)
  }

  function Cancel(s: State, requester: string, u: Uuid, saveOk: bool): State {
    if u !in s.rows || s.rows[u].owner != requester then s
    else if s.rows[u].status == Fired then s
    else if !saveOk then s
    else Save(s, u, s.rows[u].(status := Canceled))
  }

  function Reschedule(s: State, requester: string, u: Uuid, time: FireTime, saveOk: bool): State {
    if u !in s.rows || s.rows[u].owner != requester then s
    else if s.rows[u].kind == Recurring || s.rows[u].status != Pending then s
    else if !time.At? then s
    else if !saveOk then s
    else Push(Save(s, u, s.rows[u].(fireAt := time.at)), u, time.at)
  }

  function OwnedBy(rows: map<Uuid, Row>, owner: string): set<Uuid> {
    set u | u in rows && rows[u].owner == owner
  }

  // ---- crash and restart ----

  function Crash(s: State): State { s.(up := false, heap := multiset{}, sent := map[]) }

  function Historical(rows: map<Uuid, Row>, cutoff: int): set<Uuid> {
    set u | u in rows && rows[u].status != Pending &&
            (if rows[u].lastFired.Some? then rows[u].lastFired.value else rows[u].createdAt) < cutoff
  }

  /** Whether an overdue one-shot still fires at start. */
  predicate MissedStillFires(row: Row, now: int) {
    match row.policy
    case FireMissed => true
    case DropMissed => false
    case FireIfWithin => row.within.Some? && now - row.fireAt <= row.within.value
  }

  datatype Replay = Loaded(state: State) | SaveFailed(state: State)

  /** One pending row read at start. */
  function ReplayRow(env: Env, s: State, u: Uuid, now: int, saveOk: bool): Replay
    requires u in s.rows
  {
    var row := s.rows[u];
    if row.kind == Recurring then
      var next := env.cron(row.cron, now);
      if next.None? then Loaded(s)
      else if !saveOk then SaveFailed(s)
      else Loaded(Push(Save(s, u, row.(fireAt := next.value)), u, next.value))
    else if row.fireAt > now || MissedStillFires(row, now) then Loaded(Push(s, u, row.fireAt))
    else if !saveOk then SaveFailed(s)
    else Loaded(Save(s, u, row.(status := Canceled)))
  }

  /** The pending rows, in order; a failed save stops the process. */
  function ReplayRows(env: Env, s: State, order: seq<Uuid>, now: int, saves: seq<bool>): Replay
    requires |saves| == |order|
    requires forall u :: u in order ==> u in s.rows
    decreases |order|
  {
    if order == [] then Loaded(s)
    else
      var r := ReplayRow(env, s, order[0], now, saves[0]);
      if r.SaveFailed? then r else ReplayRows(env, r.state, order[1..], now, saves[1..])
  }

  /** The replay from the i-th row on. */
  lemma ReplayUnfold(env: Env, s: State, order: seq<Uuid>, i: nat, now: int, saves: seq<bool>)
    requires i < |order| == |saves| && forall j :: i <= j < |order| ==> order[j] in s.rows
    ensures
      var r := ReplayRow(env, s, order[i], now, saves[i]);
      && (r.Loaded? ==> forall j :: i < j < |order| ==> order[j] in r.state.rows)
      && ReplayRows(env, s, order[i..], now, saves[i..]) ==
         if r.SaveFailed? then r else ReplayRows(env, r.state, order[i + 1..], now, saves[i + 1..])
  {
    assert order[i..][1..] == order[i + 1..] && saves[i..][1..] == saves[i + 1..];
  }

  /** A listing of the pending rows. */
  ghost predicate IsOrder(rows: map<Uuid, Row>, order: seq<Uuid>) {
    && (forall i, j :: 0 <= i < j < |order| ==> order[i] != order[j])
    && (forall u :: u in order <==> u in AllPending(rows))
  }

  /** The fire of a pending row is committed, then everything in memory is lost. */
  function CrashCommitted(env: Env, s: State, u: Uuid, t: int): State
    requires u in s.rows
  {
    var next := NextInstance(env, s.rows[u], t);
    if s.rows[u].kind == Recurring && next.None? then Crash(Tick(s, t)) else Crash(Committed(Tick(s, t), u, next, t))
  }

  function Collect(s: State, gcOk: bool, t: int): State {
    if gcOk then Delete(s, Historical(s.rows, t - HISTORY_RETENTION)) else s
  }

  function Restart(env: Env, s: State, gcOk: bool, t: int, order: seq<Uuid>, saves: seq<bool>): State
    requires |saves| == |order|
    requires IsOrder(Collect(s, gcOk, t).rows, order)
  {
    var r := ReplayRows(env, Tick(Collect(s, gcOk, t), t).(up := true), order, t, saves);
    if r.Loaded? then r.state else Crash(r.state)
  }

  // ---- runs ----

  datatype Action =
    | Schedule(req: Request, at: Option<int>, delay: Option<int>, u: Uuid, t: int, saveOk: bool)
    | ScheduleRecurring(req: Request, cron: string, u: Uuid, t: int, saveOk: bool)
    | CancelTimer(requester: string, u: Uuid, t: int, saveOk: bool)
    | RescheduleTimer(requester: string, u: Uuid, at: Option<int>, delay: Option<int>, t: int, saveOk: bool)
    | PurgeOwner(owner: string, t: int, saveOk: bool)
    | Pop(e: Entry, now: int, io: Io)
    | Unreachable(trace: TraceId, reason: string, t: int)
    | CrashNow
    | CrashInFire(e: Entry, now: int, t: int)   // its row was committed at t, and the process died before it sent
    | Start(gcOk: bool, t: int, order: seq<Uuid>, saves: seq<bool>)

  /** The entry the heap gives: no other one precedes it. */
  ghost predicate IsNext(s: State, e: Entry) { e in s.heap && forall e' :: e' in s.heap ==> e.at <= e'.at }

  /** What the surroundings promise: a clock that never goes back, fresh uuids and trace_ids; the
      scheduler pops a due entry no other entry precedes. */
  ghost predicate Enabled(s: State, a: Action) {
    match a
    case Schedule(_, _, _, u, t, _) => s.up && u !in s.ids && s.clock <= t
    case ScheduleRecurring(_, _, u, t, _) => s.up && u !in s.ids && s.clock <= t
    case CancelTimer(_, _, t, _) => s.up && s.clock <= t
    case RescheduleTimer(_, _, _, _, t, _) => s.up && s.clock <= t
    case PurgeOwner(_, t, _) => s.up && s.clock <= t
    case Pop(e, now, io) =>
      && s.up && IsNext(s, e) && e.at <= now <= io.t1 <= io.t2 <= io.t3
      && s.clock <= io.t1 && io.trace !in s.traces
    case Unreachable(_, _, t) => s.up && s.clock <= t
    case CrashNow => s.up
    case CrashInFire(e, now, t) =>
      && s.up && IsNext(s, e) && e.at <= now <= t && s.clock <= t
      && e.retry.None? && e.uuid in s.rows && s.rows[e.uuid].status == Pending && s.rows[e.uuid].fireAt <= now
    case Start(gcOk, t, order, saves) =>
      && !s.up && s.clock <= t && |saves| == |order|
      && IsOrder(Collect(s, gcOk, t).rows, order)
  }

  function Step(env: Env, s: State, a: Action): State
    requires Enabled(s, a)
  {
    match a
    case Schedule(req, at, delay, u, t, saveOk) =>
      var time := OneShotFireAt(at, delay, t);
      if time.At? then Insert(Tick(s, t), u, NewRow(req, OneShot, "", time.at, t), saveOk) else Tick(s, t)
    case ScheduleRecurring(req, cron, u, t, saveOk) =>
      var next := env.cron(cron, t);
      if next.Some? then Insert(Tick(s, t), u, NewRow(req, Recurring, cron, next.value, t), saveOk) else Tick(s, t)
    case CancelTimer(requester, u, t, saveOk) => Cancel(Tick(s, t), requester, u, saveOk)
    case RescheduleTimer(requester, u, at, delay, t, saveOk) =>
      Reschedule(Tick(s, t), requester, u, OneShotFireAt(at, delay, t), saveOk)
    case PurgeOwner(owner, t, saveOk) =>
      if saveOk then Delete(Tick(s, t), OwnedBy(s.rows, owner)) else Tick(s, t)
    case Pop(e, now, io) => PopStep(env, s, e, now, io)
    case Unreachable(trace, reason, t) => Undelivered(s, trace, reason, t)
    case CrashNow => Crash(s)
    case CrashInFire(e, _, t) => CrashCommitted(env, s, e.uuid, t)
    case Start(gcOk, t, order, saves) => Restart(env, s, gcOk, t, order, saves)
  }

  ghost predicate Legal(env: Env, s: State, acts: seq<Action>)
    decreases |acts|
  {
    acts == [] || (Enabled(s, acts[0]) && Legal(env, Step(env, s, acts[0]), acts[1..]))
  }

  /** The state after a run. */
  ghost function Run(env: Env, s: State, acts: seq<Action>): State
    requires Legal(env, s, acts)
    decreases |acts|
  {
    if acts == [] then s else Run(env, Step(env, s, acts[0]), acts[1..])
  }

  /** A first start: an empty table, nothing in memory, nothing logged. */
  const Fresh := State(false, 0, map[], multiset{}, map[], {}, {}, map[], [])
}
