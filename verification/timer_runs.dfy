/** What SY.timer promises over whole runs, from the step invariant. */
module TimerRuns {
  import opened Basics
  import opened TimerModel
  import opened TimerSafety

  /** Every run from a first start: one send per (timer, fire number, attempt), saved before sent,
      nothing sent after a cancel or a purge, terminal statuses, at most 63 attempts. */
  lemma EveryRunIsSafe(env: Env, acts: seq<Action>)
    requires Legal(env, Fresh, acts)
    ensures GoodLog(Run(env, Fresh, acts).log)
    ensures UniqueRefs(Run(env, Fresh, acts).rows)
    ensures forall u :: u in Run(env, Fresh, acts).rows ==> RowOk(Run(env, Fresh, acts).rows[u])
  {
    FreshInv();
    RunInv(env, Fresh, acts);
  }

  /** Event i committed the fire, and the instant keeps every limit it set: an hour from it, the window of a
      fire_if_within one-shot, the next instance of a recurring timer. */
  ghost predicate OnTime(log: seq<Event>, i: nat, f: Fire, at: int) {
    && CommitAt(log, i, f)
    && WithinLimits(at, f.row, log[i].row.lastFired.value, NextOf(log[i].row))
  }

  lemma CommitKeepsTime(log: seq<Event>, i: nat, f: Fire, at: int)
    requires CommitAt(log, i, f) && at <= f.deadline
    ensures OnTime(log, i, f, at)
  {
    DeadlineIsFirstLimit(f.row, log[i].row.lastFired.value, NextOf(log[i].row), at);
  }

  /** In every reachable state a queued retry lies within the limits the commit of its fire set, no drop one-shot is
      among them, and no fire is in flight twice. */
  lemma EveryRetryIsOnTime(env: Env, acts: seq<Action>, e: Entry)
    requires Legal(env, Fresh, acts)
    requires e in Run(env, Fresh, acts).heap && e.retry.Some?
    ensures
      var s := Run(env, Fresh, acts);
      var f := e.retry.value;
      && (exists i: nat :: OnTime(s.log, i, f, e.at))
      && f.attempt <= MAX_ATTEMPTS && !DropOneShot(f)
      && s.heap[e] == 1
      && (forall t :: t in s.sent ==> s.sent[t].Id() != f.Id())
      && (forall e' :: e' in s.heap && e' != e ==> !Holds(e', f.Id()))
  {
    FreshInv();
    RunInv(env, Fresh, acts);
    var s, f := Run(env, Fresh, acts), e.retry.value;
    assert RetryOk(s, e);
    assert Holds(e, f.Id());
    var i: nat :| CommitAt(s.log, i, f);
    CommitKeepsTime(s.log, i, f, e.at);
  }

  // ---- once out of flight, never sent again ----

  /** Fire number id.1 of timer id.0 was started and is no longer in flight. */
  ghost predicate Over(s: State, id: (Uuid, nat)) {
    && id.0 in s.ids
    && (id.0 in s.rows ==> id.1 <= s.rows[id.0].fireCount)
    && !InFlight(s, id)
  }

  predicate SendOf(e: Event, id: (Uuid, nat)) { e.Sent? && e.uuid == id.0 && e.number == id.1 }

  /** s' logged no send of id beyond what s had, and id is still over. */
  ghost predicate StillOver(s: State, s': State, id: (Uuid, nat)) {
    && Over(s', id) && s.log <= s'.log
    && forall i :: |s.log| <= i < |s'.log| ==> !SendOf(s'.log[i], id)
  }

  // How a fire in flight ends.

  /** Refused for good by the router. */
  lemma RefusedIsOver(s: State, trace: TraceId, reason: string, t: int)
    requires Inv(s) && trace in s.sent && !Transient(reason)
    ensures Over(Undelivered(s, trace, reason, t), s.sent[trace].Id())
  {
    assert SentOk(s, s.sent[trace]);
  }

  /** Out of time: the next attempt would lie past the deadline. */
  lemma GivenUpIsOver(s: State, f: Fire, t: int)
    requires FireOk(s, f) && !InFlight(s, f.Id()) && t + RetryDelay(f.attempt) > f.deadline
    ensures Over(RetryLater(s, f, t), f.Id())
  {
  }

  /** So a fire refused for a passing reason too near its deadline is over. */
  lemma LateRefusalIsOver(s: State, trace: TraceId, reason: string, t: int)
    requires Inv(s) && trace in s.sent && Transient(reason)
    requires t + RetryDelay(s.sent[trace].attempt) > s.sent[trace].deadline
    ensures Over(Undelivered(s, trace, reason, t), s.sent[trace].Id())
  {
    var f, s1 := s.sent[trace], s.(sent := s.sent - {trace});
    assert SentOk(s, f);
    FireOkKept(s, s1, f);
    GivenUpIsOver(s1, f, t);
  }

  /** Too large for the link, or the link failed too near the deadline: the send drops it. */
  lemma FailedSendIsOver(s: State, f: Fire, io: Io)
    requires FireOk(s, f) && !InFlight(s, f.Id())
    requires io.link.TooLarge? || (io.link.LinkFailed? && io.t3 + RetryDelay(f.attempt) > f.deadline)
    ensures Over(Deliver(s, f, io), f.Id())
  {
  }

  /** Its timer was canceled or purged before the retry. */
  lemma CanceledRetryIsOver(s: State, e: Entry, io: Io)
    requires Inv(s) && e in s.heap && e.retry.Some? && io.readOk
    requires e.uuid in s.rows ==> s.rows[e.uuid].status == Canceled
    ensures Over(RetryPopped(s.(heap := s.heap - multiset{e}), e.retry.value, io), e.retry.value.Id())
  {
    assert RetryOk(s, e);
    RemoveLinear(s, e);
  }

  /** Not refused within the answer window: the next send of another fire forgets it. */
  lemma AgedOutIsOver(s: State, trace: TraceId, f: Fire, io: Io)
    requires Inv(s) && trace in s.sent && f.Id() != s.sent[trace].Id()
    requires io.t2 - s.sent[trace].sentAt > DELIVERY_ANSWER_WINDOW
    ensures Over(Deliver(s, f, io), s.sent[trace].Id())
  {
    var g, s1 := s.sent[trace], AfterSend(s, f, io.t2, io.trace);
    AgedOut(s, s1, trace, io.t2);
    LinkOver(s1, f.(sentAt := io.t2), io, g.Id());
  }

  lemma AgedOut(s: State, s1: State, trace: TraceId, t: int)
    requires Flights(s) && Linear(s) && trace in s.sent && t - s.sent[trace].sentAt > DELIVERY_ANSWER_WINDOW
    requires s1.heap == s.heap && s1.sent == Unexpired(s.sent, t) && s1.ids == s.ids && s1.rows == s.rows
    ensures Over(s1, s.sent[trace].Id())
  {
    assert SentOk(s, s.sent[trace]);
  }

  /** Lost in a crash, whatever it was doing. */
  lemma CrashedIsOver(s: State, f: Fire)
    requires FireOk(s, f)
    ensures Over(Crash(s), f.Id())
  {
  }

  lemma OverFrom(s: State, s': State, id: (Uuid, nat))
    requires Over(s, id) && s.ids <= s'.ids && s.log <= s'.log
    requires forall i :: |s.log| <= i < |s'.log| ==> !SendOf(s'.log[i], id)
    requires id.0 in s'.rows ==> id.0 in s.rows && s.rows[id.0].fireCount <= s'.rows[id.0].fireCount
    requires forall e :: e in s'.heap && Holds(e, id) ==> e in s.heap
    requires forall t :: t in s'.sent && s'.sent[t].Id() == id ==> t in s.sent && s.sent[t].Id() == id
    ensures StillOver(s, s', id)
  {
  }

  lemma OverTwice(s: State, s1: State, s2: State, id: (Uuid, nat))
    requires StillOver(s, s1, id) && StillOver(s1, s2, id)
    ensures StillOver(s, s2, id)
  {
    forall i | |s.log| <= i < |s2.log| ensures !SendOf(s2.log[i], id) {
      if i < |s1.log| { assert s2.log[i] == s1.log[i]; }
    }
  }

  lemma RetryLaterOver(s: State, f: Fire, t: int, id: (Uuid, nat))
    requires Over(s, id) && f.Id() != id
    ensures StillOver(s, RetryLater(s, f, t), id)
  {
    assert !Holds(RetryEntry(f, t), id);
    OverFrom(s, RetryLater(s, f, t), id);
  }

  lemma DeliverOver(s: State, f: Fire, io: Io, id: (Uuid, nat))
    requires Over(s, id) && f.Id() != id
    ensures StillOver(s, Deliver(s, f, io), id)
  {
    var s1 := AfterSend(s, f, io.t2, io.trace);
    OverFrom(s, s1, id);
    LinkOver(s1, f.(sentAt := io.t2), io, id);
    OverTwice(s, s1, Deliver(s, f, io), id);
  }

  lemma LinkOver(s: State, f: Fire, io: Io, id: (Uuid, nat))
    requires Over(s, id) && f.Id() != id
    ensures StillOver(s, AfterLink(s, f, io), id)
  {
    match io.link
    case TooLarge => OverFrom(s, s, id);
    case Taken => OverFrom(s, s.(sent := s.sent[io.trace := f]), id);
    case LinkFailed => RetryLaterOver(s, f, io.t3, id);
  }

  lemma CommitOver(s: State, u: Uuid, next: Option<int>, io: Io, id: (Uuid, nat))
    requires Over(s, id) && u in s.rows
    ensures
      var f := Fire(u, s.rows[u], 1, FireDeadline(s.rows[u], io.t1, next), 0);
      StillOver(s, Deliver(Committed(s, u, next, io.t1), f, io), id)
  {
    var s2 := Committed(s, u, next, io.t1);
    var f := Fire(u, s.rows[u], 1, FireDeadline(s.rows[u], io.t1, next), 0);
    CommittedOver(s, u, next, io.t1, id);
    DeliverOver(s2, f, io, id);
    OverTwice(s, s2, Deliver(s2, f, io), id);
  }

  lemma CrashCommittedOver(env: Env, s: State, u: Uuid, t: int, id: (Uuid, nat))
    requires Over(s, id) && u in s.rows
    ensures StillOver(s, CrashCommitted(env, s, u, t), id)
  {
    var s1, next := Tick(s, t), NextInstance(env, s.rows[u], t);
    TickOver(s, t, id);
    if s.rows[u].kind == Recurring && next.None? {
      CrashOver(s1, id);
    } else {
      var s2 := Committed(s1, u, next, t);
      CommittedOver(s1, u, next, t, id);
      CrashOver(s2, id);
      OverTwice(s1, s2, Crash(s2), id);
    }
    OverTwice(s, s1, CrashCommitted(env, s, u, t), id);
  }

  lemma CrashOver(s: State, id: (Uuid, nat))
    requires Over(s, id)
    ensures StillOver(s, Crash(s), id)
  {
    OverFrom(s, Crash(s), id);
  }

  lemma FirePoppedOver(env: Env, s: State, u: Uuid, now: int, io: Io, id: (Uuid, nat))
    requires Over(s, id)
    ensures StillOver(s, FirePopped(env, s, u, now, io), id)
  {
    OverFrom(s, s, id);
    if u in s.rows {
      PushOver(s, u, s.rows[u].fireAt, id);
      FireDueOver(env, s, u, io, id);
    }
  }

  lemma TickOver(s: State, t: int, id: (Uuid, nat))
    requires Over(s, id)
    ensures StillOver(s, Tick(s, t), id)
  {
    OverFrom(s, Tick(s, t), id);
  }

  lemma FireDueOver(env: Env, s: State, u: Uuid, io: Io, id: (Uuid, nat))
    requires Over(s, id) && u in s.rows
    ensures StillOver(s, FireDueRow(env, s, u, io), id)
  {
    var s1, next := Tick(s, io.t1), NextInstance(env, s.rows[u], io.t1);
    TickOver(s, io.t1, id);
    if !(s.rows[u].kind == Recurring && next.None?) {
      if io.saveOk {
        CommitOver(s1, u, next, io, id);
      } else {
        OverFrom(s1, SaveFailedRetry(s1, u, io.t1), id);
      }
      OverTwice(s, s1, FireDueRow(env, s, u, io), id);
    }
  }

  lemma CommittedOver(s: State, u: Uuid, next: Option<int>, t: int, id: (Uuid, nat))
    requires Over(s, id) && u in s.rows
    ensures StillOver(s, Committed(s, u, next, t), id)
  {
    OverFrom(s, Committed(s, u, next, t), id);
  }

  lemma PopOver(env: Env, s: State, e: Entry, now: int, io: Io, id: (Uuid, nat))
    requires Over(s, id) && e in s.heap
    ensures StillOver(s, PopStep(env, s, e, now, io), id)
  {
    var s1 := s.(heap := s.heap - multiset{e});
    OverFrom(s, s1, id);
    if e.retry.Some? {
      var f := e.retry.value;
      assert !Holds(e, id);
      RetryLaterOver(s1, f, io.t3, id);
      DeliverOver(s1, f, io, id);
    } else {
      FirePoppedOver(env, s1, e.uuid, now, io, id);
    }
    OverTwice(s, s1, PopStep(env, s, e, now, io), id);
  }

  lemma UndeliveredOver(s: State, trace: TraceId, reason: string, t: int, id: (Uuid, nat))
    requires Over(s, id)
    ensures StillOver(s, Undelivered(s, trace, reason, t), id)
  {
    if trace in s.sent && Transient(reason) {
      var s1 := s.(sent := s.sent - {trace});
      OverFrom(s, s1, id);
      RetryLaterOver(s1, s.sent[trace], t, id);
      OverTwice(s, s1, Undelivered(s, trace, reason, t), id);
    } else {
      OverFrom(s, Undelivered(s, trace, reason, t), id);
    }
  }

  lemma ReplayOver(env: Env, s: State, order: seq<Uuid>, now: int, saves: seq<bool>, id: (Uuid, nat))
    requires |saves| == |order| && (forall u :: u in order ==> u in s.rows) && Over(s, id)
    ensures StillOver(s, ReplayRows(env, s, order, now, saves).state, id)
    decreases |order|
  {
    if order != [] {
      var r := ReplayRow(env, s, order[0], now, saves[0]);
      ReplayRowOver(env, s, order[0], now, saves[0], id);
      if r.Loaded? {
        ReplayOver(env, r.state, order[1..], now, saves[1..], id);
        OverTwice(s, r.state, ReplayRows(env, r.state, order[1..], now, saves[1..]).state, id);
      }
    }
  }

  lemma ReplayRowOver(env: Env, s: State, u: Uuid, now: int, saveOk: bool, id: (Uuid, nat))
    requires u in s.rows && Over(s, id)
    ensures var r := ReplayRow(env, s, u, now, saveOk); StillOver(s, r.state, id) && r.state.rows.Keys == s.rows.Keys
  {
    var row := s.rows[u];
    if row.kind == Recurring {
      var next := env.cron(row.cron, now);
      if next.Some? && saveOk {
        var s1 := Save(s, u, row.(fireAt := next.value));
        SaveOver(s, u, row.(fireAt := next.value), id);
        PushOver(s1, u, next.value, id);
        OverTwice(s, s1, Push(s1, u, next.value), id);
      } else {
        OverFrom(s, s, id);
      }
    } else if row.fireAt > now || MissedStillFires(row, now) {
      PushOver(s, u, row.fireAt, id);
    } else if saveOk {
      SaveOver(s, u, row.(status := Canceled), id);
    } else {
      OverFrom(s, s, id);
    }
  }

  lemma PushOver(s: State, u: Uuid, at: int, id: (Uuid, nat))
    requires Over(s, id)
    ensures StillOver(s, Push(s, u, at), id)
  {
    OverFrom(s, Push(s, u, at), id);
  }

  lemma SaveOver(s: State, u: Uuid, row: Row, id: (Uuid, nat))
    requires Over(s, id) && u in s.rows && s.rows[u].fireCount <= row.fireCount
    ensures StillOver(s, Save(s, u, row), id)
  {
    OverFrom(s, Save(s, u, row), id);
  }

  lemma StartOver(env: Env, s: State, a: Action, id: (Uuid, nat))
    requires a.Start? && Enabled(s, a) && Over(s, id)
    ensures StillOver(s, Step(env, s, a), id)
  {
    var s1 := Tick(Collect(s, a.gcOk, a.t), a.t).(up := true);
    OverFrom(s, s1, id);
    forall u | u in a.order ensures u in s1.rows { assert u in AllPending(s1.rows); }
    ReplayOver(env, s1, a.order, a.t, a.saves, id);
    var s2 := ReplayRows(env, s1, a.order, a.t, a.saves).state;
    OverTwice(s, s1, s2, id);
    OverFrom(s2, Crash(s2), id);
    OverTwice(s, s2, Crash(s2), id);
  }

  lemma StepOver(env: Env, s: State, a: Action, id: (Uuid, nat))
    requires Enabled(s, a) && Over(s, id)
    ensures StillOver(s, Step(env, s, a), id)
  {
    match a
    case Pop(e, now, io) => PopOver(env, s, e, now, io, id);
    case Unreachable(trace, reason, t) => UndeliveredOver(s, trace, reason, t, id);
    case Start(_, _, _, _) => StartOver(env, s, a, id);
    case _ => HandlerOver(env, s, a, id);
  }

  lemma InsertOver(s: State, u: Uuid, row: Row, saveOk: bool, id: (Uuid, nat))
    requires Over(s, id) && u !in s.ids
    ensures StillOver(s, Insert(s, u, row, saveOk), id)
  {
    OverFrom(s, Insert(s, u, row, saveOk), id);
  }

  lemma HandlerOver(env: Env, s: State, a: Action, id: (Uuid, nat))
    requires Enabled(s, a) && Over(s, id) && !a.Pop? && !a.Unreachable? && !a.Start?
    ensures StillOver(s, Step(env, s, a), id)
  {
    match a
    case Schedule(req, at, delay, u, t, saveOk) =>
      TickOver(s, t, id);
      var time := OneShotFireAt(at, delay, t);
      if time.At? { InsertOver(Tick(s, t), u, NewRow(req, OneShot, "", time.at, t), saveOk, id); }
    case ScheduleRecurring(req, cron, u, t, saveOk) =>
      TickOver(s, t, id);
      var next := env.cron(cron, t);
      if next.Some? { InsertOver(Tick(s, t), u, NewRow(req, Recurring, cron, next.value, t), saveOk, id); }
    case CancelTimer(requester, u, t, saveOk) =>
      TickOver(s, t, id);
      CancelOver(Tick(s, t), requester, u, saveOk, id);
    case RescheduleTimer(requester, u, at, delay, t, saveOk) =>
      TickOver(s, t, id);
      RescheduleOver(Tick(s, t), requester, u, OneShotFireAt(at, delay, t), saveOk, id);
    case PurgeOwner(owner, t, _) =>
      TickOver(s, t, id);
      OverFrom(Tick(s, t), Delete(Tick(s, t), OwnedBy(s.rows, owner)), id);
    case CrashNow => CrashOver(s, id);
    case CrashInFire(e, _, t) => CrashCommittedOver(env, s, e.uuid, t, id);
  }

  lemma CancelOver(s: State, requester: string, u: Uuid, saveOk: bool, id: (Uuid, nat))
    requires Over(s, id)
    ensures StillOver(s, Cancel(s, requester, u, saveOk), id)
  {
    OverFrom(s, Cancel(s, requester, u, saveOk), id);
  }

  lemma RescheduleOver(s: State, requester: string, u: Uuid, time: FireTime, saveOk: bool, id: (Uuid, nat))
    requires Over(s, id)
    ensures StillOver(s, Reschedule(s, requester, u, time, saveOk), id)
  {
    OverFrom(s, Reschedule(s, requester, u, time, saveOk), id);
  }

  /** A fire refused, lost, dropped or aged out of `sent` is never sent again, whatever follows. */
  lemma {:induction false} NeverSentAgain(env: Env, s: State, acts: seq<Action>, id: (Uuid, nat))
    requires Legal(env, s, acts) && Over(s, id)
    ensures StillOver(s, Run(env, s, acts), id)
    decreases |acts|
  {
    if acts == [] {
      OverFrom(s, s, id);
    } else {
      var s1 := Step(env, s, acts[0]);
      StepOver(env, s, acts[0], id);
      NeverSentAgain(env, s1, acts[1..], id);
      OverTwice(s, s1, Run(env, s, acts), id);
    }
  }

  /** At most once, not exactly once: a fire committed before a crash and not yet sent is lost for good. */
  lemma CrashLosesFire(env: Env, s: State, e: Entry, now: int, t: int, acts: seq<Action>)
    requires Inv(s) && Enabled(s, CrashInFire(e, now, t)) &&
      (s.rows[e.uuid].kind == Recurring ==> env.cron(s.rows[e.uuid].cron, t).Some?)
    requires Legal(env, Step(env, s, CrashInFire(e, now, t)), acts)
    ensures
      var s1 := Step(env, s, CrashInFire(e, now, t));
      var id := (e.uuid, s.rows[e.uuid].fireCount + 1);
      && Saved(id.0, s1.rows[id.0]) in s1.log && s1.rows[id.0].fireCount == id.1
      && forall x :: x in Run(env, s1, acts).log ==> !SendOf(x, id)
  {
    var u := e.uuid;
    var s1 := Step(env, s, CrashInFire(e, now, t));
    var id := (u, s.rows[u].fireCount + 1);
    assert Over(s1, id);
    NeverSentAgain(env, s1, acts, id);
    forall x | x in s1.log ensures !SendOf(x, id) {
      assert x in s.log || x == Saved(u, s1.rows[u]);
      if x in s.log { assert Logged(s, x); }
    }
    var s2 := Run(env, s1, acts);
    forall x | x in s2.log ensures !SendOf(x, id) {
      var i :| 0 <= i < |s2.log| && s2.log[i] == x;
      if i < |s1.log| { assert s1.log[i] == x; }
    }
  }

  lemma DeliverLogs(s: State, f: Fire, io: Io)
    ensures Deliver(s, f, io).log == s.log + [Sent(f.uuid, f.Number(), f.attempt, io.t2)]
  {
  }

  /** The step commits the next fire of u, and sends it. */
  ghost predicate CommitsAndSends(s: State, s': State, u: Uuid)
    requires u in s.rows
  {
    && u in s'.rows && s'.rows[u].fireCount == s.rows[u].fireCount + 1
    && exists i :: 0 <= i < |s'.log| && SendOf(s'.log[i], (u, s.rows[u].fireCount + 1))
  }

  lemma CommitAndSendCommits(s: State, u: Uuid, next: Option<int>, io: Io)
    requires u in s.rows
    ensures
      var f := Fire(u, s.rows[u], 1, FireDeadline(s.rows[u], io.t1, next), 0);
      CommitsAndSends(s, Deliver(Committed(s, u, next, io.t1), f, io), u)
  {
    var f := Fire(u, s.rows[u], 1, FireDeadline(s.rows[u], io.t1, next), 0);
    var s2 := Committed(s, u, next, io.t1);
    DeliverRows(s2, f, io);
    DeliverLogs(s2, f, io);
    assert SendOf(Deliver(s2, f, io).log[|s2.log|], (u, s.rows[u].fireCount + 1));
  }

  lemma FirePoppedCommits(env: Env, s: State, v: Uuid, now: int, io: Io, u: Uuid)
    requires u in s.rows
    ensures
      var s' := FirePopped(env, s, v, now, io);
      u in s'.rows && (s'.rows[u].fireCount == s.rows[u].fireCount || CommitsAndSends(s, s', u))
  {
    FirePoppedRows(env, s, v, now, io);
    if v == u && io.readOk && s.rows[u].status == Pending && s.rows[u].fireAt <= now && io.saveOk {
      var next := NextInstance(env, s.rows[u], io.t1);
      if s.rows[u].kind == Recurring ==> next.Some? { CommitAndSendCommits(Tick(s, io.t1), u, next, io); }
    }
  }

  /** A popped entry that commits a fire sends it in the same step. */
  lemma PopCommits(env: Env, s: State, e: Entry, now: int, io: Io, u: Uuid)
    requires e in s.heap && u in s.rows
    ensures
      var s' := PopStep(env, s, e, now, io);
      u in s'.rows && (s'.rows[u].fireCount == s.rows[u].fireCount || CommitsAndSends(s, s', u))
  {
    var s1 := s.(heap := s.heap - multiset{e});
    if e.retry.Some? { DeliverRows(s1, e.retry.value, io); } else { FirePoppedCommits(env, s1, e.uuid, now, io, u); }
  }

  lemma {:induction false} ReplayCounts(env: Env, s: State, order: seq<Uuid>, now: int, saves: seq<bool>, u: Uuid)
    requires |saves| == |order| && (forall v :: v in order ==> v in s.rows) && u in s.rows
    ensures
      var rows' := ReplayRows(env, s, order, now, saves).state.rows;
      u in rows' && rows'[u].fireCount == s.rows[u].fireCount
    decreases |order|
  {
    if order != [] {
      var r := ReplayRow(env, s, order[0], now, saves[0]);
      if r.Loaded? { ReplayCounts(env, r.state, order[1..], now, saves[1..], u); }
    }
  }

  lemma RequestCounts(env: Env, s: State, a: Action, u: Uuid)
    requires Rows(s) && Enabled(s, a) && !a.Pop? && !a.CrashInFire? && !a.Start? && u in s.rows
    ensures u in Step(env, s, a).rows ==> Step(env, s, a).rows[u].fireCount == s.rows[u].fireCount
  {
    match a
    case Schedule(req, at, delay, v, t, saveOk) =>
      var time := OneShotFireAt(at, delay, t);
      if time.At? { InsertCounts(Tick(s, t), v, NewRow(req, OneShot, "", time.at, t), saveOk, u); }
    case ScheduleRecurring(req, cron, v, t, saveOk) =>
      var next := env.cron(cron, t);
      if next.Some? { InsertCounts(Tick(s, t), v, NewRow(req, Recurring, cron, next.value, t), saveOk, u); }
    case CancelTimer(requester, v, t, saveOk) => CancelCounts(Tick(s, t), requester, v, saveOk, u);
    case RescheduleTimer(requester, v, at, delay, t, saveOk) =>
      RescheduleCounts(Tick(s, t), requester, v, OneShotFireAt(at, delay, t), saveOk, u);
    case Unreachable(trace, reason, t) => assert Undelivered(s, trace, reason, t).rows == s.rows;
    case _ =>
  }

  lemma InsertCounts(s: State, v: Uuid, row: Row, saveOk: bool, u: Uuid)
    requires u in s.rows && v != u
    ensures u in Insert(s, v, row, saveOk).rows && Insert(s, v, row, saveOk).rows[u] == s.rows[u]
  {
  }

  lemma CancelCounts(s: State, requester: string, v: Uuid, saveOk: bool, u: Uuid)
    requires u in s.rows
    ensures
      var rows' := Cancel(s, requester, v, saveOk).rows;
      u in rows' && rows'[u].fireCount == s.rows[u].fireCount
  {
  }

  lemma RescheduleCounts(s: State, requester: string, v: Uuid, time: FireTime, saveOk: bool, u: Uuid)
    requires u in s.rows
    ensures
      var rows' := Reschedule(s, requester, v, time, saveOk).rows;
      u in rows' && rows'[u].fireCount == s.rows[u].fireCount
  {
  }

  /** No other step commits a fire. */
  lemma OthersCommitNone(env: Env, s: State, a: Action, u: Uuid)
    requires Rows(s) && Enabled(s, a) && !a.Pop? && !a.CrashInFire? && u in s.rows
    ensures u in Step(env, s, a).rows ==> Step(env, s, a).rows[u].fireCount == s.rows[u].fireCount
  {
    if a.Start? {
      var s1 := Tick(Collect(s, a.gcOk, a.t), a.t).(up := true);
      forall v | v in a.order ensures v in s1.rows { assert v in AllPending(s1.rows); }
      if u in s1.rows {
        ReplayCounts(env, s1, a.order, a.t, a.saves, u);
      } else {
        ReplayAddsNone(env, s1, a.order, a.t, a.saves, u);
      }
    } else {
      RequestCounts(env, s, a, u);
    }
  }

  lemma {:induction false} ReplayAddsNone(env: Env, s: State, order: seq<Uuid>, now: int, saves: seq<bool>, u: Uuid)
    requires |saves| == |order| && (forall v :: v in order ==> v in s.rows) && u !in s.rows
    ensures u !in ReplayRows(env, s, order, now, saves).state.rows
    decreases |order|
  {
    if order != [] {
      var r := ReplayRow(env, s, order[0], now, saves[0]);
      if r.Loaded? { ReplayAddsNone(env, r.state, order[1..], now, saves[1..], u); }
    }
  }

  lemma LogGrows(env: Env, s: State, acts: seq<Action>, u: Uuid)
    requires Legal(env, s, acts) && u in s.ids
    ensures s.log <= Run(env, s, acts).log
  {
    NeverSentAgain(env, s, acts, (u, 0));
  }

  /** The exact condition: a fire that a step commits is ever handed to the link if and only if that step is not a
      crash between commit and send, whatever follows. */
  lemma CommittedIsSentIff(env: Env, s: State, a: Action, acts: seq<Action>, u: Uuid)
    requires Inv(s) && Enabled(s, a) && Legal(env, Step(env, s, a), acts)
    requires u in s.rows && u in Step(env, s, a).rows
    requires Step(env, s, a).rows[u].fireCount != s.rows[u].fireCount
    ensures Step(env, s, a).rows[u].fireCount == s.rows[u].fireCount + 1
    ensures
      var log := Run(env, Step(env, s, a), acts).log;
      (exists x :: x in log && SendOf(x, (u, s.rows[u].fireCount + 1))) <==> !a.CrashInFire?
  {
    if a.Pop? {
      PopCommits(env, s, a.e, a.now, a.io, u);
      StepInv(env, s, a);
      SentStays(env, s, Step(env, s, a), acts, u);
    } else if a.CrashInFire? {
      CrashCommitsOwn(env, s, a.e, a.now, a.t, u);
      CrashLosesFire(env, s, a.e, a.now, a.t, acts);
    } else {
      OthersCommitNone(env, s, a, u);
    }
  }

  lemma SentStays(env: Env, s: State, s1: State, acts: seq<Action>, u: Uuid)
    requires u in s.rows && CommitsAndSends(s, s1, u) && Rows(s1) && Legal(env, s1, acts)
    ensures exists x :: x in Run(env, s1, acts).log && SendOf(x, (u, s.rows[u].fireCount + 1))
  {
    var i :| 0 <= i < |s1.log| && SendOf(s1.log[i], (u, s.rows[u].fireCount + 1));
    LogGrows(env, s1, acts, u);
    assert s1.log[i] in Run(env, s1, acts).log;
  }

  lemma CrashCommitsOwn(env: Env, s: State, e: Entry, now: int, t: int, u: Uuid)
    requires Enabled(s, CrashInFire(e, now, t)) && u in s.rows
    requires Step(env, s, CrashInFire(e, now, t)).rows[u].fireCount != s.rows[u].fireCount
    ensures u == e.uuid && Step(env, s, CrashInFire(e, now, t)).rows[u].fireCount == s.rows[u].fireCount + 1
    ensures s.rows[u].kind == Recurring ==> env.cron(s.rows[u].cron, t).Some?
  {
  }

  // ---- the pending caps ----

  /** No row became pending. */
  ghost predicate NoNewPending(rows: map<Uuid, Row>, rows': map<Uuid, Row>) {
    forall u :: u in rows' && rows'[u].status == Pending ==>
      u in rows && rows[u].status == Pending && rows[u].owner == rows'[u].owner
  }

  lemma SubsetCard<T>(a: set<T>, b: set<T>)
    requires a <= b
    ensures |a| <= |b|
  {
    if a != {} {
      var x :| x in a;
      SubsetCard(a - {x}, b - {x});
    }
  }

  lemma NoNewPendingCaps(rows: map<Uuid, Row>, rows': map<Uuid, Row>)
    requires NoNewPending(rows, rows') && Caps(rows)
    ensures Caps(rows')
  {
    SubsetCard(AllPending(rows'), AllPending(rows));
    forall o ensures |PendingOf(rows', o)| <= MAX_PENDING_PER_OWNER {
      SubsetCard(PendingOf(rows', o), PendingOf(rows, o));
    }
  }

  lemma InsertedPending(rows: map<Uuid, Row>, u: Uuid, row: Row, o: string)
    requires u !in rows && row.status == Pending
    ensures AllPending(rows[u := row]) == AllPending(rows) + {u}
    ensures PendingOf(rows[u := row], o) == if o == row.owner then PendingOf(rows, o) + {u} else PendingOf(rows, o)
  {
  }

  lemma InsertCaps(s: State, u: Uuid, row: Row, saveOk: bool)
    requires Caps(s.rows) && u !in s.rows && row.status == Pending
    ensures Caps(Insert(s, u, row, saveOk).rows)
  {
    if UnderLimits(s.rows, row.owner) {
      var rows' := s.rows[u := row];
      InsertedPending(s.rows, u, row, row.owner);
      forall o ensures |PendingOf(rows', o)| <= MAX_PENDING_PER_OWNER {
        InsertedPending(s.rows, u, row, o);
      }
      assert Caps(rows');
    }
  }

  lemma ReplayPending(env: Env, s: State, order: seq<Uuid>, now: int, saves: seq<bool>)
    requires |saves| == |order| && (forall u :: u in order ==> u in s.rows && s.rows[u].status == Pending)
    requires forall i, j :: 0 <= i < j < |order| ==> order[i] != order[j]
    ensures NoNewPending(s.rows, ReplayRows(env, s, order, now, saves).state.rows)
    decreases |order|
  {
    if order != [] {
      var r := ReplayRow(env, s, order[0], now, saves[0]);
      if r.Loaded? { ReplayPending(env, r.state, order[1..], now, saves[1..]); }
    }
  }

  lemma DeliverRows(s: State, f: Fire, io: Io)
    ensures Deliver(s, f, io).rows == s.rows
  {
  }

  /** A popped entry commits its row at most: with one more fire, as sent. */
  lemma FirePoppedRows(env: Env, s: State, u: Uuid, now: int, io: Io)
    ensures
      var rows' := FirePopped(env, s, u, now, io).rows;
      || rows' == s.rows
      || (u in s.rows && s.rows[u].status == Pending &&
        rows' == s.rows[u := FiredRow(s.rows[u], io.t1, NextInstance(env, s.rows[u], io.t1))])
  {
    if u in s.rows && io.readOk && s.rows[u].status == Pending && s.rows[u].fireAt <= now && io.saveOk {
      var row := s.rows[u];
      var next := NextInstance(env, row, io.t1);
      if row.kind == Recurring ==> next.Some? {
        DeliverRows(Committed(Tick(s, io.t1), u, next, io.t1), Fire(u, row, 1, FireDeadline(row, io.t1, next), 0), io);
      }
    }
  }

  lemma PopPending(env: Env, s: State, e: Entry, now: int, io: Io)
    requires e in s.heap
    ensures NoNewPending(s.rows, PopStep(env, s, e, now, io).rows)
  {
    var s1 := s.(heap := s.heap - multiset{e});
    if e.retry.Some? {
      DeliverRows(s1, e.retry.value, io);
    } else {
      FirePoppedRows(env, s1, e.uuid, now, io);
    }
  }

  lemma StepPending(env: Env, s: State, a: Action)
    requires Enabled(s, a) && !a.Schedule? && !a.ScheduleRecurring?
    ensures NoNewPending(s.rows, Step(env, s, a).rows)
  {
    match a
    case Pop(e, now, io) => PopPending(env, s, e, now, io);
    case Start(_, _, _, _) => StartPending(env, s, a);
    case CrashInFire(_, _, _) =>
    case _ => RequestPending(env, s, a);
  }

  lemma StartPending(env: Env, s: State, a: Action)
    requires Enabled(s, a) && a.Start?
    ensures NoNewPending(s.rows, Step(env, s, a).rows)
  {
    var s1 := Tick(Collect(s, a.gcOk, a.t), a.t).(up := true);
    forall u | u in a.order ensures u in s1.rows && s1.rows[u].status == Pending { assert u in AllPending(s1.rows); }
    ReplayPending(env, s1, a.order, a.t, a.saves);
  }

  lemma RequestPending(env: Env, s: State, a: Action)
    requires Enabled(s, a) && (a.CancelTimer? || a.RescheduleTimer? || a.PurgeOwner? || a.Unreachable? || a.CrashNow?)
    ensures NoNewPending(s.rows, Step(env, s, a).rows)
  {
    match a
    case CancelTimer(requester, u, t, saveOk) => CancelPending(Tick(s, t), requester, u, saveOk);
    case RescheduleTimer(requester, u, at, delay, t, saveOk) =>
      ReschedulePending(Tick(s, t), requester, u, OneShotFireAt(at, delay, t), saveOk);
    case Unreachable(trace, reason, t) => assert Undelivered(s, trace, reason, t).rows == s.rows;
    case _ =>
  }

  lemma CancelPending(s: State, requester: string, u: Uuid, saveOk: bool)
    ensures NoNewPending(s.rows, Cancel(s, requester, u, saveOk).rows)
  {
  }

  lemma ReschedulePending(s: State, requester: string, u: Uuid, time: FireTime, saveOk: bool)
    ensures NoNewPending(s.rows, Reschedule(s, requester, u, time, saveOk).rows)
  {
  }

  lemma StepCaps(env: Env, s: State, a: Action)
    requires Rows(s) && Enabled(s, a) && Caps(s.rows)
    ensures Caps(Step(env, s, a).rows)
  {
    if a.Schedule? {
      var time := OneShotFireAt(a.at, a.delay, a.t);
      if time.At? { InsertCaps(Tick(s, a.t), a.u, NewRow(a.req, OneShot, "", time.at, a.t), a.saveOk); }
    } else if a.ScheduleRecurring? {
      var next := env.cron(a.cron, a.t);
      if next.Some? { InsertCaps(Tick(s, a.t), a.u, NewRow(a.req, Recurring, a.cron, next.value, a.t), a.saveOk); }
    } else {
      StepPending(env, s, a);
      NoNewPendingCaps(s.rows, Step(env, s, a).rows);
    }
  }

  /** At most 10000 pending timers an owner and 100000 in the hive, if it was so at start. */
  lemma {:induction false} CapsHold(env: Env, s: State, acts: seq<Action>)
    requires Inv(s) && Legal(env, s, acts) && Caps(s.rows)
    ensures Caps(Run(env, s, acts).rows)
    decreases |acts|
  {
    if acts != [] {
      StepInv(env, s, acts[0]);
      StepCaps(env, s, acts[0]);
      CapsHold(env, Step(env, s, acts[0]), acts[1..]);
    }
  }
}
