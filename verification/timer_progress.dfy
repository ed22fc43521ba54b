/** No pending timer is forgotten, and one pass of the scheduler fires every timer that is due. */
module TimerProgress {
  import opened Basics
  import opened TimerModel
  import opened TimerSafety
  import opened TimerRuns

  /** A pending row the scheduler has to fire: recurring ones with a cron that always has a next instance. */
  ghost predicate Live(env: Env, rows: map<Uuid, Row>, u: Uuid) {
    u in rows && rows[u].status == Pending && (rows[u].kind == Recurring ==> ValidCron(env, rows[u].cron))
  }

  /** e wakes the scheduler for u by u's own time, or by 30 s after the last failed save of its fire. */
  predicate Wakes(s: State, e: Entry, u: Uuid) {
    && e.retry.None? && e.uuid == u && u in s.rows
    && (e.at <= s.rows[u].fireAt || (u in s.failedAt && e.at <= s.failedAt[u] + STORAGE_RETRY_DELAY))
  }

  ghost predicate Woken(s: State, u: Uuid) { exists e :: e in s.heap && Wakes(s, e, u) }

  ghost predicate Remembered(env: Env, s: State) {
    s.up ==> forall u :: Live(env, s.rows, u) ==> Woken(s, u)
  }

  /** Everything about v that matters to Woken(s, v) is kept. */
  ghost predicate Untouched(s: State, s': State, v: Uuid) {
    && (v in s'.rows ==> v in s.rows && s'.rows[v] == s.rows[v])
    && (v in s.failedAt ==> v in s'.failedAt && s'.failedAt[v] == s.failedAt[v])
    && (forall e :: e in s.heap && e.uuid == v && e.retry.None? ==> e in s'.heap)
  }

  lemma UntouchedWoken(s: State, s': State, v: Uuid)
    requires Woken(s, v) && Untouched(s, s', v) && v in s'.rows
    ensures Woken(s', v)
  {
    var e :| e in s.heap && Wakes(s, e, v);
    assert e in s'.heap && Wakes(s', e, v);
  }

  /** A step that touches u only, and leaves u woken if it is still live. */
  lemma OneTouched(env: Env, s: State, s': State, u: Uuid)
    requires Remembered(env, s) && s.up
    requires forall v :: v != u ==> Untouched(s, s', v)
    requires Live(env, s'.rows, u) ==> Woken(s', u)
    ensures Remembered(env, s')
  {
    forall v | Live(env, s'.rows, v) ensures Woken(s', v) {
      if v != u {
        assert Untouched(s, s', v) && Live(env, s.rows, v);
        UntouchedWoken(s, s', v);
      }
    }
  }

  /** A push of u at its own time wakes u. */
  lemma PushWakes(s: State, u: Uuid, at: int)
    requires u in s.rows && at <= s.rows[u].fireAt
    ensures Woken(Push(s, u, at), u)
  {
    var e := Entry(u, at, None);
    assert e in Push(s, u, at).heap && Wakes(Push(s, u, at), e, u);
  }

  // ---- each step ----

  lemma DeliverKeeps(s: State, f: Fire, io: Io)
    ensures
      var s' := Deliver(s, f, io);
      s'.rows == s.rows && s'.failedAt == s.failedAt && s'.up == s.up && s.heap <= s'.heap
  {
    var s1 := AfterSend(s, f, io.t2, io.trace);
    assert s1.rows == s.rows && s1.failedAt == s.failedAt && s1.up == s.up && s1.heap == s.heap;
    LinkKeeps(s1, f.(sentAt := io.t2), io);
  }

  lemma LinkKeeps(s: State, f: Fire, io: Io)
    ensures
      var s' := AfterLink(s, f, io);
      s'.rows == s.rows && s'.failedAt == s.failedAt && s'.up == s.up && s.heap <= s'.heap
  {
  }

  lemma DeliverWoken(s: State, f: Fire, io: Io, u: Uuid)
    requires Woken(s, u)
    ensures Woken(Deliver(s, f, io), u)
  {
    DeliverKeeps(s, f, io);
    UntouchedWoken(s, Deliver(s, f, io), u);
  }

  /** After a popped entry of u, u is woken again unless it is no longer live. */
  lemma FirePoppedWakes(env: Env, s: State, u: Uuid, now: int, io: Io)
    requires io.readOk
    ensures Live(env, FirePopped(env, s, u, now, io).rows, u) ==> Woken(FirePopped(env, s, u, now, io), u)
  {
    if u in s.rows && s.rows[u].status == Pending {
      var row := s.rows[u];
      if row.fireAt > now {
        PushWakes(s, u, row.fireAt);
      } else {
        var next := NextInstance(env, row, io.t1);
        if row.kind == Recurring && next.None? {
          assert !ValidCron(env, row.cron);
        } else if !io.saveOk {
          var s' := SaveFailedRetry(Tick(s, io.t1), u, io.t1);
          assert Wakes(s', Entry(u, io.t1 + STORAGE_RETRY_DELAY, None), u);
        } else {
          var s2 := Committed(Tick(s, io.t1), u, next, io.t1);
          var f := Fire(u, row, 1, FireDeadline(row, io.t1, next), 0);
          DeliverKeeps(s2, f, io);
          if row.kind == Recurring {
            PushWakes(Save(Tick(s, io.t1), u, FiredRow(row, io.t1, next)), u, next.value);
            DeliverWoken(s2, f, io, u);
          }
        }
      }
    }
  }

  lemma FirePoppedTouches(env: Env, s: State, u: Uuid, now: int, io: Io, v: Uuid)
    requires v != u
    ensures Untouched(s, FirePopped(env, s, u, now, io), v)
  {
    if u in s.rows {
      PushUntouched(s, u, s.rows[u].fireAt, v);
      FireDueTouches(env, s, u, io, v);
    }
  }

  lemma PushUntouched(s: State, u: Uuid, at: int, v: Uuid)
    requires v != u
    ensures Untouched(s, Push(s, u, at), v)
  {
  }

  lemma CommittedUntouched(s: State, u: Uuid, next: Option<int>, t: int, v: Uuid)
    requires v != u && u in s.rows
    ensures Untouched(s, Committed(Tick(s, t), u, next, t), v)
  {
  }

  lemma FireDueTouches(env: Env, s: State, u: Uuid, io: Io, v: Uuid)
    requires v != u && u in s.rows
    ensures Untouched(s, FireDueRow(env, s, u, io), v)
  {
    var row := s.rows[u];
    var next := NextInstance(env, row, io.t1);
    var s2 := Committed(Tick(s, io.t1), u, next, io.t1);
    CommittedUntouched(s, u, next, io.t1, v);
    DeliverUntouched(s, s2, Fire(u, row, 1, FireDeadline(row, io.t1, next), 0), io, v);
  }

  lemma DeliverUntouched(s: State, s2: State, f: Fire, io: Io, v: Uuid)
    requires Untouched(s, s2, v)
    ensures Untouched(s, Deliver(s2, f, io), v)
  {
    DeliverKeeps(s2, f, io);
  }

  lemma PopTouches(env: Env, s: State, e: Entry, now: int, io: Io, v: Uuid)
    requires e in s.heap && e.retry.None? && v != e.uuid
    ensures Untouched(s, PopStep(env, s, e, now, io), v)
  {
    var s1 := s.(heap := s.heap - multiset{e});
    FirePoppedTouches(env, s1, e.uuid, now, io, v);
    assert forall x :: x in s.heap && x.uuid == v ==> x in s1.heap;
  }

  lemma PopRemembered(env: Env, s: State, e: Entry, now: int, io: Io)
    requires Remembered(env, s) && s.up && e in s.heap && (e.retry.None? ==> io.readOk)
    ensures Remembered(env, PopStep(env, s, e, now, io))
  {
    var s1 := s.(heap := s.heap - multiset{e});
    var s' := PopStep(env, s, e, now, io);
    if e.retry.Some? {
      DeliverKeeps(s1, e.retry.value, io);
      forall v | Live(env, s'.rows, v) ensures Woken(s', v) { UntouchedWoken(s, s', v); }
    } else {
      forall v | v != e.uuid ensures Untouched(s, s', v) { PopTouches(env, s, e, now, io, v); }
      assert Live(env, s'.rows, e.uuid) ==> Woken(s', e.uuid) by { FirePoppedWakes(env, s1, e.uuid, now, io); }
      OneTouched(env, s, s', e.uuid);
    }
  }

  lemma InsertRemembered(env: Env, s: State, u: Uuid, row: Row, saveOk: bool)
    requires Remembered(env, s) && s.up
    ensures Remembered(env, Insert(s, u, row, saveOk))
  {
    var s' := Insert(s, u, row, saveOk);
    if s' != s {
      PushWakes(Save(s, u, row).(ids := s.ids + {u}), u, row.fireAt);
      OneTouched(env, s, s', u);
    }
  }

  lemma RescheduleRemembered(env: Env, s: State, requester: string, u: Uuid, time: FireTime, saveOk: bool)
    requires Remembered(env, s) && s.up
    ensures Remembered(env, Reschedule(s, requester, u, time, saveOk))
  {
    var s' := Reschedule(s, requester, u, time, saveOk);
    if s' != s {
      PushWakes(Save(s, u, s.rows[u].(fireAt := time.at)), u, time.at);
      OneTouched(env, s, s', u);
    }
  }

  lemma RowsGone(env: Env, s: State, s': State)
    requires Remembered(env, s) && (s'.up ==> s.up) && s'.heap == s.heap && s'.failedAt == s.failedAt
    requires forall u :: u in s'.rows && s'.rows[u].status == Pending ==> u in s.rows && s'.rows[u] == s.rows[u]
    ensures Remembered(env, s')
  {
    forall v | Live(env, s'.rows, v) && s'.up ensures Woken(s', v) {
      assert Live(env, s.rows, v);
      var e :| e in s.heap && Wakes(s, e, v);
      assert Wakes(s', e, v);
    }
  }

  // ---- restart ----

  lemma ReplayRowWakes(env: Env, s: State, u: Uuid, now: int, saveOk: bool)
    requires u in s.rows
    ensures
      var r := ReplayRow(env, s, u, now, saveOk);
      && (r.Loaded? && Live(env, r.state.rows, u) ==> Woken(r.state, u))
      && (forall v :: v != u ==> Untouched(s, r.state, v)) && r.state.rows.Keys == s.rows.Keys && r.state.up == s.up
  {
    ReplayRowAlone(env, s, u, now, saveOk);
    ReplayRowSelf(env, s, u, now, saveOk);
  }

  lemma ReplayRowAlone(env: Env, s: State, u: Uuid, now: int, saveOk: bool)
    requires u in s.rows
    ensures
      var r := ReplayRow(env, s, u, now, saveOk);
      (forall v :: v != u ==> Untouched(s, r.state, v)) && r.state.rows.Keys == s.rows.Keys && r.state.up == s.up
  {
    var row := s.rows[u];
    if row.kind == Recurring {
      var next := env.cron(row.cron, now);
      if next.Some? { MovedAlone(s, u, row.(fireAt := next.value)); }
    } else {
      PushAlone(s, u, row.fireAt);
      SaveAlone(s, u, row.(status := Canceled));
    }
  }

  lemma MovedAlone(s: State, u: Uuid, moved: Row)
    ensures forall v :: v != u ==> Untouched(s, Push(Save(s, u, moved), u, moved.fireAt), v)
  {
    SaveAlone(s, u, moved);
    PushAlone(Save(s, u, moved), u, moved.fireAt);
  }

  lemma PushAlone(s: State, u: Uuid, at: int)
    ensures forall v :: v != u ==> Untouched(s, Push(s, u, at), v)
  {
  }

  lemma SaveAlone(s: State, u: Uuid, row: Row)
    ensures forall v :: v != u ==> Untouched(s, Save(s, u, row), v)
  {
  }

  lemma ReplayRowSelf(env: Env, s: State, u: Uuid, now: int, saveOk: bool)
    requires u in s.rows
    ensures
      var r := ReplayRow(env, s, u, now, saveOk);
      r.Loaded? && Live(env, r.state.rows, u) ==> Woken(r.state, u)
  {
    var row := s.rows[u];
    if row.kind == Recurring {
      var next := env.cron(row.cron, now);
      if next.None? {
        assert !ValidCron(env, row.cron);
      } else if saveOk {
        PushWakes(Save(s, u, row.(fireAt := next.value)), u, next.value);
      }
    } else if row.fireAt > now || MissedStillFires(row, now) {
      PushWakes(s, u, row.fireAt);
    }
  }

  /** A finished replay wakes every live row it listed. */
  lemma ReplayWakes(env: Env, s: State, order: seq<Uuid>, now: int, saves: seq<bool>, v: Uuid)
    requires |saves| == |order| && (forall u :: u in order ==> u in s.rows)
    requires forall i, j :: 0 <= i < j < |order| ==> order[i] != order[j]
    requires ReplayRows(env, s, order, now, saves).Loaded? && v in order
    ensures
      var s' := ReplayRows(env, s, order, now, saves).state;
      Live(env, s'.rows, v) ==> Woken(s', v)
    decreases |order|
  {
    var r := ReplayRow(env, s, order[0], now, saves[0]);
    ReplayRowWakes(env, s, order[0], now, saves[0]);
    if v != order[0] {
      assert v in order[1..];
      ReplayWakes(env, r.state, order[1..], now, saves[1..], v);
    } else {
      ReplayKeys(env, r.state, order[1..], now, saves[1..]);
      ReplayOthers(env, r.state, order[1..], now, saves[1..], v);
      var s' := ReplayRows(env, s, order, now, saves).state;
      if Live(env, s'.rows, v) { UntouchedWoken(r.state, s', v); }
    }
  }

  lemma ReplayKeys(env: Env, s: State, order: seq<Uuid>, now: int, saves: seq<bool>)
    requires |saves| == |order| && (forall u :: u in order ==> u in s.rows)
    ensures
      var s' := ReplayRows(env, s, order, now, saves).state;
      s'.up == s.up && s'.rows.Keys == s.rows.Keys
    decreases |order|
  {
    if order != [] {
      var r := ReplayRow(env, s, order[0], now, saves[0]);
      if r.Loaded? { ReplayKeys(env, r.state, order[1..], now, saves[1..]); }
    }
  }

  lemma ReplayOthers(env: Env, s: State, order: seq<Uuid>, now: int, saves: seq<bool>, v: Uuid)
    requires |saves| == |order| && (forall u :: u in order ==> u in s.rows) && v !in order
    ensures Untouched(s, ReplayRows(env, s, order, now, saves).state, v)
    decreases |order|
  {
    if order != [] {
      var r := ReplayRow(env, s, order[0], now, saves[0]);
      ReplayRowWakes(env, s, order[0], now, saves[0]);
      if r.Loaded? { ReplayOthers(env, r.state, order[1..], now, saves[1..], v); }
    }
  }

  /** Replay rebuilds the heap from the table alone. */
  lemma RestartRemembers(env: Env, s: State, gcOk: bool, t: int, order: seq<Uuid>, saves: seq<bool>)
    requires Enabled(s, Start(gcOk, t, order, saves))
    ensures Remembered(env, Restart(env, s, gcOk, t, order, saves))
  {
    var s1 := Tick(Collect(s, gcOk, t), t).(up := true);
    forall u | u in order ensures u in s1.rows { assert u in AllPending(s1.rows); }
    var r := ReplayRows(env, s1, order, t, saves);
    if r.Loaded? {
      forall v | Live(env, r.state.rows, v) ensures Woken(r.state, v) {
        ReplayKeys(env, s1, order, t, saves);
        if v !in order {
          ReplayOthers(env, s1, order, t, saves, v);
          assert false;
        }
        ReplayWakes(env, s1, order, t, saves, v);
      }
    }
  }

  predicate ReadsOk(a: Action) { a.Pop? && a.e.retry.None? ==> a.io.readOk }

  lemma StepRemembered(env: Env, s: State, a: Action)
    requires Enabled(s, a) && ReadsOk(a) && Remembered(env, s)
    ensures Remembered(env, Step(env, s, a))
  {
    match a
    case Schedule(req, at, delay, u, t, saveOk) =>
      RowsGone(env, s, Tick(s, t));
      var time := OneShotFireAt(at, delay, t);
      if time.At? { InsertRemembered(env, Tick(s, t), u, NewRow(req, OneShot, "", time.at, t), saveOk); }
    case ScheduleRecurring(req, cron, u, t, saveOk) =>
      RowsGone(env, s, Tick(s, t));
      var next := env.cron(cron, t);
      if next.Some? { InsertRemembered(env, Tick(s, t), u, NewRow(req, Recurring, cron, next.value, t), saveOk); }
    case CancelTimer(requester, u, t, saveOk) => RowsGone(env, s, Cancel(Tick(s, t), requester, u, saveOk));
    case RescheduleTimer(requester, u, at, delay, t, saveOk) =>
      RowsGone(env, s, Tick(s, t));
      RescheduleRemembered(env, Tick(s, t), requester, u, OneShotFireAt(at, delay, t), saveOk);
    case PurgeOwner(_, _, _) => RowsGone(env, s, Step(env, s, a));
    case Pop(e, now, io) => PopRemembered(env, s, e, now, io);
    case Unreachable(trace, reason, t) => UnreachableRemembered(env, s, trace, reason, t);
    case CrashNow =>
    case CrashInFire(_, _, _) =>
    case Start(gcOk, t, order, saves) => RestartRemembers(env, s, gcOk, t, order, saves);
  }

  lemma UnreachableRemembered(env: Env, s: State, trace: TraceId, reason: string, t: int)
    requires Remembered(env, s) && s.up
    ensures Remembered(env, Undelivered(s, trace, reason, t))
  {
    var s' := Undelivered(s, trace, reason, t);
    forall v | Live(env, s'.rows, v) ensures Woken(s', v) { UntouchedWoken(s, s', v); }
  }

  /** In every reachable state each live row has an entry that wakes the scheduler for it, if no read of
      a popped timer failed. */
  lemma {:induction false} NoTimerForgotten(env: Env, s: State, acts: seq<Action>)
    requires Remembered(env, s) && Legal(env, s, acts) && (forall i :: 0 <= i < |acts| ==> ReadsOk(acts[i]))
    ensures Remembered(env, Run(env, s, acts))
    decreases |acts|
  {
    if acts != [] {
      StepRemembered(env, s, acts[0]);
      NoTimerForgotten(env, Step(env, s, acts[0]), acts[1..]);
    }
  }

  /** A failed read of a popped live timer forgets it exactly when no other entry wakes it: the entry is
      gone and nothing is pushed. */
  lemma FailedReadForgets(env: Env, s: State, e: Entry, now: int, io: Io)
    requires Remembered(env, s) && s.up && e in s.heap && e.retry.None? && !io.readOk && Live(env, s.rows, e.uuid)
    ensures Remembered(env, PopStep(env, s, e, now, io)) <==>
      exists e' :: e' in s.heap - multiset{e} && Wakes(s, e', e.uuid)
  {
    var s' := PopStep(env, s, e, now, io);
    assert s' == s.(heap := s.heap - multiset{e});
    if e' :| e' in s.heap - multiset{e} && Wakes(s, e', e.uuid) {
      assert e' in s'.heap && Wakes(s', e', e.uuid);
      forall v | Live(env, s'.rows, v) ensures Woken(s', v) {
        if v != e.uuid { UntouchedWoken(s, s', v); }
      }
    }
    if Remembered(env, s') {
      assert Woken(s', e.uuid);
      var w :| w in s'.heap && Wakes(s', w, e.uuid);
      assert Wakes(s, w, e.uuid);
    }
  }

  /** A due timer of its own, scheduled on an empty service. */
  function LoneRow(req: Request): Row { NewRow(req, OneShot, "", MIN_TIMER_DURATION, 0) }

  function Lone(req: Request, u: Uuid): State {
    State(true, 0, map[u := LoneRow(req)], multiset{Entry(u, MIN_TIMER_DURATION, None)}, map[], {u}, {}, map[],
          [Saved(u, LoneRow(req))])
  }

  /** Up on an empty table, then one timer scheduled for the earliest time allowed. */
  lemma LoneReached(env: Env, req: Request, u: Uuid)
    ensures Enabled(Fresh, Start(false, 0, [], []))
    ensures
      var s1 := Step(env, Fresh, Start(false, 0, [], []));
      var schedule := Schedule(req, None, Some(MIN_TIMER_DURATION), u, 0, true);
      Enabled(s1, schedule) && Step(env, s1, schedule) == Lone(req, u)
  {
    assert AllPending(Fresh.rows) == {};
    var s1 := Step(env, Fresh, Start(false, 0, [], []));
    assert s1 == Fresh.(up := true);
    assert PendingOf(s1.rows, req.owner) == {} && AllPending(s1.rows) == {};
    assert OneShotFireAt(None, Some(MIN_TIMER_DURATION), 0) == At(MIN_TIMER_DURATION);
  }

  /** It is popped when it is due, and the read of its row fails: it is pending, and nothing will ever wake it. */
  lemma LoneForgotten(env: Env, req: Request, u: Uuid, io: Io)
    requires !io.readOk && MIN_TIMER_DURATION <= io.t1 <= io.t2 <= io.t3
    ensures
      var pop := Pop(Entry(u, MIN_TIMER_DURATION, None), MIN_TIMER_DURATION, io);
      Enabled(Lone(req, u), pop) && !Remembered(env, Step(env, Lone(req, u), pop))
  {
    var s, e := Lone(req, u), Entry(u, MIN_TIMER_DURATION, None);
    var s' := PopStep(env, s, e, MIN_TIMER_DURATION, io);
    assert s' == s.(heap := multiset{});
    assert Live(env, s'.rows, u) && !Woken(s', u);
  }

  /** A run that forgets a timer, from a first start. */
  lemma FailedReadForgetsOne(env: Env, req: Request, u: Uuid, io: Io)
    requires !io.readOk && MIN_TIMER_DURATION <= io.t1 <= io.t2 <= io.t3
    ensures
      var acts := [Start(false, 0, [], []), Schedule(req, None, Some(MIN_TIMER_DURATION), u, 0, true),
                   Pop(Entry(u, MIN_TIMER_DURATION, None), MIN_TIMER_DURATION, io)];
      Legal(env, Fresh, acts) && !Remembered(env, Run(env, Fresh, acts))
  {
    var a, b := Start(false, 0, [], []), Schedule(req, None, Some(MIN_TIMER_DURATION), u, 0, true);
    var c := Pop(Entry(u, MIN_TIMER_DURATION, None), MIN_TIMER_DURATION, io);
    LoneReached(env, req, u);
    LoneForgotten(env, req, u, io);
    var s1, s2 := Step(env, Fresh, a), Lone(req, u);
    RunCons(env, s2, c, []);
    RunCons(env, s1, b, [c]);
    RunCons(env, Fresh, a, [b, c]);
    assert [c] + [] == [c] && [b] + [c] == [b, c] && [a] + [b, c] == [a, b, c];
  }

  lemma RunCons(env: Env, s: State, a: Action, acts: seq<Action>)
    requires Enabled(s, a) && Legal(env, Step(env, s, a), acts)
    ensures Legal(env, s, [a] + acts) && Run(env, s, [a] + acts) == Run(env, Step(env, s, a), acts)
  {
    assert ([a] + acts)[1..] == acts;
  }

  // ---- one pass of the scheduler ----

  /** What a popped entry pushes lies strictly after the instant the pass works at. */
  lemma PopAdds(env: Env, s: State, e: Entry, now: int, io: Io) returns (added: multiset<Entry>)
    requires GoodEnv(env) && e in s.heap && now <= io.t1 <= io.t2 <= io.t3
    ensures PopStep(env, s, e, now, io).heap == s.heap - multiset{e} + added
    ensures forall x :: x in added ==> x.at > now
  {
    var s1 := s.(heap := s.heap - multiset{e});
    if e.retry.Some? {
      if !io.readOk { added := RetryAdds(s1, e.retry.value, io.t3, now); }
      else if e.retry.value.uuid in s.rows && s.rows[e.retry.value.uuid].status != Canceled {
        added := DeliverAdds(s1, e.retry.value, io, now);
      } else { added := multiset{}; }
    } else {
      added := FireAdds(env, s1, e.uuid, now, io);
    }
  }

  lemma RetryAdds(s: State, f: Fire, t: int, now: int) returns (added: multiset<Entry>)
    requires now <= t
    ensures RetryLater(s, f, t).heap == s.heap + added && forall x :: x in added ==> x.at > now
  {
    added := if t + RetryDelay(f.attempt) > f.deadline then multiset{} else multiset{RetryEntry(f, t)};
  }

  lemma DeliverAdds(s: State, f: Fire, io: Io, now: int) returns (added: multiset<Entry>)
    requires now <= io.t2 <= io.t3
    ensures Deliver(s, f, io).heap == s.heap + added && forall x :: x in added ==> x.at > now
  {
    added := multiset{};
    if io.link == LinkFailed {
      added := RetryAdds(AfterSend(s, f, io.t2, io.trace), f.(sentAt := io.t2), io.t3, now);
    }
  }

  lemma FireAdds(env: Env, s: State, u: Uuid, now: int, io: Io) returns (added: multiset<Entry>)
    requires GoodEnv(env) && now <= io.t1 <= io.t2 <= io.t3
    ensures FirePopped(env, s, u, now, io).heap == s.heap + added && forall x :: x in added ==> x.at > now
  {
    added := multiset{};
    if u in s.rows && io.readOk && s.rows[u].status == Pending {
      var row := s.rows[u];
      var next := NextInstance(env, row, io.t1);
      if row.fireAt > now {
        added := multiset{Entry(u, row.fireAt, None)};
      } else if row.kind == Recurring && next.None? {
      } else if !io.saveOk {
        added := multiset{Entry(u, io.t1 + STORAGE_RETRY_DELAY, None)};
      } else {
        var s2 := Committed(Tick(s, io.t1), u, next, io.t1);
        var more := DeliverAdds(s2, Fire(u, row, 1, FireDeadline(row, io.t1, next), 0), io, now);
        added := if row.kind == Recurring then multiset{Entry(u, next.value, None)} + more else more;
      }
    }
  }

  /** Entries due at an instant. */
  ghost function DueCount(m: multiset<Entry>, now: int): nat
    decreases |m|
  {
    if m == multiset{} then 0
    else
      var e :| e in m;
      (if e.at <= now then 1 else 0) + DueCount(m - multiset{e}, now)
  }

  lemma {:induction false} DueRemove(m: multiset<Entry>, x: Entry, now: int)
    requires x in m
    ensures DueCount(m, now) == (if x.at <= now then 1 else 0) + DueCount(m - multiset{x}, now)
    decreases |m|
  {
    var e :| e in m && DueCount(m, now) == (if e.at <= now then 1 else 0) + DueCount(m - multiset{e}, now);
    if e != x {
      var fewer, rest := m - multiset{e}, m - multiset{x};
      assert x in fewer && e in rest && |fewer| < |m| && |rest| < |m|;
      assert fewer - multiset{x} == rest - multiset{e};
      DueRemove(fewer, x, now);
      DueRemove(rest, e, now);
    }
  }

  lemma {:induction false} DueAdd(m: multiset<Entry>, added: multiset<Entry>, now: int)
    requires forall x :: x in added ==> x.at > now
    ensures DueCount(m + added, now) == DueCount(m, now)
    decreases |added|
  {
    if added == multiset{} {
      assert m + added == m;
    } else {
      var x :| x in added;
      DueRemove(m + added, x, now);
      assert m + added - multiset{x} == m + (added - multiset{x});
      DueAdd(m, added - multiset{x}, now);
    }
  }

  /** Each popped entry leaves one due entry fewer, whatever the storage and the link answer. */
  lemma PopDecreases(env: Env, s: State, e: Entry, now: int, io: Io)
    requires GoodEnv(env) && e in s.heap && e.at <= now <= io.t1 <= io.t2 <= io.t3
    ensures DueCount(PopStep(env, s, e, now, io).heap, now) == DueCount(s.heap, now) - 1
  {
    var added := PopAdds(env, s, e, now, io);
    DueRemove(s.heap, e, now);
    DueAdd(s.heap - multiset{e}, added, now);
  }

  // ---- requests during a pass ----

  predicate IsRequest(a: Action) {
    || a.Schedule? || a.ScheduleRecurring? || a.CancelTimer? || a.RescheduleTimer? || a.PurgeOwner? || a.Unreachable?
  }

  predicate Wide(x: Option<int>) { x.Some? ==> Int64(x.value) }

  /** A request handled not before `now`, with 64-bit fields and a clock below 2^62 ms. */
  predicate DuringPass(a: Action, now: int) {
    && IsRequest(a) && 0 <= a.t < 0x4000_0000_0000_0000 && now <= a.t
    && (a.Schedule? || a.RescheduleTimer? ==> Wide(a.at) && Wide(a.delay))
  }

  lemma InsertAdds(s: State, u: Uuid, row: Row, saveOk: bool, now: int) returns (added: multiset<Entry>)
    requires row.fireAt > now
    ensures Insert(s, u, row, saveOk).heap == s.heap + added && forall x :: x in added ==> x.at > now
  {
    added := if Insert(s, u, row, saveOk) == s then multiset{} else multiset{Entry(u, row.fireAt, None)};
  }

  lemma RescheduleAdds(s: State, requester: string, u: Uuid, time: FireTime, saveOk: bool, now: int)
    returns (added: multiset<Entry>)
    requires time.At? ==> time.at > now
    ensures Reschedule(s, requester, u, time, saveOk).heap == s.heap + added && forall x :: x in added ==> x.at > now
  {
    added := multiset{};
    if Reschedule(s, requester, u, time, saveOk) != s { added := multiset{Entry(u, time.at, None)}; }
  }

  lemma RequestAdds(env: Env, s: State, a: Action, now: int) returns (added: multiset<Entry>)
    requires GoodEnv(env) && Enabled(s, a) && DuringPass(a, now)
    ensures Step(env, s, a).heap == s.heap + added && forall x :: x in added ==> x.at > now
  {
    added := multiset{};
    match a {
      case Schedule(req, at, delay, u, t, saveOk) =>
        OneShotWindow(at, delay, t);
        var time := OneShotFireAt(at, delay, t);
        if time.At? { added := InsertAdds(Tick(s, t), u, NewRow(req, OneShot, "", time.at, t), saveOk, now); }
      case ScheduleRecurring(req, cron, u, t, saveOk) =>
        var next := env.cron(cron, t);
        if next.Some? { added := InsertAdds(Tick(s, t), u, NewRow(req, Recurring, cron, next.value, t), saveOk, now); }
      case RescheduleTimer(requester, u, at, delay, t, saveOk) =>
        OneShotWindow(at, delay, t);
        added := RescheduleAdds(Tick(s, t), requester, u, OneShotFireAt(at, delay, t), saveOk, now);
      case Unreachable(trace, reason, t) =>
        if trace in s.sent && Transient(reason) {
          added := RetryAdds(s.(sent := s.sent - {trace}), s.sent[trace], t, now);
        }
      case CancelTimer(_, _, _, _) =>
      case PurgeOwner(_, _, _) =>
    }
  }

  /** A request handled during a pass brings it no entry more. */
  lemma RequestsAddNoneDue(env: Env, s: State, a: Action, now: int)
    requires GoodEnv(env) && Enabled(s, a) && DuringPass(a, now)
    ensures DueCount(Step(env, s, a).heap, now) == DueCount(s.heap, now)
  {
    var added := RequestAdds(env, s, a, now);
    DueAdd(s.heap, added, now);
  }

  ghost function Pops(acts: seq<Action>): nat {
    if acts == [] then 0 else (if acts[0].Pop? then 1 else 0) + Pops(acts[1..])
  }

  /** However requests fall between the pops of one pass, the pass ends: it pops at most the entries that were due when
      it began, and each pop uses up one of them. */
  lemma {:induction false} PassEnds(env: Env, s: State, acts: seq<Action>, now: int)
    requires GoodEnv(env) && Legal(env, s, acts)
    requires forall i :: 0 <= i < |acts| ==> (acts[i].Pop? && acts[i].now == now) || DuringPass(acts[i], now)
    ensures DueCount(Run(env, s, acts).heap, now) + Pops(acts) == DueCount(s.heap, now)
    decreases |acts|
  {
    if acts != [] {
      var a := acts[0];
      if a.Pop? { PopDecreases(env, s, a.e, now, a.io); } else { RequestsAddNoneDue(env, s, a, now); }
      PassEnds(env, Step(env, s, a), acts[1..], now);
    }
  }

  // ---- due timers fire ----

  /** A pass at `now` whose storage answers. */
  ghost predicate GoodPass(acts: seq<Action>, now: int) {
    forall i :: 0 <= i < |acts| ==> acts[i].Pop? && acts[i].now == now && acts[i].io.readOk && acts[i].io.saveOk
  }

  /** From s0 to s, u either has not been reached, or fired once: one more fire committed and sent, and it
      is not due again at `now`. */
  ghost predicate FiredOnce(s0: State, s: State, u: Uuid, now: int)
    requires u in s0.rows
  {
    && u in s.rows && s0.log <= s.log
    && s.rows[u].fireCount == s0.rows[u].fireCount + 1
    && (s.rows[u].status == Pending ==> s.rows[u].fireAt > now)
    && exists i :: |s0.log| <= i < |s.log| && SendOf(s.log[i], (u, s0.rows[u].fireCount + 1))
  }

  ghost predicate Waiting(s0: State, s: State, u: Uuid) {
    u in s.rows && u in s0.rows && s.rows[u] == s0.rows[u] && s0.log <= s.log && s.failedAt == s0.failedAt
  }

  /** What a good pop does to the row of u. */
  ghost predicate GoodPopOn(s: State, s': State, u: Uuid, now: int)
    requires u in s.rows
  {
    && u in s'.rows && s.log <= s'.log && s'.failedAt == s.failedAt && s'.up == s.up
    && (s'.rows[u] == s.rows[u] ||
        (s.rows[u].status == Pending && s.rows[u].fireAt <= now && FiredOnce(s, s', u, now)))
  }

  lemma CommitOnRow(s: State, v: Uuid, next: Option<int>, io: Io, u: Uuid, now: int)
    requires u in s.rows && v in s.rows && s.rows[v].status == Pending && s.rows[v].fireAt <= now
    requires (s.rows[v].kind == Recurring <==> next.Some?) && (next.Some? ==> next.value > now)
    ensures
      var f := Fire(v, s.rows[v], 1, FireDeadline(s.rows[v], io.t1, next), 0);
      GoodPopOn(s, Deliver(Committed(s, v, next, io.t1), f, io), u, now)
  {
    var s2 := Committed(s, v, next, io.t1);
    var f := Fire(v, s.rows[v], 1, FireDeadline(s.rows[v], io.t1, next), 0);
    DeliverKeeps(s2, f, io);
    DeliverLogs(s2, f, io);
    var s' := Deliver(s2, f, io);
    assert s'.log == s.log + [Saved(v, FiredRow(s.rows[v], io.t1, next)), Sent(v, f.Number(), 1, io.t2)];
    assert SendOf(s'.log[|s.log| + 1], (v, s.rows[v].fireCount + 1));
  }

  lemma FireOnRow(env: Env, s: State, v: Uuid, now: int, io: Io, u: Uuid)
    requires GoodEnv(env) && u in s.rows && io.readOk && io.saveOk && now <= io.t1
    ensures GoodPopOn(s, FirePopped(env, s, v, now, io), u, now)
  {
    if v in s.rows && s.rows[v].status == Pending && s.rows[v].fireAt <= now {
      var next := NextInstance(env, s.rows[v], io.t1);
      if s.rows[v].kind == Recurring ==> next.Some? { CommitOnRow(Tick(s, io.t1), v, next, io, u, now); }
    }
  }

  lemma PopOnRow(env: Env, s: State, e: Entry, now: int, io: Io, u: Uuid)
    requires GoodEnv(env) && e in s.heap && u in s.rows && io.readOk && io.saveOk && now <= io.t1
    ensures GoodPopOn(s, PopStep(env, s, e, now, io), u, now)
  {
    var s1 := s.(heap := s.heap - multiset{e});
    if e.retry.Some? {
      DeliverKeeps(s1, e.retry.value, io);
      DeliverLogs(s1, e.retry.value, io);
    } else {
      FireOnRow(env, s1, e.uuid, now, io, u);
    }
  }

  lemma AfterPop(s0: State, s: State, s1: State, u: Uuid, now: int)
    requires u in s0.rows && u in s.rows && GoodPopOn(s, s1, u, now)
    requires Waiting(s0, s, u) || FiredOnce(s0, s, u, now)
    ensures Waiting(s0, s1, u) || FiredOnce(s0, s1, u, now)
  {
    var id := (u, s0.rows[u].fireCount + 1);
    if FiredOnce(s0, s, u, now) {
      var i :| |s0.log| <= i < |s.log| && SendOf(s.log[i], id);
      assert s1.log[i] == s.log[i];
    } else if s1.rows[u] != s.rows[u] {
      var i :| |s.log| <= i < |s1.log| && SendOf(s1.log[i], (u, s.rows[u].fireCount + 1));
      assert SendOf(s1.log[i], id);
    }
  }

  lemma {:induction false} PassOnRow(env: Env, s0: State, s: State, acts: seq<Action>, now: int, u: Uuid)
    requires GoodEnv(env) && Legal(env, s, acts) && GoodPass(acts, now)
    requires u in s0.rows && (Waiting(s0, s, u) || FiredOnce(s0, s, u, now))
    ensures Waiting(s0, Run(env, s, acts), u) || FiredOnce(s0, Run(env, s, acts), u, now)
    decreases |acts|
  {
    if acts != [] {
      var s1 := Step(env, s, acts[0]);
      PopOnRow(env, s, acts[0].e, now, acts[0].io, u);
      AfterPop(s0, s, s1, u, now);
      PassOnRow(env, s0, s1, acts[1..], now, u);
    }
  }

  /** A pass that runs out of due entries has fired every live timer that was due, exactly one number each
      (unless a failed save holds it back for 30 s). */
  lemma DueTimersFire(env: Env, s: State, acts: seq<Action>, now: int, u: Uuid)
    requires GoodEnv(env) && Remembered(env, s) && s.up && Legal(env, s, acts) && GoodPass(acts, now)
    requires forall e :: e in Run(env, s, acts).heap ==> e.at > now
    requires Live(env, s.rows, u) && s.rows[u].fireAt <= now
    requires u in s.failedAt ==> s.failedAt[u] + STORAGE_RETRY_DELAY <= now
    ensures FiredOnce(s, Run(env, s, acts), u, now)
  {
    var s' := Run(env, s, acts);
    PassOnRow(env, s, s, acts, now, u);
    NoTimerForgotten(env, s, acts);
    PassStaysUp(env, s, acts, now);
    if Waiting(s, s', u) {
      WaitingIsDue(env, s, s', now, u);
      assert false;
    }
  }

  lemma WaitingIsDue(env: Env, s: State, s': State, now: int, u: Uuid)
    requires Remembered(env, s') && s'.up && Waiting(s, s', u) && Live(env, s.rows, u) && s.rows[u].fireAt <= now
    requires u in s.failedAt ==> s.failedAt[u] + STORAGE_RETRY_DELAY <= now
    ensures exists e :: e in s'.heap && e.at <= now
  {
    assert Woken(s', u);
    var e :| e in s'.heap && Wakes(s', e, u);
  }

  lemma PassStaysUp(env: Env, s: State, acts: seq<Action>, now: int)
    requires Legal(env, s, acts) && GoodPass(acts, now) && s.up
    ensures Run(env, s, acts).up
    decreases |acts|
  {
    if acts != [] {
      PopKeepsUp(env, s, acts[0].e, now, acts[0].io);
      PassStaysUp(env, Step(env, s, acts[0]), acts[1..], now);
    }
  }

  lemma PopKeepsUp(env: Env, s: State, e: Entry, now: int, io: Io)
    requires e in s.heap
    ensures PopStep(env, s, e, now, io).up == s.up
  {
    var s1 := s.(heap := s.heap - multiset{e});
    if e.retry.Some? {
      DeliverKeeps(s1, e.retry.value, io);
    } else if e.uuid in s.rows {
      FireKeepsUp(env, s1, e.uuid, io);
    }
  }

  lemma FireKeepsUp(env: Env, s: State, u: Uuid, io: Io)
    requires u in s.rows
    ensures FireDueRow(env, s, u, io).up == s.up
  {
    var row := s.rows[u];
    var next := NextInstance(env, row, io.t1);
    DeliverKeeps(Committed(Tick(s, io.t1), u, next, io.t1), Fire(u, row, 1, FireDeadline(row, io.t1, next), 0), io);
  }
}
