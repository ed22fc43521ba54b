/** What a start and each request do to the table and the heap, said in the fields and numbers of the protocol only. */
module TimerRequests {
  import opened Basics
  import opened TimerModel
  import opened TimerSafety

  // ---- a start ----

  /** A pending one-shot that a start at t gives up: overdue, and meant to be dropped or past its window. */
  predicate Missed(row: Row, t: int) {
    && row.kind == OneShot && row.fireAt <= t
    && (row.policy == DropMissed ||
        (row.policy == FireIfWithin && (row.within.None? || t - row.fireAt > row.within.value)))
  }

  /** A pending row after a start at t: canceled if it was missed, moved to its next instance if it recurs. */
  predicate Replayed(env: Env, row: Row, row': Row, t: int) {
    if row.kind == Recurring then
      row' == if env.cron(row.cron, t).Some? then row.(fireAt := env.cron(row.cron, t).value) else row
    else row' == if Missed(row, t) then row.(status := Canceled) else row
  }

  /** The start queues the timer: one that fires later or is made up for, or the next instance of a recurring one. */
  predicate Requeued(env: Env, row: Row, t: int) {
    if row.kind == Recurring then env.cron(row.cron, t).Some? else !Missed(row, t)
  }

  lemma ReplayOne(env: Env, s: State, u: Uuid, t: int)
    requires u in s.rows && s.rows[u].status == Pending
    ensures
      var r := ReplayRow(env, s, u, t, true);
      var s' := r.state;
      && r.Loaded? && u in s'.rows && Replayed(env, s.rows[u], s'.rows[u], t) && s'.rows == s.rows[u := s'.rows[u]]
      && s'.heap == (if Requeued(env, s.rows[u], t) then s.heap + multiset{Entry(u, s'.rows[u].fireAt, None)}
                     else s.heap)
      && s'.up == s.up && s'.sent == s.sent
  {
  }

  predicate HasEntry(s: State, u: Uuid, at: int) { Entry(u, at, None) in s.heap }

  /** What a replay does to timer u. */
  ghost predicate ReplayedTo(env: Env, s: State, s': State, u: Uuid, t: int) {
    && u in s.rows && u in s'.rows && Replayed(env, s.rows[u], s'.rows[u], t)
    && forall at :: HasEntry(s', u, at) <==>
         HasEntry(s, u, at) || (Requeued(env, s.rows[u], t) && at == s'.rows[u].fireAt)
  }

  ghost predicate Untouched(s: State, s': State, u: Uuid) {
    && (u in s.rows <==> u in s'.rows) && (u in s.rows ==> s'.rows[u] == s.rows[u])
    && forall at :: HasEntry(s', u, at) <==> HasEntry(s, u, at)
  }

  ghost predicate PendingOnce(s: State, order: seq<Uuid>) {
    && (forall i :: 0 <= i < |order| ==> order[i] in s.rows && s.rows[order[i]].status == Pending)
    && (forall i, j :: 0 <= i < j < |order| ==> order[i] != order[j])
  }

  lemma OneReplayed(env: Env, s: State, v: Uuid, t: int, u: Uuid)
    requires v in s.rows && s.rows[v].status == Pending
    ensures
      var r := ReplayRow(env, s, v, t, true);
      && r.Loaded? && (if u == v then ReplayedTo(env, s, r.state, u, t) else Untouched(s, r.state, u))
  {
    ReplayOne(env, s, v, t);
  }

  lemma RestPending(env: Env, s: State, order: seq<Uuid>, t: int)
    requires order != [] && PendingOnce(s, order)
    ensures
      var r := ReplayRow(env, s, order[0], t, true);
      r.Loaded? && PendingOnce(r.state, order[1..])
  {
    ReplayOne(env, s, order[0], t);
    var s' := ReplayRow(env, s, order[0], t, true).state;
    forall i | 0 <= i < |order[1..]| ensures order[1..][i] in s'.rows && s'.rows[order[1..][i]].status == Pending {
      assert order[1..][i] == order[i + 1] != order[0];
    }
  }

  lemma {:induction false} ReplayOutcome(env: Env, s: State, order: seq<Uuid>, t: int, saves: seq<bool>, u: Uuid)
    requires |saves| == |order| && (forall i :: 0 <= i < |saves| ==> saves[i]) && PendingOnce(s, order)
    requires forall v :: v in order ==> v in s.rows
    ensures
      var r := ReplayRows(env, s, order, t, saves);
      && r.Loaded? && r.state.up == s.up && r.state.sent == s.sent
      && (if u in order then ReplayedTo(env, s, r.state, u, t) else Untouched(s, r.state, u))
    decreases |order|
  {
    if order != [] {
      var s1 := ReplayRow(env, s, order[0], t, saves[0]).state;
      ReplayOne(env, s, order[0], t);
      OneReplayed(env, s, order[0], t, u);
      RestPending(env, s, order, t);
      forall v | v in order[1..] ensures v in s1.rows { }
      ReplayOutcome(env, s1, order[1..], t, saves[1..], u);
      assert order == [order[0]] + order[1..];
    }
  }

  /** Finished more than seven days ago. */
  predicate OldHistory(row: Row, t: int) {
    && row.status != Pending
    && (if row.lastFired.Some? then row.lastFired.value else row.createdAt) < t - 604_800_000
  }

  /** A start whose saves succeed, for every timer: old history goes if the collection works, other finished rows stay,
      overdue one-shots are made up for or canceled by their policy, recurring ones go to their next instance, and
      exactly the pending ones that can fire are queued, at their own time. */
  lemma StartOutcome(env: Env, s: State, gcOk: bool, t: int, order: seq<Uuid>, saves: seq<bool>, u: Uuid)
    requires Inv(s) && Enabled(s, Start(gcOk, t, order, saves)) && forall i :: 0 <= i < |saves| ==> saves[i]
    ensures
      var s' := Step(env, s, Start(gcOk, t, order, saves));
      && s'.up && s'.sent == map[]
      && (u in s'.rows <==> u in s.rows && !(gcOk && OldHistory(s.rows[u], t)))
      && (u in s'.rows && s.rows[u].status != Pending ==> s'.rows[u] == s.rows[u])
      && (u in s'.rows && s.rows[u].status == Pending ==> Replayed(env, s.rows[u], s'.rows[u], t))
      && (forall at :: HasEntry(s', u, at) <==>
            u in s.rows && s.rows[u].status == Pending && Requeued(env, s.rows[u], t) && at == s'.rows[u].fireAt)
  {
    var s1 := Tick(Collect(s, gcOk, t), t).(up := true);
    CollectOutcome(s, gcOk, t, u);
    StartOrder(s1, order);
    ReplayOutcome(env, s1, order, t, saves, u);
    assert u in order <==> u in AllPending(s1.rows);
  }

  lemma StartOrder(s: State, order: seq<Uuid>)
    requires IsOrder(s.rows, order)
    ensures PendingOnce(s, order) && forall v :: v in order ==> v in s.rows
  {
    forall i | 0 <= i < |order| ensures order[i] in s.rows && s.rows[order[i]].status == Pending {
      assert order[i] in AllPending(s.rows);
    }
  }

  lemma CollectOutcome(s: State, gcOk: bool, t: int, u: Uuid)
    ensures
      var s' := Collect(s, gcOk, t);
      && (u in s'.rows <==> u in s.rows && !(gcOk && OldHistory(s.rows[u], t)))
      && (u in s'.rows ==> s'.rows[u] == s.rows[u]) && s'.heap == s.heap && s'.sent == s.sent
  {
  }

  // ---- requests ----

  /** No pending timer of this owner has the client_ref. */
  ghost predicate RefFree(rows: map<Uuid, Row>, req: Request) {
    req.clientRef.Some? ==>
      forall v :: v in rows && rows[v].status == Pending && rows[v].owner == req.owner ==>
        rows[v].clientRef != req.clientRef
  }

  /** Fewer than 10000 pending timers of the owner, and 100000 in all. */
  predicate RoomFor(rows: map<Uuid, Row>, owner: string) {
    && |set v | v in rows && rows[v].status == Pending && rows[v].owner == owner| < 10_000
    && |set v | v in rows && rows[v].status == Pending| < 100_000
  }

  lemma RefFreeIff(rows: map<Uuid, Row>, req: Request)
    ensures HasPendingRef(rows, req.owner, req.clientRef) <==> !RefFree(rows, req)
  {
    if HasPendingRef(rows, req.owner, req.clientRef) {
      var u :| u in rows && PendingRef(rows[u], req.owner, req.clientRef.value);
      assert rows[u].clientRef == req.clientRef;
    }
    if !RefFree(rows, req) {
      var v :| v in rows && rows[v].status == Pending && rows[v].owner == req.owner &&
        rows[v].clientRef == req.clientRef;
      assert PendingRef(rows[v], req.owner, req.clientRef.value);
    }
  }

  lemma RoomForIff(rows: map<Uuid, Row>, owner: string)
    ensures UnderLimits(rows, owner) <==> RoomFor(rows, owner)
  {
    assert PendingOf(rows, owner) == set v | v in rows && rows[v].status == Pending && rows[v].owner == owner;
    assert AllPending(rows) == set v | v in rows && rows[v].status == Pending;
  }

  /** A new timer: the row and its entry, or nothing at all. */
  ghost predicate Added(s: State, s': State, u: Uuid, row: Row, created: bool) {
    && s'.rows == (if created then s.rows[u := row] else s.rows)
    && s'.heap == (if created then s.heap + multiset{Entry(u, row.fireAt, None)} else s.heap)
    && s'.log == (if created then s.log + [Saved(u, row)] else s.log) && s'.sent == s.sent
  }

  lemma InsertOutcome(s: State, u: Uuid, req: Request, row: Row, saveOk: bool)
    requires row.owner == req.owner && row.clientRef == req.clientRef
    ensures Added(s, Insert(s, u, row, saveOk), u, row, RefFree(s.rows, req) && RoomFor(s.rows, req.owner) && saveOk)
  {
    RefFreeIff(s.rows, req);
    RoomForIff(s.rows, req.owner);
  }

  /** TIMER_SCHEDULE: a pending one-shot with the request's own fields, exactly when one of the two forms of its time is
      given and lies between a minute and 366 days ahead, its client_ref is free, and there is room for it. */
  lemma ScheduleOutcome(
      env: Env, s: State, req: Request, at: Option<int>, delay: Option<int>, u: Uuid, t: int, saveOk: bool, fireAt: int)
    requires Enabled(s, Schedule(req, at, delay, u, t, saveOk)) && 0 <= t < 0x4000_0000_0000_0000
    requires (at.Some? ==> Int64(at.value)) && (delay.Some? ==> Int64(delay.value))
    requires fireAt == if at.Some? then at.value else if delay.Some? then t + delay.value else 0
    ensures
      var s' := Step(env, s, Schedule(req, at, delay, u, t, saveOk));
      var row := Row(
        req.owner, req.target, req.clientRef, OneShot, fireAt, "", req.policy, req.within, Pending, t, None, 0);
      Added(s, s', u, row,
            at.Some? != delay.Some? && 60_000 <= fireAt - t <= 31_622_400_000 &&
            RefFree(s.rows, req) && RoomFor(s.rows, req.owner) && saveOk)
  {
    OneShotWindow(at, delay, t);
    var row := Row(
      req.owner, req.target, req.clientRef, OneShot, fireAt, "", req.policy, req.within, Pending, t, None, 0);
    InsertOutcome(Tick(s, t), u, req, row, saveOk);
  }

  /** TIMER_SCHEDULE_RECURRING: the same with the first instance after now. */
  lemma ScheduleRecurringOutcome(env: Env, s: State, req: Request, cron: string, u: Uuid, t: int, saveOk: bool)
    requires Enabled(s, ScheduleRecurring(req, cron, u, t, saveOk))
    ensures
      var s', next := Step(env, s, ScheduleRecurring(req, cron, u, t, saveOk)), env.cron(cron, t);
      var first := if next.Some? then next.value else 0;
      var row := Row(
        req.owner, req.target, req.clientRef, Recurring, first, cron, req.policy, req.within, Pending, t, None, 0);
      Added(s, s', u, row, next.Some? && RefFree(s.rows, req) && RoomFor(s.rows, req.owner) && saveOk)
  {
    var next := env.cron(cron, t);
    if next.Some? {
      var row := Row(
        req.owner, req.target, req.clientRef, Recurring, next.value, cron, req.policy, req.within, Pending, t, None, 0);
      InsertOutcome(Tick(s, t), u, req, row, saveOk);
    }
  }

  /** TIMER_CANCEL: an own timer that has not fired becomes canceled, and no other row changes. */
  lemma CancelOutcome(env: Env, s: State, requester: string, u: Uuid, t: int, saveOk: bool, v: Uuid)
    requires Enabled(s, CancelTimer(requester, u, t, saveOk))
    ensures
      var s' := Step(env, s, CancelTimer(requester, u, t, saveOk));
      && (v in s'.rows <==> v in s.rows) && s'.heap == s.heap && s'.sent == s.sent
      && (v in s.rows ==>
            var canceled := v == u && s.rows[v].owner == requester && s.rows[v].status != Fired && saveOk;
            s'.rows[v] == if canceled then s.rows[v].(status := Canceled) else s.rows[v])
  {
  }

  /** TIMER_RESCHEDULE: an own pending one-shot moves to a time in the window and is queued there, and no other row
      changes. */
  lemma RescheduleOutcome(env: Env, s: State, requester: string, u: Uuid, at: Option<int>, delay: Option<int>, t: int,
      saveOk: bool, fireAt: int)
    requires Enabled(s, RescheduleTimer(requester, u, at, delay, t, saveOk)) && 0 <= t < 0x4000_0000_0000_0000
    requires (at.Some? ==> Int64(at.value)) && (delay.Some? ==> Int64(delay.value))
    requires fireAt == if at.Some? then at.value else if delay.Some? then t + delay.value else 0
    ensures
      var s' := Step(env, s, RescheduleTimer(requester, u, at, delay, t, saveOk));
      var moved := u in s.rows && s.rows[u].owner == requester && s.rows[u].kind == OneShot &&
        s.rows[u].status == Pending && at.Some? != delay.Some? && 60_000 <= fireAt - t <= 31_622_400_000 && saveOk;
      && s'.rows == (if moved then s.rows[u := s.rows[u].(fireAt := fireAt)] else s.rows)
      && s'.heap == (if moved then s.heap + multiset{Entry(u, fireAt, None)} else s.heap) && s'.sent == s.sent
  {
    OneShotWindow(at, delay, t);
  }

  /** TIMER_PURGE_OWNER: exactly the owner's rows go. */
  lemma PurgeOutcome(env: Env, s: State, owner: string, t: int, saveOk: bool, v: Uuid)
    requires Enabled(s, PurgeOwner(owner, t, saveOk))
    ensures
      var s' := Step(env, s, PurgeOwner(owner, t, saveOk));
      && (v in s'.rows <==> v in s.rows && !(saveOk && s.rows[v].owner == owner))
      && (v in s'.rows ==> s'.rows[v] == s.rows[v]) && s'.heap == s.heap && s'.sent == s.sent
  {
  }

  /** Who asks for the change. */
  predicate AsksFor(a: Action, owner: string) {
    match a
    case CancelTimer(requester, _, _, _) => requester == owner
    case RescheduleTimer(requester, _, _, _, _, _) => requester == owner
    case PurgeOwner(o, _, _) => o == owner
    case _ => false
  }

  ghost predicate OnlyRequests(acts: seq<Action>) {
    forall i :: 0 <= i < |acts| ==> acts[i].Schedule? || acts[i].ScheduleRecurring? || acts[i].CancelTimer? ||
                                    acts[i].RescheduleTimer? || acts[i].PurgeOwner?
  }

  lemma ForeignRequest(env: Env, s: State, a: Action, v: Uuid)
    requires Rows(s) && Enabled(s, a) && OnlyRequests([a]) && v in s.rows && !AsksFor(a, s.rows[v].owner)
    ensures v in Step(env, s, a).rows && Step(env, s, a).rows[v] == s.rows[v]
  {
    assert [a][0] == a;
    match a
    case Schedule(req, at, delay, u, t, saveOk) =>
      var time := OneShotFireAt(at, delay, t);
      if time.At? { InsertOutcome(Tick(s, t), u, req, NewRow(req, OneShot, "", time.at, t), saveOk); }
    case ScheduleRecurring(_, _, _, _, _) =>
      ScheduleRecurringOutcome(env, s, a.req, a.cron, a.u, a.t, a.saveOk);
    case CancelTimer(requester, u, t, saveOk) => CancelOutcome(env, s, requester, u, t, saveOk, v);
    case RescheduleTimer(requester, u, at, delay, t, saveOk) =>
      ForeignReschedule(Tick(s, t), requester, u, OneShotFireAt(at, delay, t), saveOk, v);
    case PurgeOwner(owner, t, saveOk) => PurgeOutcome(env, s, owner, t, saveOk, v);
  }

  lemma ForeignReschedule(s: State, requester: string, u: Uuid, time: FireTime, saveOk: bool, v: Uuid)
    requires v in s.rows && s.rows[v].owner != requester
    ensures
      var rows' := Reschedule(s, requester, u, time, saveOk).rows;
      v in rows' && rows'[v] == s.rows[v]
  {
  }

  /** However many requests others make, a node's timers stay as they are. */
  lemma {:induction false} OnlyOwnersChange(env: Env, s: State, acts: seq<Action>, v: Uuid)
    requires Inv(s) && Legal(env, s, acts) && OnlyRequests(acts) && v in s.rows
    requires forall i :: 0 <= i < |acts| ==> !AsksFor(acts[i], s.rows[v].owner)
    ensures v in Run(env, s, acts).rows && Run(env, s, acts).rows[v] == s.rows[v]
    decreases |acts|
  {
    if acts != [] {
      assert OnlyRequests([acts[0]]) by { assert [acts[0]][0] == acts[0]; }
      ForeignRequest(env, s, acts[0], v);
      StepInv(env, s, acts[0]);
      OnlyOwnersChange(env, Step(env, s, acts[0]), acts[1..], v);
    }
  }
}
