/**
 The running SY.timer node: its methods update the table, the heap and the `sent` table in place, each
 one proved equal to a step of the state machine, and one scheduler pass equal to a run of it.
 */
module TimerService {
  import opened Basics
  import opened TimerModel
  import opened TimerHeaps
  import opened TimerSafety
  import opened TimerRuns
  import opened TimerProgress

  lemma {:induction false} RunAppend(env: Env, s: State, acts: seq<Action>, a: Action)
    requires Legal(env, s, acts) && Enabled(Run(env, s, acts), a)
    ensures Legal(env, s, acts + [a]) && Run(env, s, acts + [a]) == Step(env, Run(env, s, acts), a)
    decreases |acts|
  {
    if acts == [] {
      assert ([a])[1..] == [];
    } else {
      assert (acts + [a])[1..] == acts[1..] + [a];
      RunAppend(env, Step(env, s, acts[0]), acts[1..], a);
    }
  }

  /** The clock after a popped entry is at most its last reading, and its trace_id is the only new one. */
  lemma PopClock(env: Env, s: State, e: Entry, now: int, io: Io)
    requires e in s.heap && s.clock <= io.t1 <= io.t2 <= io.t3
    ensures PopStep(env, s, e, now, io).clock <= io.t3
    ensures PopStep(env, s, e, now, io).traces <= s.traces + {io.trace}
  {
    var s1 := s.(heap := s.heap - multiset{e});
    if e.retry.Some? {
      RetryClock(s1, e.retry.value, io);
    } else if e.uuid in s.rows {
      FireClock(env, s1, e.uuid, io);
    }
  }

  lemma RetryClock(s: State, f: Fire, io: Io)
    requires s.clock <= io.t2 <= io.t3
    ensures RetryPopped(s, f, io).clock <= io.t3 && RetryPopped(s, f, io).traces <= s.traces + {io.trace}
  {
    DeliverClock(s, f, io);
  }

  lemma FireClock(env: Env, s: State, u: Uuid, io: Io)
    requires u in s.rows && io.t1 <= io.t2 <= io.t3
    ensures FireDueRow(env, s, u, io).clock <= io.t3 && FireDueRow(env, s, u, io).traces <= s.traces + {io.trace}
  {
    var row := s.rows[u];
    var next := NextInstance(env, row, io.t1);
    DeliverClock(Committed(Tick(s, io.t1), u, next, io.t1), Fire(u, row, 1, FireDeadline(row, io.t1, next), 0), io);
  }

  lemma DeliverClock(s: State, f: Fire, io: Io)
    requires io.t2 <= io.t3
    ensures Deliver(s, f, io).clock <= io.t3 && Deliver(s, f, io).traces <= s.traces + {io.trace}
  {
  }

  /** What the surroundings answer to the i-th popped entry of a pass: a clock that never goes back and
      fresh trace_ids. */
  ghost predicate GoodWorld(world: nat -> Io, s: State, now: int) {
    && s.clock <= world(0).t1
    && (forall i: nat :: now <= world(i).t1 <= world(i).t2 <= world(i).t3 && world(i).trace !in s.traces)
    && (forall i: nat, j: nat :: i < j ==> world(i).t3 <= world(j).t1 && world(i).trace != world(j).trace)
  }

  /** Pops at `now`, in nondecreasing time, the i-th answered by world(i). */
  ghost predicate OrderedPops(acts: seq<Action>, now: int, world: nat -> Io) {
    && (forall i :: 0 <= i < |acts| ==>
          acts[i].Pop? && acts[i].now == now && acts[i].io == world(i) && acts[i].e.at <= now)
    && (forall i, j :: 0 <= i < j < |acts| ==> acts[i].e.at <= acts[j].e.at)
  }

  /** Nothing in the heap is before what was popped. */
  ghost predicate Behind(acts: seq<Action>, heap: multiset<Entry>) {
    forall i, e :: 0 <= i < |acts| && acts[i].Pop? && e in heap ==> acts[i].e.at <= e.at
  }

  ghost predicate Ahead(world: nat -> Io, n: nat, clock: int, traces: set<TraceId>) {
    clock <= world(n).t1 && forall i: nat :: n <= i ==> world(i).trace !in traces
  }

  /** A pass from s0 has reached s. */
  ghost predicate PassSoFar(env: Env, s0: State, s: State, acts: seq<Action>, now: int, world: nat -> Io) {
    && s.up && Legal(env, s0, acts) && s == Run(env, s0, acts) && Inv(s)
    && OrderedPops(acts, now, world) && Behind(acts, s.heap) && Ahead(world, |acts|, s.clock, s.traces)
  }

  /** A popped entry of a pass: the facts its next round needs. */
  lemma PopFacts(env: Env, s: State, a: Action, now: int)
    requires GoodEnv(env) && Inv(s) && a.Pop? && a.now == now && Enabled(s, a)
    ensures
      var s' := Step(env, s, a);
      && Inv(s') && s'.up && s'.clock <= a.io.t3 && s'.traces <= s.traces + {a.io.trace}
      && (forall e :: e in s'.heap ==> a.e.at <= e.at)
      && DueCount(s'.heap, now) == DueCount(s.heap, now) - 1
  {
    StepInv(env, s, a);
    PopKeepsUp(env, s, a.e, now, a.io);
    PopClock(env, s, a.e, now, a.io);
    PopDecreases(env, s, a.e, now, a.io);
    var added := PopAdds(env, s, a.e, now, a.io);
  }

  lemma PassStep(env: Env, s0: State, s: State, acts: seq<Action>, now: int, world: nat -> Io, e: Entry)
    requires GoodEnv(env) && GoodWorld(world, s0, now) && PassSoFar(env, s0, s, acts, now, world)
    requires e in s.heap && e.at <= now && (forall e' :: e' in s.heap ==> e.at <= e'.at)
    ensures
      var a := Pop(e, now, world(|acts|));
      && Enabled(s, a) && PassSoFar(env, s0, Step(env, s, a), acts + [a], now, world)
      && (forall t :: t in s.sent ==> t in s.traces)
      && DueCount(Step(env, s, a).heap, now) == DueCount(s.heap, now) - 1
  {
    var a := Pop(e, now, world(|acts|));
    PopFacts(env, s, a, now);
    RunAppend(env, s0, acts, a);
    var s' := Step(env, s, a);
    PopsExtend(acts, now, world, a, s.heap, s'.heap);
    AheadExtend(world, s0, now, |acts|, s.traces, s'.clock, s'.traces);
  }

  lemma PopsExtend(acts: seq<Action>, now: int, world: nat -> Io, a: Action, heap: multiset<Entry>,
      heap': multiset<Entry>)
    requires OrderedPops(acts, now, world) && Behind(acts, heap)
    requires a.Pop? && a.now == now && a.io == world(|acts|) && a.e in heap && a.e.at <= now
    requires forall x :: x in heap' ==> a.e.at <= x.at
    ensures OrderedPops(acts + [a], now, world) && Behind(acts + [a], heap')
  {
    forall i, x | 0 <= i < |acts + [a]| && x in heap' ensures (acts + [a])[i].e.at <= x.at {
      if i < |acts| { assert (acts + [a])[i] == acts[i]; }
    }
  }

  lemma AheadExtend(world: nat -> Io, s0: State, now: int, n: nat, traces: set<TraceId>, clock': int,
      traces': set<TraceId>)
    requires GoodWorld(world, s0, now) && Ahead(world, n, world(n).t1, traces)
    requires clock' <= world(n).t3 && traces' <= traces + {world(n).trace}
    ensures Ahead(world, n + 1, clock', traces')
  {
    assert n < n + 1;
  }

  datatype Reply = Created(u: Uuid, at: int) | Existing(u: Uuid, at: int) | LimitExceeded | StorageError

  class Service {
    const env: Env
    const queue: TimerHeap
    var rows: map<Uuid, Row>
    var sent: map<TraceId, Fire>
    var up: bool
    ghost var clock: int
    ghost var ids: set<Uuid>
    ghost var traces: set<TraceId>
    ghost var failedAt: map<Uuid, int>
    ghost var log: seq<Event>

    ghost predicate Valid()
      reads this, queue
    {
      queue.Valid()
    }

    ghost function View(): State
      reads this, queue
    {
      State(up, clock, rows, multiset(queue.items), sent, ids, traces, failedAt, log)
    }

    constructor (env: Env)
      ensures Valid() && View() == Fresh && this.env == env && fresh(queue)
    {
      this.env := env;
      queue := new TimerHeap();
      rows, sent, up := map[], map[], false;
      clock, ids, traces, failedAt, log := 0, {}, {}, map[], [];
    }

    method UpdateTimer(u: Uuid, row: Row)
      modifies this
      ensures rows == old(rows)[u := row] && log == old(log) + [Saved(u, row)]
      ensures unchanged(this`sent, this`up, this`clock, this`ids, this`traces, this`failedAt)
    {
      rows := rows[u := row];
      log := log + [Saved(u, row)];
    }

    method PushEntry(e: Entry)
      requires Valid()
      modifies queue
      ensures Valid() && View() == old(View()).(heap := old(View()).heap + multiset{e})
    {
      queue.Push(e);
    }

    method RetryLater(f: Fire, t: int)
      requires Valid()
      modifies this, queue
      ensures Valid() && View() == TimerModel.RetryLater(old(View()), f, t)
    {
      clock := t;
      var next := t + RetryDelay(f.attempt);
      if next > f.deadline {
        return;
      }
      PushEntry(Entry(f.uuid, next, Some(f.(attempt := f.attempt + 1))));
    }

    /** Drops every sent fire whose answer window is over. */
    method ForgetAnswered(t: int)
      modifies this`sent
      ensures sent == Unexpired(old(sent), t)
    {
      var todo := sent.Keys;
      while todo != {}
        invariant todo <= sent.Keys <= old(sent).Keys
        invariant forall id :: id in sent ==> sent[id] == old(sent)[id]
        invariant forall id :: id in old(sent) && id !in todo ==>
          (id in sent <==> t - old(sent)[id].sentAt <= DELIVERY_ANSWER_WINDOW)
        invariant forall id :: id in todo ==> id in sent
        decreases |todo|
      {
        var id :| id in todo;
        if t - sent[id].sentAt > DELIVERY_ANSWER_WINDOW {
          sent := sent - {id};
        }
        todo := todo - {id};
      }
    }

    method Deliver(f: Fire, io: Io)
      requires Valid() && io.trace !in traces && (forall t :: t in sent ==> t in traces)
      modifies this, queue
      ensures Valid() && View() == TimerModel.Deliver(old(View()), f, io)
    {
      var f' := f.(sentAt := io.t2);
      ForgetAnswered(io.t2);
      sent := sent[io.trace := f'];
      clock, traces := io.t2, traces + {io.trace};
      log := log + [Sent(f.uuid, f.Number(), f.attempt, io.t2)];
      if io.link != Taken {
        sent := sent - {io.trace};
        assert sent == Unexpired(old(sent), io.t2);
        if io.link != TooLarge {
          RetryLater(f', io.t3);
        }
      }
    }

    method Undelivered(trace: TraceId, reason: string, t: int) returns (named: bool)
      requires Valid()
      modifies this, queue
      ensures Valid() && View() == TimerModel.Undelivered(old(View()), trace, reason, t)
      ensures named <==> trace in old(sent)
    {
      named := trace in sent;
      if !named {
        clock := t;
        return;
      }
      var f := sent[trace];
      sent := sent - {trace};
      if !Transient(reason) {
        clock := t;
        return;
      }
      RetryLater(f, t);
    }

    method FireTimer(u: Uuid, now: int, io: Io)
      requires Valid() && io.trace !in traces && (forall t :: t in sent ==> t in traces)
      modifies this, queue
      ensures Valid() && View() == FirePopped(env, old(View()), u, now, io)
    {
      if u !in rows || !io.readOk {
        return;
      }
      var row := rows[u];
      if row.status != Pending {
        return;
      }
      if row.fireAt > now {
        PushEntry(Entry(u, row.fireAt, None));
        return;
      }
      FireDue(u, io);
    }

    /** A pending timer that is due: committed first, then sent. */
    method FireDue(u: Uuid, io: Io)
      requires Valid() && io.trace !in traces && (forall t :: t in sent ==> t in traces)
      requires u in rows && rows[u].status == Pending
      modifies this, queue
      ensures Valid() && View() == FireDueRow(env, old(View()), u, io)
    {
      var row := rows[u];
      clock := io.t1;
      var fire := Fire(u, row, 1, DeliveryDeadline(row, io.t1), 0);
      var fired := row.(fireCount := row.fireCount + 1, lastFired := Some(io.t1));
      if row.kind == Recurring {
        var next := env.cron(row.cron, io.t1);
        if next.None? {
          return;
        }
        fired := fired.(fireAt := next.value);
        if next.value < fire.deadline {
          fire := fire.(deadline := next.value);
        }
      } else {
        fired := fired.(status := Fired);
      }
      if !io.saveOk {
        RetrySave(u, io.t1);
        return;
      }
      CommitAndSend(u, fired, fire, io, NextInstance(env, row, io.t1));
    }

    method RetrySave(u: Uuid, t: int)
      requires Valid()
      modifies this, queue
      ensures Valid() && View() == SaveFailedRetry(old(View()), u, t)
    {
      PushEntry(Entry(u, t + STORAGE_RETRY_DELAY, None));
      failedAt := failedAt[u := t];
    }

    /** The fired row is saved, its next instance is queued, then the fire goes. */
    method CommitAndSend(u: Uuid, fired: Row, fire: Fire, io: Io, ghost next: Option<int>)
      requires Valid() && io.trace !in traces && (forall t :: t in sent ==> t in traces) && u in rows
      requires fired == FiredRow(rows[u], io.t1, next) && (fired.kind == Recurring <==> next.Some?)
      modifies this, queue
      ensures Valid() && View() == TimerModel.Deliver(Committed(old(View()), u, next, io.t1), fire, io)
    {
      UpdateTimer(u, fired);
      if fired.kind == Recurring {
        PushEntry(Entry(u, fired.fireAt, None));
      }
      assert View() == Committed(old(View()), u, next, io.t1);
      Deliver(fire, io);
    }

    method RetryFire(f: Fire, io: Io)
      requires Valid() && io.trace !in traces && (forall t :: t in sent ==> t in traces)
      modifies this, queue
      ensures Valid() && View() == RetryPopped(old(View()), f, io)
    {
      if !io.readOk {
        RetryLater(f, io.t3);
        return;
      }
      if f.uuid !in rows || rows[f.uuid].status == Canceled {
        return;
      }
      Deliver(f, io);
    }

    /** The popped entry e, taken out of the heap of s. */
    method Handle(e: Entry, now: int, io: Io, ghost s: State)
      requires Valid() && io.trace !in traces && (forall t :: t in sent ==> t in traces)
      requires e in s.heap && View() == s.(heap := s.heap - multiset{e})
      modifies this, queue
      ensures Valid() && View() == PopStep(env, s, e, now, io)
    {
      if e.retry.Some? {
        RetryFire(e.retry.value, io);
      } else {
        FireTimer(e.uuid, now, io);
      }
    }

    /** One round of a pass: false once nothing is due. */
    method Round(now: int, world: nat -> Io, n: nat, ghost s0: State, ghost acts: seq<Action>)
        returns (more: bool, ghost acts': seq<Action>)
      requires Valid() && n == |acts| && GoodEnv(env) && GoodWorld(world, s0, now)
      requires PassSoFar(env, s0, View(), acts, now, world)
      modifies this, queue
      ensures Valid() && PassSoFar(env, s0, View(), acts', now, world)
      ensures !more ==> acts' == acts && forall e :: e in queue.items ==> e.at > now
      ensures more ==> |acts'| == n + 1 && DueCount(View().heap, now) == DueCount(old(View()).heap, now) - 1
    {
      ghost var s := View();
      var popped := queue.PopDue(now);
      more, acts' := popped.Some?, acts;
      if more {
        PassStep(env, s0, s, acts, now, world, popped.value);
        Handle(popped.value, now, world(n), s);
        acts' := acts + [Pop(popped.value, now, world(n))];
      }
    }

    /** One pass: a run of the machine that pops due entries in nondecreasing time and leaves none due. */
    method ProcessDue(now: int, world: nat -> Io) returns (ghost acts: seq<Action>)
      requires Valid() && GoodEnv(env) && GoodWorld(world, View(), now) && up
      requires Inv(View())
      modifies this, queue
      ensures Valid() && Legal(env, old(View()), acts) && View() == Run(env, old(View()), acts)
      ensures forall i :: 0 <= i < |acts| ==> acts[i].Pop? && acts[i].now == now && acts[i].io == world(i)
      ensures forall i, j :: 0 <= i < j < |acts| ==> acts[i].e.at <= acts[j].e.at
      ensures forall e :: e in queue.items ==> e.at > now
    {
      ghost var s0 := View();
      acts := [];
      var n: nat := 0;
      var more := true;
      while more
        invariant Valid() && |acts| == n && PassSoFar(env, s0, View(), acts, now, world)
        invariant !more ==> forall e :: e in queue.items ==> e.at > now
        decreases more, DueCount(View().heap, now)
      {
        more, acts := Round(now, world, n, s0, acts);
        n := if more then n + 1 else n;
      }
    }

    /** Start after a stop: collect old history, then load the pending rows; false stops the process. */
    method Start(gcOk: bool, t: int, order: seq<Uuid>, saves: seq<bool>) returns (ok: bool)
      requires Valid() && |saves| == |order| && IsOrder(Collect(View(), gcOk, t).rows, order)
      requires queue.items == []
      modifies this, queue
      ensures Valid() && View() == Restart(env, old(View()), gcOk, t, order, saves) && (ok <==> up)
    {
      if gcOk {
        var gone := Historical(rows, t - HISTORY_RETENTION);
        rows := rows - gone;
        log := log + [Deleted(gone)];
      }
      clock, up := t, true;
      assert View() == Tick(Collect(old(View()), gcOk, t), t).(up := true);
      forall j | 0 <= j < |order| ensures order[j] in rows { assert order[j] in AllPending(rows); }
      ok := ReplayAll(order, t, saves);
      if !ok {
        queue.items, sent, up := [], map[], false;
      }
    }

    method ReplayAll(order: seq<Uuid>, t: int, saves: seq<bool>) returns (ok: bool)
      requires Valid() && up && |saves| == |order| && forall j :: 0 <= j < |order| ==> order[j] in rows
      modifies this, queue
      ensures Valid() && up
      ensures ReplayRows(env, old(View()), order, t, saves) == if ok then Loaded(View()) else SaveFailed(View())
    {
      ghost var goal := ReplayRows(env, View(), order, t, saves);
      assert order[0..] == order && saves[0..] == saves;
      var i := 0;
      while i < |order|
        invariant 0 <= i <= |order| && Valid() && up
        invariant forall j :: i <= j < |order| ==> order[j] in rows
        invariant goal == ReplayRows(env, View(), order[i..], t, saves[i..])
      {
        ReplayUnfold(env, View(), order, i, t, saves);
        ok := ReplayOne(order[i], t, saves[i]);
        if !ok {
          return;
        }
        i := i + 1;
      }
      ok := true;
    }

    method ReplayOne(u: Uuid, now: int, saveOk: bool) returns (ok: bool)
      requires Valid() && u in rows
      modifies this, queue
      ensures Valid() && rows.Keys == old(rows).Keys && up == old(up)
      ensures ReplayRow(env, old(View()), u, now, saveOk) == if ok then Loaded(View()) else SaveFailed(View())
    {
      var row := rows[u];
      ok := true;
      if row.kind == Recurring {
        var next := env.cron(row.cron, now);
        if next.None? {
          return;
        }
        if !saveOk {
          return false;
        }
        UpdateTimer(u, row.(fireAt := next.value));
        PushEntry(Entry(u, next.value, None));
        return;
      }
      if row.fireAt > now || MissedStillFires(row, now) {
        PushEntry(Entry(u, row.fireAt, None));
        return;
      }
      if !saveOk {
        return false;
      }
      UpdateTimer(u, row.(status := Canceled));
    }

    /** A schedule request whose first fire time is known: the pending timer with its client_ref, or a new one. */
    method Insert(u: Uuid, row: Row, saveOk: bool) returns (reply: Reply)
      requires Valid() && u !in rows
      modifies this, queue
      ensures Valid() && View() == TimerModel.Insert(old(View()), u, row, saveOk)
      ensures reply.Created? <==> View() != old(View())
      ensures reply.Created? ==> reply == Created(u, row.fireAt) && u in rows && rows[u] == row
      ensures reply.Existing? <==> HasPendingRef(old(rows), row.owner, row.clientRef)
      ensures reply.Existing? ==> reply.u in rows && row.clientRef.Some? &&
                                  PendingRef(rows[reply.u], row.owner, row.clientRef.value) &&
                                  reply.at == rows[reply.u].fireAt
      ensures reply.LimitExceeded? <==> !reply.Existing? && !UnderLimits(old(rows), row.owner)
    {
      if HasPendingRef(rows, row.owner, row.clientRef) {
        var v :| v in rows && PendingRef(rows[v], row.owner, row.clientRef.value);
        return Existing(v, rows[v].fireAt);
      }
      if |PendingOf(rows, row.owner)| >= MAX_PENDING_PER_OWNER || |AllPending(rows)| >= MAX_PENDING {
        return LimitExceeded;
      }
      if !saveOk {
        return StorageError;
      }
      UpdateTimer(u, row);
      ids := ids + {u};
      PushEntry(Entry(u, row.fireAt, None));
      assert u in rows;
      return Created(u, row.fireAt);
    }

    method Cancel(requester: string, u: Uuid, saveOk: bool) returns (canceled: bool)
      modifies this
      ensures View() == TimerModel.Cancel(old(View()), requester, u, saveOk)
      ensures (canceled <==> |log| == |old(log)| + 1) && (canceled ==> u in rows && rows[u].status == Canceled)
    {
      if u !in rows || rows[u].owner != requester || rows[u].status == Fired || !saveOk {
        return false;
      }
      UpdateTimer(u, rows[u].(status := Canceled));
      return true;
    }

    method Reschedule(requester: string, u: Uuid, at: Option<int>, delay: Option<int>, t: int, saveOk: bool)
        returns (moved: bool)
      requires Valid()
      modifies this, queue
      ensures Valid() && View() == TimerModel.Reschedule(old(View()), requester, u, OneShotFireAt(at, delay, t), saveOk)
      ensures moved <==> |log| == |old(log)| + 1
    {
      if u !in rows || rows[u].owner != requester || rows[u].kind == Recurring || rows[u].status != Pending {
        return false;
      }
      var time := OneShotFireAt(at, delay, t);
      if !time.At? || !saveOk {
        return false;
      }
      UpdateTimer(u, rows[u].(fireAt := time.at));
      PushEntry(Entry(u, time.at, None));
      return true;
    }

    method PurgeOwner(owner: string) returns (deleted: nat)
      modifies this
      ensures View() == Delete(old(View()), OwnedBy(old(rows), owner)) && deleted == |OwnedBy(old(rows), owner)|
    {
      var gone := OwnedBy(rows, owner);
      rows := rows - gone;
      log := log + [Deleted(gone)];
      return |gone|;
    }
  }
}
