/**
 What each step of SY.timer does to a timer, to its fire in flight and to the node's memory, said in the fields and
 numbers of the protocol only.
 */
module TimerOutcomes {
  import opened Basics
  import opened TimerModel
  import opened TimerSafety
  import opened TimerRuns
  import opened TimerProgress

  // ---- a fire goes again ----

  /** How long a fire waits after this attempt. */
  predicate WaitIs(attempt: nat, d: int) {
    && attempt >= 1
    && (attempt == 1 ==> d == 5_000) && (attempt == 2 ==> d == 10_000) && (attempt == 3 ==> d == 20_000)
    && (attempt == 4 ==> d == 40_000) && (attempt >= 5 ==> d == 60_000)
  }

  predicate Passing(reason: string) {
    || reason == "NODE_NOT_FOUND" || reason == "PEER_UNAVAILABLE"
    || reason == "WAN_UNAVAILABLE" || reason == "GATEWAY_UNAVAILABLE"
  }

  /** An entry that sends the same fire again, as its next attempt. */
  predicate NextAttempt(e: Entry, f: Fire, at: int) {
    && e.uuid == f.uuid && e.at == at && e.retry.Some?
    && e.retry.value.uuid == f.uuid && e.retry.value.row == f.row && e.retry.value.deadline == f.deadline
    && e.retry.value.attempt == f.attempt + 1
  }

  /** The heap gained the next attempt of f at that instant if it is on time, and nothing else. */
  ghost predicate TriedAgain(heap: multiset<Entry>, heap': multiset<Entry>, f: Fire, at: int) {
    if at <= f.deadline then exists e :: NextAttempt(e, f, at) && heap' == heap + multiset{e} else heap' == heap
  }

  lemma TriesAgain(s: State, f: Fire, t: int, d: int)
    requires WaitIs(f.attempt, d)
    ensures
      var s' := RetryLater(s, f, t);
      TriedAgain(s.heap, s'.heap, f, t + d) && s' == s.(heap := s'.heap, clock := t)
  {
    if t + d <= f.deadline {
      var e := Entry(f.uuid, t + d, Some(f.(attempt := f.attempt + 1)));
      assert NextAttempt(e, f, t + d) && RetryLater(s, f, t).heap == s.heap + multiset{e};
    }
  }

  lemma PassingIff(reason: string)
    ensures Transient(reason) <==> Passing(reason)
  {
  }

  lemma UndeliveredOutcome(s: State, trace: TraceId, reason: string, t: int, d: int)
    requires trace in s.sent ==> WaitIs(s.sent[trace].attempt, d)
    ensures
      var s' := Undelivered(s, trace, reason, t);
      && s' == s.(clock := t, heap := s'.heap, sent := s'.sent) && s'.sent == s.sent - {trace}
      && (if trace in s.sent && Passing(reason) then TriedAgain(s.heap, s'.heap, s.sent[trace], t + d)
          else s'.heap == s.heap)
  {
    PassingIff(reason);
    if trace in s.sent {
      TriesAgain(s.(sent := s.sent - {trace}), s.sent[trace], t, d);
    } else {
      assert s.sent - {trace} == s.sent;
    }
  }

  /** The router's UNREACHABLE: the fire leaves the sent table and goes again exactly for a reason that passes and in
      time; an unknown trace_id changes nothing. */
  lemma RefusalOutcome(env: Env, s: State, trace: TraceId, reason: string, t: int, d: int)
    requires Enabled(s, Unreachable(trace, reason, t)) && (trace in s.sent ==> WaitIs(s.sent[trace].attempt, d))
    ensures
      var s' := Step(env, s, Unreachable(trace, reason, t));
      && s' == s.(clock := t, heap := s'.heap, sent := s'.sent)
      && s'.sent == s.sent - {trace}
      && (if trace in s.sent && Passing(reason) then TriedAgain(s.heap, s'.heap, s.sent[trace], t + d)
          else s'.heap == s.heap)
  {
    UndeliveredOutcome(s, trace, reason, t, d);
  }

  // ---- a send ----

  /** The sent table after a send at t: what was sent in the last 30 s, and the fire if the link took it. */
  ghost predicate SentAfter(sent: map<TraceId, Fire>, sent': map<TraceId, Fire>, f: Fire, io: Io) {
    && (forall id :: id in sent' <==>
          (id in sent && io.t2 - sent[id].sentAt <= 30_000) || (io.link == Taken && id == io.trace))
    && (forall id :: id in sent' && (io.link != Taken || id != io.trace) ==> id in sent && sent'[id] == sent[id])
    && (io.link == Taken ==> sent'[io.trace] == f.(sentAt := io.t2))
  }

  /** The heap after it: the next attempt if the link failed, nothing if it took the fire or refused its size. */
  ghost predicate HeapAfter(heap: multiset<Entry>, heap': multiset<Entry>, f: Fire, io: Io, d: int) {
    if io.link == LinkFailed then TriedAgain(heap, heap', f, io.t3 + d) else heap' == heap
  }

  lemma LinkOutcome(s: State, f: Fire, io: Io, d: int)
    requires WaitIs(f.attempt, d)
    ensures
      var s' := AfterLink(s, f, io);
      && s' == s.(clock := s'.clock, heap := s'.heap, sent := s'.sent) && HeapAfter(s.heap, s'.heap, f, io, d)
      && s'.sent == if io.link == Taken then s.sent[io.trace := f] else s.sent
  {
    if io.link == LinkFailed { TriesAgain(s, f, io.t3, d); }
  }

  lemma SentTable(sent: map<TraceId, Fire>, f: Fire, io: Io)
    ensures
      var kept := Unexpired(sent, io.t2);
      SentAfter(sent, if io.link == Taken then kept[io.trace := f.(sentAt := io.t2)] else kept, f, io)
  {
  }

  /** When it was sent does not matter to the next attempt. */
  lemma SameAttempt(heap: multiset<Entry>, heap': multiset<Entry>, f: Fire, t: int, io: Io, d: int)
    requires HeapAfter(heap, heap', f.(sentAt := t), io, d)
    ensures HeapAfter(heap, heap', f, io, d)
  {
    if io.link == LinkFailed && io.t3 + d <= f.deadline {
      var e :| NextAttempt(e, f.(sentAt := t), io.t3 + d) && heap' == heap + multiset{e};
      assert NextAttempt(e, f, io.t3 + d);
    }
  }

  lemma SendOutcome(s: State, f: Fire, io: Io, d: int)
    requires WaitIs(f.attempt, d)
    ensures
      var s' := Deliver(s, f, io);
      && s'.rows == s.rows && s'.log == s.log + [Sent(f.uuid, f.row.fireCount + 1, f.attempt, io.t2)]
      && SentAfter(s.sent, s'.sent, f, io) && HeapAfter(s.heap, s'.heap, f, io, d)
  {
    var s1, f' := AfterSend(s, f, io.t2, io.trace), f.(sentAt := io.t2);
    LinkOutcome(s1, f', io, d);
    SentTable(s.sent, f, io);
    SameAttempt(s.heap, Deliver(s, f, io).heap, f, io.t2, io, d);
  }

  // ---- a popped entry ----

  lemma PoppedOutcome(s: State, f: Fire, io: Io, d: int)
    requires WaitIs(f.attempt, d)
    ensures
      var s' := RetryPopped(s, f, io);
      && s'.rows == s.rows
      && (if !io.readOk then TriedAgain(s.heap, s'.heap, f, io.t3 + d) && s'.log == s.log && s'.sent == s.sent
          else if f.uuid !in s.rows || s.rows[f.uuid].status == Canceled then s' == s
          else
            && s'.log == s.log + [Sent(f.uuid, f.row.fireCount + 1, f.attempt, io.t2)]
            && SentAfter(s.sent, s'.sent, f, io) && HeapAfter(s.heap, s'.heap, f, io, d))
  {
    if !io.readOk { TriesAgain(s, f, io.t3, d); } else { SendOutcome(s, f, io, d); }
  }

  /** A popped retry: put off by a failed read, dropped if its timer was canceled or purged, else sent. */
  lemma RetryOutcome(env: Env, s: State, e: Entry, now: int, io: Io, d: int)
    requires Enabled(s, Pop(e, now, io)) && e.retry.Some? && WaitIs(e.retry.value.attempt, d)
    ensures
      var s', f, rest := Step(env, s, Pop(e, now, io)), e.retry.value, s.heap - multiset{e};
      && s'.rows == s.rows
      && (if !io.readOk then TriedAgain(rest, s'.heap, f, io.t3 + d) && s'.log == s.log && s'.sent == s.sent
          else if f.uuid !in s.rows || s.rows[f.uuid].status == Canceled then
            s'.heap == rest && s'.log == s.log && s'.sent == s.sent
          else
            && s'.log == s.log + [Sent(f.uuid, f.row.fireCount + 1, f.attempt, io.t2)]
            && SentAfter(s.sent, s'.sent, f, io) && HeapAfter(rest, s'.heap, f, io, d))
  {
    PoppedOutcome(s.(heap := s.heap - multiset{e}), e.retry.value, io, d);
  }

  /** The entry finds a pending timer that is due, has a next instance if it recurs, and can be read and saved. */
  predicate Fires(env: Env, s: State, e: Entry, now: int, io: Io) {
    && e.retry.None? && e.uuid in s.rows && io.readOk && io.saveOk
    && s.rows[e.uuid].status == Pending && s.rows[e.uuid].fireAt <= now
    && (s.rows[e.uuid].kind == Recurring ==> env.cron(s.rows[e.uuid].cron, io.t1).Some?)
  }

  /** The row a fire commits: one fire more, at that instant; finished, or moved to the next instance. */
  predicate FiredFrom(env: Env, row: Row, row': Row, t: int) {
    && row'.fireCount == row.fireCount + 1 && row'.lastFired == Some(t)
    && (row.kind == OneShot ==> row'.status == Fired && row'.fireAt == row.fireAt)
    && (row.kind == Recurring ==> row'.status == row.status && Some(row'.fireAt) == env.cron(row.cron, t))
    && row' == row.(fireCount := row'.fireCount, lastFired := row'.lastFired,
                    status := row'.status, fireAt := row'.fireAt)
  }

  /** The entries a fire queues: the next instance of a recurring timer. */
  function NextQueued(row': Row, u: Uuid): multiset<Entry> {
    if row'.kind == Recurring then multiset{Entry(u, row'.fireAt, None)} else multiset{}
  }

  /** The fire of that commit, as its first attempt: its deadline is the first of the limits. */
  ghost predicate FirstAttempt(f: Fire, u: Uuid, row: Row, row': Row, t: int) {
    && f.uuid == u && f.row == row && f.attempt == 1
    && forall at :: at <= f.deadline <==> WithinLimits(at, row, t, NextOf(row'))
  }

  /** A fire of u goes from s to s' with this heap in between: sent once, kept for an answer, or tried again in 5 s. */
  ghost predicate SentFirst(s: State, s': State, heap: multiset<Entry>, f: Fire, io: Io) {
    && f.uuid in s'.rows
    && s'.log == s.log + [Saved(f.uuid, s'.rows[f.uuid]), Sent(f.uuid, f.row.fireCount + 1, 1, io.t2)]
    && SentAfter(s.sent, s'.sent, f, io) && HeapAfter(heap, s'.heap, f, io, 5_000)
  }

  lemma CommitOutcome(env: Env, s: State, u: Uuid, t: int)
    requires u in s.rows && s.rows[u].status == Pending
    requires s.rows[u].kind == Recurring ==> env.cron(s.rows[u].cron, t).Some?
    ensures
      var next := NextInstance(env, s.rows[u], t);
      var s' := Committed(s, u, next, t);
      && u in s'.rows && FiredFrom(env, s.rows[u], s'.rows[u], t) && s'.rows == s.rows[u := s'.rows[u]]
      && NextOf(s'.rows[u]) == next && s'.heap == s.heap + NextQueued(s'.rows[u], u)
      && s'.log == s.log + [Saved(u, s'.rows[u])] && s'.sent == s.sent
  {
  }

  lemma FirstAttemptIs(u: Uuid, row: Row, row': Row, next: Option<int>, t: int)
    requires NextOf(row') == next
    ensures FirstAttempt(Fire(u, row, 1, FireDeadline(row, t, next), 0), u, row, row', t)
  {
    forall at ensures at <= FireDeadline(row, t, next) <==> WithinLimits(at, row, t, next) {
      DeadlineIsFirstLimit(row, t, next, at);
    }
  }

  lemma FireDueOutcome(env: Env, s: State, u: Uuid, io: Io) returns (f: Fire)
    requires u in s.rows && s.rows[u].status == Pending && io.saveOk
    requires s.rows[u].kind == Recurring ==> env.cron(s.rows[u].cron, io.t1).Some?
    ensures
      var s', row := FireDueRow(env, s, u, io), s.rows[u];
      && u in s'.rows && FiredFrom(env, row, s'.rows[u], io.t1) && s'.rows == s.rows[u := s'.rows[u]]
      && FirstAttempt(f, u, row, s'.rows[u], io.t1)
      && SentFirst(s, s', s.heap + NextQueued(s'.rows[u], u), f, io)
  {
    var row := s.rows[u];
    var next := NextInstance(env, row, io.t1);
    var s1 := Tick(s, io.t1);
    var s2 := Committed(s1, u, next, io.t1);
    f := Fire(u, row, 1, FireDeadline(row, io.t1, next), 0);
    CommitOutcome(env, s1, u, io.t1);
    FirstAttemptIs(u, row, s2.rows[u], next, io.t1);
    SendOutcome(s2, f, io, 5_000);
  }

  /** A popped entry of a timer that fires: the row is committed, its next instance queued, and the fire is sent as
      attempt 1; after a failed link it goes again 5 s later exactly within its limits. */
  lemma FireOutcome(env: Env, s: State, e: Entry, now: int, io: Io) returns (f: Fire)
    requires Enabled(s, Pop(e, now, io)) && Fires(env, s, e, now, io)
    ensures
      var s', u, row := Step(env, s, Pop(e, now, io)), e.uuid, s.rows[e.uuid];
      && u in s'.rows && FiredFrom(env, row, s'.rows[u], io.t1) && s'.rows == s.rows[u := s'.rows[u]]
      && FirstAttempt(f, u, row, s'.rows[u], io.t1)
      && SentFirst(s, s', s.heap - multiset{e} + NextQueued(s'.rows[u], u), f, io)
  {
    f := FireDueOutcome(env, s.(heap := s.heap - multiset{e}), e.uuid, io);
  }

  /** What an entry that does not fire queues instead. */
  function Instead(env: Env, rows: map<Uuid, Row>, u: Uuid, now: int, io: Io): multiset<Entry> {
    if u !in rows || !io.readOk || rows[u].status != Pending then multiset{}
    else if rows[u].fireAt > now then multiset{Entry(u, rows[u].fireAt, None)}
    else if rows[u].kind == Recurring && env.cron(rows[u].cron, io.t1).None? then multiset{}
    else multiset{Entry(u, io.t1 + 30_000, None)}
  }

  lemma FireDueFails(env: Env, s: State, u: Uuid, io: Io)
    requires u in s.rows
    requires !io.saveOk || (s.rows[u].kind == Recurring && env.cron(s.rows[u].cron, io.t1).None?)
    ensures
      var s' := FireDueRow(env, s, u, io);
      && s'.rows == s.rows && s'.log == s.log && s'.sent == s.sent
      && s'.heap == (if s.rows[u].kind == Recurring && env.cron(s.rows[u].cron, io.t1).None? then s.heap
                     else s.heap + multiset{Entry(u, io.t1 + 30_000, None)})
  {
  }

  lemma NotFiredOutcome(env: Env, s: State, u: Uuid, now: int, io: Io)
    requires u in s.rows && io.readOk && s.rows[u].status == Pending && s.rows[u].fireAt <= now ==>
      !io.saveOk || (s.rows[u].kind == Recurring && env.cron(s.rows[u].cron, io.t1).None?)
    ensures
      var s' := FirePopped(env, s, u, now, io);
      s'.rows == s.rows && s'.log == s.log && s'.sent == s.sent && s'.heap == s.heap + Instead(env, s.rows, u, now, io)
  {
    assert s.heap + multiset{} == s.heap;
    if u in s.rows && io.readOk && s.rows[u].status == Pending && s.rows[u].fireAt <= now {
      FireDueFails(env, s, u, io);
    }
  }

  /** A popped entry that does not fire: nothing is committed or sent, and the timer is queued at its own time, or
      30 s later after a failed save; one that is gone, finished, unreadable or without a next instance is not. */
  lemma NoFireOutcome(env: Env, s: State, e: Entry, now: int, io: Io)
    requires Enabled(s, Pop(e, now, io)) && e.retry.None? && !Fires(env, s, e, now, io)
    ensures
      var s' := Step(env, s, Pop(e, now, io));
      && s'.rows == s.rows && s'.log == s.log && s'.sent == s.sent
      && s'.heap == s.heap - multiset{e} + Instead(env, s.rows, e.uuid, now, io)
  {
    NotFiredOutcome(env, s.(heap := s.heap - multiset{e}), e.uuid, now, io);
  }

  // ---- when a fire in flight ends ----

  ghost predicate InHeap(heap: multiset<Entry>, id: (Uuid, nat)) { exists e :: e in heap && Holds(e, id) }

  ghost predicate InSent(sent: map<TraceId, Fire>, id: (Uuid, nat)) { exists t :: t in sent && sent[t].Id() == id }

  /** It was sent more than 30 s before t. */
  ghost predicate Aged(sent: map<TraceId, Fire>, id: (Uuid, nat), t: int) {
    exists x :: x in sent && sent[x].Id() == id && t - sent[x].sentAt > 30_000
  }

  ghost predicate Recently(sent: map<TraceId, Fire>, id: (Uuid, nat), t: int) {
    exists x :: x in sent && sent[x].Id() == id && t - sent[x].sentAt <= 30_000
  }

  /** The next attempt after t would come too late. */
  ghost predicate Overdue(f: Fire, t: int) { exists d :: WaitIs(f.attempt, d) && t + d > f.deadline }

  lemma OverdueIff(f: Fire, t: int, d: int)
    requires WaitIs(f.attempt, d)
    ensures Overdue(f, t) <==> t + d > f.deadline
  {
  }

  /** The popped entry sends something: a retry whose timer is still there, or a timer that fires. */
  predicate Sends(env: Env, s: State, e: Entry, now: int, io: Io) {
    if e.retry.Some? then
      io.readOk && e.retry.value.uuid in s.rows && s.rows[e.retry.value.uuid].status != Canceled
    else Fires(env, s, e, now, io)
  }

  /** The step ends the fire: a crash; a final refusal, or one too late; a retry that is too large, too late, or of a
      timer that was canceled or purged; no answer within 30 s of its send by the time of another one. */
  ghost predicate EndsFlight(env: Env, s: State, a: Action, id: (Uuid, nat)) {
    match a
    case CrashNow => true
    case CrashInFire(_, _, _) => true
    case Unreachable(trace, reason, t) =>
      trace in s.sent && s.sent[trace].Id() == id && (!Passing(reason) || Overdue(s.sent[trace], t))
    case Pop(e, now, io) =>
      if Holds(e, id) then
        if !io.readOk then Overdue(e.retry.value, io.t3)
        else
          !Sends(env, s, e, now, io) || io.link == TooLarge ||
          (io.link == LinkFailed && Overdue(e.retry.value, io.t3))
      else
        Sends(env, s, e, now, io) && Aged(s.sent, id, io.t2)
    case _ => false
  }

  lemma TriedAgainHeap(heap: multiset<Entry>, heap': multiset<Entry>, f: Fire, at: int, id: (Uuid, nat))
    requires TriedAgain(heap, heap', f, at)
    ensures InHeap(heap', id) <==> InHeap(heap, id) || (f.Id() == id && at <= f.deadline)
  {
    if at <= f.deadline {
      var e :| NextAttempt(e, f, at) && heap' == heap + multiset{e};
      assert Holds(e, f.Id()) && e in heap';
      forall x | x in heap' ensures x in heap || x == e { }
    }
  }

  /** What a send leaves of a fire: its own goes on if the link took it or it is tried again in time; of the others,
      those in the heap and those sent in the last 30 s. */
  lemma SendFlight(heap: multiset<Entry>, heap': multiset<Entry>, sent: map<TraceId, Fire>, sent': map<TraceId, Fire>,
      f: Fire, io: Io, d: int, id: (Uuid, nat))
    requires SentAfter(sent, sent', f, io) && HeapAfter(heap, heap', f, io, d) && WaitIs(f.attempt, d)
    requires io.trace !in sent
    ensures InHeap(heap', id) <==>
      InHeap(heap, id) || (f.Id() == id && io.link == LinkFailed && !Overdue(f, io.t3))
    ensures InSent(sent', id) <==>
      Recently(sent, id, io.t2) || (f.Id() == id && io.link == Taken)
  {
    OverdueIff(f, io.t3, d);
    if io.link == LinkFailed { TriedAgainHeap(heap, heap', f, io.t3 + d, id); }
    if t :| t in sent && sent[t].Id() == id && io.t2 - sent[t].sentAt <= 30_000 {
      assert t in sent' && sent'[t] == sent[t];
    }
    if io.link == Taken { assert io.trace in sent' && sent'[io.trace].Id() == f.Id(); }
  }

  function TheWait(attempt: nat): (d: int)
    requires attempt >= 1
    ensures WaitIs(attempt, d)
  {
    if attempt == 1 then 5_000 else if attempt == 2 then 10_000 else if attempt == 3 then 20_000
    else if attempt == 4 then 40_000 else 60_000
  }

  lemma OnePlace(s: State, id: (Uuid, nat))
    requires Linear(s) && InFlight(s, id)
    ensures InHeap(s.heap, id) != InSent(s.sent, id)
    ensures forall e, e' :: e in s.heap && e' in s.heap && Holds(e, id) && Holds(e', id) ==> e == e'
    ensures forall e :: e in s.heap && Holds(e, id) ==> s.heap[e] == 1
    ensures forall t, t' :: t in s.sent && t' in s.sent && s.sent[t].Id() == id && s.sent[t'].Id() == id ==> t == t'
  {
  }

  lemma PoppedPlace(s: State, e: Entry, id: (Uuid, nat))
    requires Linear(s) && InFlight(s, id) && e in s.heap
    ensures InHeap(s.heap - multiset{e}, id) <==> InHeap(s.heap, id) && !Holds(e, id)
    ensures Holds(e, id) ==> !InSent(s.sent, id)
  {
    OnePlace(s, id);
    var rest := s.heap - multiset{e};
    assert forall x :: x in rest ==> x in s.heap;
    if !Holds(e, id) && InHeap(s.heap, id) {
      var x :| x in s.heap && Holds(x, id);
      assert x in rest;
    }
  }

  lemma RefusalFlight(env: Env, s: State, trace: TraceId, reason: string, t: int, id: (Uuid, nat))
    requires Flights(s) && Linear(s) && Enabled(s, Unreachable(trace, reason, t)) && InFlight(s, id)
    ensures InFlight(Step(env, s, Unreachable(trace, reason, t)), id) <==>
      !EndsFlight(env, s, Unreachable(trace, reason, t), id)
  {
    var s' := Step(env, s, Unreachable(trace, reason, t));
    OnePlace(s, id);
    if trace !in s.sent {
      RefusalOutcome(env, s, trace, reason, t, 0);
      assert s'.sent == s.sent;
    } else {
      var f := s.sent[trace];
      assert SentOk(s, f);
      var d := TheWait(f.attempt);
      RefusalOutcome(env, s, trace, reason, t, d);
      OverdueIff(f, t, d);
      if Passing(reason) { TriedAgainHeap(s.heap, s'.heap, f, t + d, id); }
      RemovedSent(s, trace, id);
    }
  }

  lemma RemovedSent(s: State, trace: TraceId, id: (Uuid, nat))
    requires Linear(s) && trace in s.sent
    ensures InSent(s.sent - {trace}, id) <==> InSent(s.sent, id) && s.sent[trace].Id() != id
  {
    if t :| t in s.sent && s.sent[t].Id() == id && t != trace {
      assert t in s.sent - {trace};
    }
  }

  lemma SentSplit(s: State, id: (Uuid, nat), t2: int)
    requires Linear(s) && InFlight(s, id)
    ensures Recently(s.sent, id, t2) <==> InSent(s.sent, id) && !Aged(s.sent, id, t2)
    ensures Aged(s.sent, id, t2) ==> InSent(s.sent, id)
  {
    OnePlace(s, id);
    if x :| x in s.sent && s.sent[x].Id() == id {
      assert t2 - s.sent[x].sentAt <= 30_000 ==> Recently(s.sent, id, t2);
      assert t2 - s.sent[x].sentAt > 30_000 ==> Aged(s.sent, id, t2);
    }
  }

  /** A send of f from a state without the popped entry e: f itself goes on unless it is too large or too late, every
      other fire unless its answer is overdue. */
  lemma SendFlightIff(s: State, e: Entry, id: (Uuid, nat), heap: multiset<Entry>, heap': multiset<Entry>,
      sent': map<TraceId, Fire>, f: Fire, io: Io, d: int)
    requires Linear(s) && InFlight(s, id) && e in s.heap && io.trace !in s.sent && WaitIs(f.attempt, d)
    requires InHeap(heap, id) <==> InHeap(s.heap - multiset{e}, id)
    requires SentAfter(s.sent, sent', f, io) && HeapAfter(heap, heap', f, io, d) && (f.Id() == id <==> Holds(e, id))
    ensures InHeap(heap', id) || InSent(sent', id) <==>
      if Holds(e, id) then io.link == Taken || (io.link == LinkFailed && !Overdue(f, io.t3))
      else !Aged(s.sent, id, io.t2)
  {
    OnePlace(s, id);
    PoppedPlace(s, e, id);
    SendFlight(heap, heap', s.sent, sent', f, io, d, id);
    SentSplit(s, id, io.t2);
  }

  lemma PutOffFlightIff(s: State, e: Entry, id: (Uuid, nat), heap': multiset<Entry>, t: int, d: int)
    requires Linear(s) && InFlight(s, id) && e in s.heap && e.retry.Some? && WaitIs(e.retry.value.attempt, d)
    requires TriedAgain(s.heap - multiset{e}, heap', e.retry.value, t + d)
    ensures InHeap(heap', id) || InSent(s.sent, id) <==> (Holds(e, id) ==> !Overdue(e.retry.value, t))
  {
    OnePlace(s, id);
    PoppedPlace(s, e, id);
    OverdueIff(e.retry.value, t, d);
    TriedAgainHeap(s.heap - multiset{e}, heap', e.retry.value, t + d, id);
  }

  lemma DroppedFlightIff(s: State, e: Entry, id: (Uuid, nat))
    requires Linear(s) && InFlight(s, id) && e in s.heap
    ensures InHeap(s.heap - multiset{e}, id) || InSent(s.sent, id) <==> !Holds(e, id)
  {
    OnePlace(s, id);
    PoppedPlace(s, e, id);
  }

  lemma FlightParts(s: State, id: (Uuid, nat))
    ensures InFlight(s, id) <==> InHeap(s.heap, id) || InSent(s.sent, id)
  {
  }

  lemma RetryFlight(env: Env, s: State, e: Entry, now: int, io: Io, id: (Uuid, nat), d: int)
    requires Linear(s) && Enabled(s, Pop(e, now, io)) && InFlight(s, id) && e.retry.Some? && io.trace !in s.sent
    requires WaitIs(e.retry.value.attempt, d)
    ensures InFlight(Step(env, s, Pop(e, now, io)), id) <==> !EndsFlight(env, s, Pop(e, now, io), id)
  {
    var s', f, rest := Step(env, s, Pop(e, now, io)), e.retry.value, s.heap - multiset{e};
    RetryOutcome(env, s, e, now, io, d);
    FlightParts(s', id);
    if !io.readOk {
      PutOffFlightIff(s, e, id, s'.heap, io.t3, d);
    } else if Sends(env, s, e, now, io) {
      SendFlightIff(s, e, id, rest, s'.heap, s'.sent, f, io, d);
    } else {
      DroppedFlightIff(s, e, id);
    }
  }

  /** A first send, with the next instance queued. */
  lemma FirstSendFlight(s: State, s': State, e: Entry, id: (Uuid, nat), next: multiset<Entry>, f: Fire, io: Io)
    requires Linear(s) && InFlight(s, id) && e in s.heap && e.retry.None? && io.trace !in s.sent && f.Id() != id
    requires f.attempt == 1 && (forall x :: x in next ==> x.retry.None?)
    requires SentFirst(s, s', s.heap - multiset{e} + next, f, io)
    ensures InFlight(s', id) <==> !Aged(s.sent, id, io.t2)
  {
    FlightParts(s', id);
    PlainHeap(s.heap - multiset{e}, next, id);
    SendFlightIff(s, e, id, s.heap - multiset{e} + next, s'.heap, s'.sent, f, io, 5_000);
  }

  lemma FiredFlight(env: Env, s: State, e: Entry, now: int, io: Io, id: (Uuid, nat))
    requires Linear(s) && Enabled(s, Pop(e, now, io)) && InFlight(s, id) && io.trace !in s.sent
    requires Fires(env, s, e, now, io) && id != (e.uuid, s.rows[e.uuid].fireCount + 1)
    ensures InFlight(Step(env, s, Pop(e, now, io)), id) <==> !Aged(s.sent, id, io.t2)
  {
    var f := FireOutcome(env, s, e, now, io);
    var s' := Step(env, s, Pop(e, now, io));
    FirstSendFlight(s, s', e, id, NextQueued(s'.rows[e.uuid], e.uuid), f, io);
  }

  lemma NotFiredFlight(env: Env, s: State, e: Entry, now: int, io: Io, id: (Uuid, nat))
    requires Linear(s) && Enabled(s, Pop(e, now, io)) && InFlight(s, id) && e.retry.None? && !Fires(env, s, e, now, io)
    ensures InFlight(Step(env, s, Pop(e, now, io)), id)
  {
    var s', more := Step(env, s, Pop(e, now, io)), Instead(env, s.rows, e.uuid, now, io);
    NoFireOutcome(env, s, e, now, io);
    FlightParts(s', id);
    PlainHeap(s.heap - multiset{e}, more, id);
    DroppedFlightIff(s, e, id);
  }

  lemma PopFlight(env: Env, s: State, e: Entry, now: int, io: Io, id: (Uuid, nat))
    requires Flights(s) && Linear(s) && Enabled(s, Pop(e, now, io)) && InFlight(s, id)
    ensures InFlight(Step(env, s, Pop(e, now, io)), id) <==> !EndsFlight(env, s, Pop(e, now, io), id)
  {
    if e.retry.Some? {
      assert RetryOk(s, e);
      RetryFlight(env, s, e, now, io, id, TheWait(e.retry.value.attempt));
    } else {
      if e.uuid in s.rows { NewNumber(s, e.uuid); }
      if Fires(env, s, e, now, io) {
        FiredFlight(env, s, e, now, io, id);
      } else {
        NotFiredFlight(env, s, e, now, io, id);
      }
    }
  }

  /** Entries that are no retries hold no fire. */
  lemma PlainHeap(heap: multiset<Entry>, more: multiset<Entry>, id: (Uuid, nat))
    requires forall e :: e in more ==> e.retry.None?
    ensures InHeap(heap + more, id) <==> InHeap(heap, id)
  {
    if e :| e in heap && Holds(e, id) { assert e in heap + more; }
  }

  lemma KeptFlight(s: State, s': State, id: (Uuid, nat))
    requires InFlight(s, id) && s'.sent == s.sent && s.heap <= s'.heap
    ensures InFlight(s', id)
  {
    if e :| e in s.heap && Holds(e, id) { assert e in s'.heap; }
  }

  lemma RequestFlight(env: Env, s: State, a: Action, id: (Uuid, nat))
    requires Enabled(s, a) && InFlight(s, id) && TimerSafety.IsRequest(a)
    ensures InFlight(Step(env, s, a), id)
  {
    RequestMemory(env, s, a);
    KeptFlight(s, Step(env, s, a), id);
  }

  lemma RequestMemory(env: Env, s: State, a: Action)
    requires Enabled(s, a) && TimerSafety.IsRequest(a)
    ensures Step(env, s, a).sent == s.sent && s.heap <= Step(env, s, a).heap
  {
    match a
    case Schedule(req, at, delay, u, t, saveOk) =>
      var time := OneShotFireAt(at, delay, t);
      if time.At? { InsertMemory(Tick(s, t), u, NewRow(req, OneShot, "", time.at, t), saveOk); }
    case ScheduleRecurring(req, cron, u, t, saveOk) =>
      var next := env.cron(cron, t);
      if next.Some? { InsertMemory(Tick(s, t), u, NewRow(req, Recurring, cron, next.value, t), saveOk); }
    case RescheduleTimer(requester, u, at, delay, t, saveOk) =>
      RescheduleMemory(Tick(s, t), requester, u, OneShotFireAt(at, delay, t), saveOk);
    case _ =>
  }

  lemma InsertMemory(s: State, u: Uuid, row: Row, saveOk: bool)
    ensures Insert(s, u, row, saveOk).sent == s.sent && s.heap <= Insert(s, u, row, saveOk).heap
  {
  }

  lemma RescheduleMemory(s: State, requester: string, u: Uuid, time: FireTime, saveOk: bool)
    ensures
      var s' := Reschedule(s, requester, u, time, saveOk);
      s'.sent == s.sent && s.heap <= s'.heap
  {
  }

  /** In every reachable state: a fire in flight is in flight after a step if and only if the step does not end it. */
  lemma StaysInFlightIff(env: Env, s: State, a: Action, id: (Uuid, nat))
    requires Inv(s) && Enabled(s, a) && InFlight(s, id)
    ensures InFlight(Step(env, s, a), id) <==> !EndsFlight(env, s, a, id)
  {
    match a
    case Unreachable(trace, reason, t) => RefusalFlight(env, s, trace, reason, t, id);
    case Pop(e, now, io) => PopFlight(env, s, e, now, io, id);
    case CrashNow =>
    case CrashInFire(e, now, t) => CrashEmpties(env, s, e, now, t);
    case Start(_, _, _, _) =>
    case _ => RequestFlight(env, s, a, id);
  }

  lemma CrashEmpties(env: Env, s: State, e: Entry, now: int, t: int)
    requires Enabled(s, CrashInFire(e, now, t))
    ensures
      var s' := Step(env, s, CrashInFire(e, now, t));
      s'.heap == multiset{} && s'.sent == map[]
  {
  }
}
