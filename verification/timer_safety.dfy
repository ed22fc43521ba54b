/**
 Safety of SY.timer over every run, crashes and restarts included: no fire number is sent twice for one
 attempt, a fire is saved before it goes, fires in flight are linear, retries are bounded, finished
 rows stay finished, nothing goes out after a cancel or a purge.
 */
module TimerSafety {
  import opened Basics
  import opened TimerModel

  // ---- what a log must satisfy ----

  predicate SameAttempt(a: Event, b: Event) {
    a.Sent? && b.Sent? && a.uuid == b.uuid && a.number == b.number && a.attempt == b.attempt
  }

  /** Each (timer, fire number, attempt) is handed to the link at most once. */
  ghost predicate SentOnce(log: seq<Event>) {
    forall i, j :: 0 <= i < j < |log| ==> !SameAttempt(log[i], log[j])
  }

  predicate SavesFire(e: Event, u: Uuid, number: nat) {
    e.Saved? && e.uuid == u && e.row.fireCount == number
  }

  ghost predicate SavedIn(log: seq<Event>, u: Uuid, number: nat) {
    exists e :: e in log && SavesFire(e, u, number)
  }

  /** A fire number goes out only after the row was committed with that fire_count. */
  ghost predicate SavedFirst(log: seq<Event>) {
    forall i :: 0 <= i < |log| && log[i].Sent? ==> SavedIn(log[..i], log[i].uuid, log[i].number)
  }

  predicate Kills(e: Event, u: Uuid) {
    (e.Saved? && e.uuid == u && e.row.status == Canceled) || (e.Deleted? && u in e.uuids)
  }

  /** After a cancel or a deletion is committed no TIMER_FIRED of that timer goes out. */
  ghost predicate NoSendAfterKill(log: seq<Event>) {
    forall i, j :: 0 <= i < j < |log| && log[j].Sent? ==> !Kills(log[i], log[j].uuid)
  }

  predicate StaysFinished(a: Event, b: Event) {
    a.Saved? && b.Saved? && a.uuid == b.uuid ==>
      && (a.row.status != Pending ==> b.row.status == a.row.status)
      && a.row.fireCount <= b.row.fireCount
      && a.row.kind == b.row.kind
  }

  /** Fired and canceled are terminal; a fire count never goes down. */
  ghost predicate Lifecycle(log: seq<Event>) {
    forall i, j :: 0 <= i < j < |log| ==> StaysFinished(log[i], log[j])
  }

  const MAX_ATTEMPTS := 63

  ghost predicate BoundedAttempts(log: seq<Event>) {
    forall e :: e in log && e.Sent? ==> 1 <= e.attempt <= MAX_ATTEMPTS
  }

  ghost predicate GoodLog(log: seq<Event>) {
    SentOnce(log) && SavedFirst(log) && NoSendAfterKill(log) && Lifecycle(log) && BoundedAttempts(log)
  }

  // ---- the state invariant ----

  predicate RowOk(row: Row) {
    if row.kind == Recurring then row.status != Fired
    else row.fireCount <= 1 && (row.status == Fired <==> row.fireCount == 1)
  }

  ghost predicate Rows(s: State) {
    forall u :: u in s.rows ==> u in s.ids && RowOk(s.rows[u])
  }

  /** At most one pending row for an owner's client_ref. */
  ghost predicate UniqueRefs(rows: map<Uuid, Row>) {
    forall u, v, owner, ref ::
      (u in rows && v in rows && PendingRef(rows[u], owner, ref) && PendingRef(rows[v], owner, ref)) ==> u == v
  }

  /** The log agrees with the table. */
  ghost predicate Logged(s: State, e: Event) {
    match e
    case Saved(u, r) =>
      && u in s.ids
      && (u in s.rows ==> (r.status != Pending ==> s.rows[u].status == r.status) &&
                          r.fireCount <= s.rows[u].fireCount && r.kind == s.rows[u].kind)
    case Deleted(gone) => gone <= s.ids && gone !! s.rows.Keys
    case Sent(u, k, a, _) => u in s.ids && (u in s.rows ==> k <= s.rows[u].fireCount)
  }

  ghost predicate LogAgrees(s: State) { forall e :: e in s.log ==> Logged(s, e) }

  /** The least time from a fire's first attempt to the given one. */
  function Elapsed(attempt: nat): int {
    if attempt <= 1 then 0 else Elapsed(attempt - 1) + RetryDelay(attempt - 1)
  }

  predicate DropOneShot(f: Fire) { f.row.kind == OneShot && f.row.policy == DropMissed }

  /** The next instance a committed row holds. */
  function NextOf(row: Row): Option<int> { if row.kind == Recurring then Some(row.fireAt) else None }

  /** Event i is the commit of the fire: the save that first brought the row to its fire number. Its instant and, for a
      recurring timer, the next instance committed with it give the deadline. */
  ghost predicate CommitAt(log: seq<Event>, i: nat, f: Fire) {
    && i < |log| && SavesFire(log[i], f.uuid, f.Number())
    && (forall j: nat :: j < i ==> !SavesFire(log[j], f.uuid, f.Number()))
    && CommitOf(log[i].row, f)
  }

  predicate CommitOf(saved: Row, f: Fire) {
    && saved.lastFired.Some? && saved.kind == f.row.kind
    && f.deadline == FireDeadline(f.row, saved.lastFired.value, NextOf(saved))
  }

  ghost predicate WasCommitted(log: seq<Event>, f: Fire) { exists i: nat :: CommitAt(log, i, f) }

  ghost predicate FireOk(s: State, f: Fire) {
    && f.uuid in s.ids
    && 1 <= f.attempt <= MAX_ATTEMPTS
    && (f.uuid in s.rows ==> f.Number() <= s.rows[f.uuid].fireCount)
    && WasCommitted(s.log, f)
  }

  ghost predicate SentBelow(log: seq<Event>, f: Fire, bound: int) {
    forall e :: e in log && e.Sent? && e.uuid == f.uuid && e.number == f.Number() ==> e.attempt < bound
  }

  /** A retry in the heap: on time, spaced, and of an attempt not made yet. */
  ghost predicate RetryOk(s: State, e: Entry) {
    e.retry.Some? ==>
      var f := e.retry.value;
      && FireOk(s, f) && e.uuid == f.uuid
      && f.deadline - DELIVERY_RETRY_WINDOW + Elapsed(f.attempt) <= e.at <= f.deadline
      && SentBelow(s.log, f, f.attempt)
      && !DropOneShot(f)
  }

  ghost predicate SentOk(s: State, f: Fire) {
    && FireOk(s, f)
    && f.deadline - DELIVERY_RETRY_WINDOW + Elapsed(f.attempt) <= f.sentAt <= s.clock
    && SentBelow(s.log, f, f.attempt + 1)
    && (DropOneShot(f) ==> f.deadline <= f.sentAt)
  }

  ghost predicate Flights(s: State) {
    && (forall e :: e in s.heap ==> RetryOk(s, e))
    && (forall t :: t in s.sent ==> t in s.traces && SentOk(s, s.sent[t]))
  }

  predicate Holds(e: Entry, id: (Uuid, nat)) { e.retry.Some? && e.retry.value.Id() == id }

  /** Each fire in flight is in one place only. */
  ghost predicate Linear(s: State) {
    && (forall e :: e in s.heap && e.retry.Some? ==> s.heap[e] == 1)
    && (forall e, e' :: e in s.heap && e' in s.heap && e.retry.Some? && Holds(e', e.retry.value.Id()) ==> e == e')
    && (forall t, t' :: t in s.sent && t' in s.sent && s.sent[t].Id() == s.sent[t'].Id() ==> t == t')
    && (forall e, t :: e in s.heap && t in s.sent ==> !Holds(e, s.sent[t].Id()))
  }

  ghost predicate Caps(rows: map<Uuid, Row>) {
    && |AllPending(rows)| <= MAX_PENDING
    && forall o :: |PendingOf(rows, o)| <= MAX_PENDING_PER_OWNER
  }

  ghost predicate Inv(s: State) {
    && GoodLog(s.log) && Rows(s) && UniqueRefs(s.rows) && LogAgrees(s) && Flights(s) && Linear(s)
    && (!s.up ==> s.heap == multiset{} && s.sent == map[])
  }

  // ---- appending to the log ----

  lemma AppendSaved(s: State, u: Uuid, row: Row)
    requires GoodLog(s.log) && LogAgrees(s)
    requires u in s.rows ==>
      && (s.rows[u].status != Pending ==> row.status == s.rows[u].status)
      && s.rows[u].fireCount <= row.fireCount && s.rows[u].kind == row.kind
    requires u !in s.rows ==> u !in s.ids
    ensures GoodLog(s.log + [Saved(u, row)])
  {
    var log := s.log + [Saved(u, row)];
    forall i | 0 <= i < |log| && log[i].Sent? ensures SavedIn(log[..i], log[i].uuid, log[i].number) {
      assert log[..i] == s.log[..i];
    }
    forall i, j | 0 <= i < j < |log| ensures StaysFinished(log[i], log[j]) {
      if j == |s.log| { assert log[i] in s.log; }
    }
    assert forall e :: e in log ==> e in s.log || e == Saved(u, row);
  }

  lemma AppendDeleted(s: State, gone: set<Uuid>)
    requires GoodLog(s.log)
    ensures GoodLog(s.log + [Deleted(gone)])
  {
    var log := s.log + [Deleted(gone)];
    forall i | 0 <= i < |log| && log[i].Sent? ensures SavedIn(log[..i], log[i].uuid, log[i].number) {
      assert log[..i] == s.log[..i];
    }
    assert forall e :: e in log ==> e in s.log || e == Deleted(gone);
  }

  lemma AppendSentSaved(log: seq<Event>, f: Fire, t: int)
    requires SavedFirst(log) && WasCommitted(log, f)
    ensures SavedFirst(log + [Sent(f.uuid, f.Number(), f.attempt, t)])
  {
    var log' := log + [Sent(f.uuid, f.Number(), f.attempt, t)];
    forall i | 0 <= i < |log'| && log'[i].Sent? ensures SavedIn(log'[..i], log'[i].uuid, log'[i].number) {
      assert log'[..i] == log[..i];
      if i == |log| {
        assert log[..i] == log;
        var c: nat :| CommitAt(log, c, f);
        assert log[c] in log'[..i] && SavesFire(log[c], log'[i].uuid, log'[i].number);
      }
    }
  }

  lemma AppendSentAlive(s: State, u: Uuid, k: nat, a: nat, t: int)
    requires NoSendAfterKill(s.log) && LogAgrees(s) && u in s.rows && s.rows[u].status != Canceled
    ensures NoSendAfterKill(s.log + [Sent(u, k, a, t)])
  {
    var log := s.log + [Sent(u, k, a, t)];
    forall i, j | 0 <= i < j < |log| && log[j].Sent? ensures !Kills(log[i], log[j].uuid) {
      if j == |s.log| { assert log[i] in s.log && Logged(s, log[i]); }
    }
  }

  lemma AppendSent(s: State, f: Fire, t: int)
    requires GoodLog(s.log) && LogAgrees(s) && FireOk(s, f)
    requires f.uuid in s.rows && s.rows[f.uuid].status != Canceled
    requires SentBelow(s.log, f, f.attempt)
    ensures GoodLog(s.log + [Sent(f.uuid, f.Number(), f.attempt, t)])
  {
    var last := Sent(f.uuid, f.Number(), f.attempt, t);
    var log := s.log + [last];
    AppendSentSaved(s.log, f, t);
    AppendSentAlive(s, f.uuid, f.Number(), f.attempt, t);
    assert SentOnce(log) by {
      forall i, j | 0 <= i < j < |log| ensures !SameAttempt(log[i], log[j]) {
        if j == |s.log| { assert log[i] in s.log; }
      }
    }
    assert BoundedAttempts(log) by { assert forall e :: e in log ==> e in s.log || e == last; }
  }

  // ---- each primitive keeps the invariant ----

  /** In flight facts survive any table update that only raises fire counts, and any longer log. */
  lemma FireOkKept(s: State, s': State, f: Fire)
    requires FireOk(s, f) && s.ids <= s'.ids && s.log <= s'.log
    requires f.uuid in s'.rows ==> f.uuid in s.rows && s.rows[f.uuid].fireCount <= s'.rows[f.uuid].fireCount
    ensures FireOk(s', f)
  {
    var i: nat :| CommitAt(s.log, i, f);
    assert CommitAt(s'.log, i, f);
  }

  /** The same for all of them, when the log gains no Sent and the clock does not go back. */
  lemma FlightsKept(s: State, s': State)
    requires Flights(s) && s.ids <= s'.ids && s.traces <= s'.traces && s.clock <= s'.clock
    requires s.log <= s'.log && (forall e :: e in s'.log && e !in s.log ==> !e.Sent?)
    requires forall u :: u in s'.rows && u in s.ids ==> u in s.rows && s.rows[u].fireCount <= s'.rows[u].fireCount
    requires forall e :: e in s'.heap && e.retry.Some? ==> e in s.heap
    requires forall t :: t in s'.sent ==> t in s.sent && s'.sent[t] == s.sent[t]
    ensures Flights(s')
  {
    forall e | e in s'.heap ensures RetryOk(s', e) {
      if e.retry.Some? { FireOkKept(s, s', e.retry.value); }
    }
    forall t | t in s'.sent ensures t in s'.traces && SentOk(s', s'.sent[t]) {
      FireOkKept(s, s', s.sent[t]);
    }
  }

  /** Fires leave the heap and the sent table, none comes in. */
  lemma LinearKept(s: State, s': State)
    requires Linear(s)
    requires forall e :: e in s'.heap && e.retry.Some? ==> e in s.heap && s'.heap[e] == s.heap[e]
    requires forall t :: t in s'.sent ==> t in s.sent && s'.sent[t] == s.sent[t]
    ensures Linear(s')
  {
  }

  lemma TickInv(s: State, t: int)
    requires Inv(s) && s.clock <= t
    ensures Inv(Tick(s, t))
  {
    FlightsKept(s, Tick(s, t));
  }

  lemma PushInv(s: State, u: Uuid, at: int)
    requires Inv(s) && s.up
    ensures Inv(Push(s, u, at))
  {
    var s' := Push(s, u, at);
    assert Flights(s') by { FlightsKept(s, s'); }
    assert Linear(s') by { LinearKept(s, s'); }
  }

  /** A saved row is in the log, and the table says what the log says. */
  lemma SavedLogged(s: State, s': State, u: Uuid, row: Row)
    requires LogAgrees(s) && s'.log == s.log + [Saved(u, row)] && s'.rows == s.rows[u := row] && s'.ids == s.ids + {u}
    requires u in s.rows ==>
      && (s.rows[u].status != Pending ==> row.status == s.rows[u].status)
      && s.rows[u].fireCount <= row.fireCount && row.kind == s.rows[u].kind
    requires u !in s.rows ==> u !in s.ids
    ensures LogAgrees(s')
  {
    forall e | e in s'.log ensures Logged(s', e) {
      if e in s.log { assert Logged(s, e); } else { assert e == Saved(u, row); }
    }
  }

  lemma SaveInv(s: State, u: Uuid, row: Row)
    requires Inv(s) && u in s.rows && RowOk(row)
    requires s.rows[u].status != Pending ==> row.status == s.rows[u].status
    requires s.rows[u].fireCount <= row.fireCount
    requires row.owner == s.rows[u].owner && row.clientRef == s.rows[u].clientRef && row.kind == s.rows[u].kind
    ensures Inv(Save(s, u, row))
  {
    var s' := Save(s, u, row);
    assert GoodLog(s'.log) by { AppendSaved(s, u, row); }
    assert s.ids == s.ids + {u};
    assert LogAgrees(s') by { SavedLogged(s, s', u, row); }
    assert Flights(s') by {
      assert forall e :: e in s'.log ==> e in s.log || e == Saved(u, row);
      FlightsKept(s, s');
    }
    assert Linear(s') by { LinearKept(s, s'); }
  }

  lemma InsertInv(s: State, u: Uuid, row: Row, saveOk: bool)
    requires Inv(s) && s.up && u !in s.ids && row.status == Pending && row.fireCount == 0
    ensures Inv(Insert(s, u, row, saveOk))
  {
    if Insert(s, u, row, saveOk) != s {
      InsertedInv(s, u, row);
      PushInv(Save(s, u, row).(ids := s.ids + {u}), u, row.fireAt);
    }
  }

  lemma InsertedInv(s: State, u: Uuid, row: Row)
    requires Inv(s) && u !in s.ids && row.status == Pending && row.fireCount == 0
    requires row.clientRef.Some? ==> !HasPendingRef(s.rows, row.owner, row.clientRef)
    ensures Inv(Save(s, u, row).(ids := s.ids + {u}))
  {
    var s' := Save(s, u, row).(ids := s.ids + {u});
    assert GoodLog(s'.log) by { AppendSaved(s, u, row); }
    assert LogAgrees(s') by { SavedLogged(s, s', u, row); }
    assert Flights(s') by { InsertedFlights(s, s', u, row); }
    assert Linear(s') by { LinearKept(s, s'); }
    assert UniqueRefs(s'.rows) by { InsertedUnique(s.rows, u, row); }
  }

  lemma InsertedFlights(s: State, s': State, u: Uuid, row: Row)
    requires Flights(s) && u !in s.ids && s' == Save(s, u, row).(ids := s.ids + {u})
    ensures Flights(s')
  {
    assert forall e :: e in s'.log ==> e in s.log || e == Saved(u, row);
    FlightsKept(s, s');
  }

  lemma InsertedUnique(rows: map<Uuid, Row>, u: Uuid, row: Row)
    requires UniqueRefs(rows) && u !in rows && (row.clientRef.Some? ==> !HasPendingRef(rows, row.owner, row.clientRef))
    ensures UniqueRefs(rows[u := row])
  {
  }

  lemma DeleteInv(s: State, gone: set<Uuid>)
    requires Inv(s) && gone <= s.rows.Keys
    ensures Inv(Delete(s, gone))
  {
    var s' := Delete(s, gone);
    AppendDeleted(s, gone);
    assert forall e :: e in s'.log ==> e in s.log || e == Deleted(gone);
    forall e | e in s'.log ensures Logged(s', e) {
      if e in s.log { assert Logged(s, e); }
    }
    FlightsKept(s, s');
  }

  // ---- delivery ----

  lemma ElapsedBound(attempt: nat)
    ensures attempt >= 5 ==> Elapsed(attempt) == 75_000 + 60_000 * (attempt - 5)
    ensures Elapsed(attempt) <= DELIVERY_RETRY_WINDOW <==> attempt <= MAX_ATTEMPTS
  {
    if attempt > 5 { ElapsedBound(attempt - 1); }
    assert Elapsed(1) == 0 && Elapsed(2) == 5_000 && Elapsed(3) == 15_000 && Elapsed(4) == 35_000 &&
      Elapsed(5) == 75_000;
  }

  ghost predicate InFlight(s: State, id: (Uuid, nat)) {
    || (exists e :: e in s.heap && Holds(e, id))
    || (exists t :: t in s.sent && s.sent[t].Id() == id)
  }

  /** A fire in hand at time t, its attempt not made yet. */
  ghost predicate InHand(s: State, f: Fire, t: int) {
    && FireOk(s, f) && !InFlight(s, f.Id())
    && f.deadline - DELIVERY_RETRY_WINDOW + Elapsed(f.attempt) <= t
    && (DropOneShot(f) ==> f.deadline <= t)
  }

  /** The entry that sends f again after a wait from t. */
  function RetryEntry(f: Fire, t: int): Entry {
    Entry(f.uuid, t + RetryDelay(f.attempt), Some(f.(attempt := f.attempt + 1)))
  }

  lemma RetryEntryOk(s: State, f: Fire, t: int)
    requires FireOk(s, f) && SentBelow(s.log, f, f.attempt + 1)
    requires f.deadline - DELIVERY_RETRY_WINDOW + Elapsed(f.attempt) <= t
    requires DropOneShot(f) ==> f.deadline <= t
    requires t + RetryDelay(f.attempt) <= f.deadline
    ensures RetryOk(s, RetryEntry(f, t)) && Holds(RetryEntry(f, t), f.Id())
  {
    var f' := f.(attempt := f.attempt + 1);
    ElapsedBound(f'.attempt);
    var i: nat :| CommitAt(s.log, i, f);
    assert CommitAt(s.log, i, f');
  }

  lemma AddRetryFlights(s: State, e: Entry)
    requires Flights(s) && RetryOk(s, e)
    ensures Flights(s.(heap := s.heap + multiset{e}))
  {
    var s' := s.(heap := s.heap + multiset{e});
    forall e' | e' in s'.heap ensures RetryOk(s', e') {
      if e'.retry.Some? { FireOkKept(s, s', e'.retry.value); }
    }
    forall t | t in s'.sent ensures t in s'.traces && SentOk(s', s'.sent[t]) {
      FireOkKept(s, s', s.sent[t]);
    }
  }

  lemma AddRetryLinear(s: State, e: Entry)
    requires Linear(s) && e.retry.Some? && !InFlight(s, e.retry.value.Id())
    ensures Linear(s.(heap := s.heap + multiset{e}))
  {
    var s' := s.(heap := s.heap + multiset{e});
    assert Holds(e, e.retry.value.Id());
    assert e !in s.heap;
    assert forall e' :: e' in s'.heap ==> e' in s.heap || e' == e;
  }

  lemma AddRetryInv(s: State, e: Entry)
    requires Inv(s) && s.up && e.retry.Some? && RetryOk(s, e) && !InFlight(s, e.retry.value.Id())
    ensures Inv(s.(heap := s.heap + multiset{e}))
  {
    AddRetryFlights(s, e);
    AddRetryLinear(s, e);
  }

  lemma RetryLaterInv(s: State, f: Fire, t: int)
    requires Inv(s) && s.up && s.clock <= t && InHand(s, f, t)
    requires SentBelow(s.log, f, f.attempt + 1)
    ensures Inv(RetryLater(s, f, t))
  {
    var s1 := Tick(s, t);
    TickInv(s, t);
    if t + RetryDelay(f.attempt) <= f.deadline {
      FireOkKept(s, s1, f);
      RetryEntryOk(s1, f, t);
      SameFlights(s, s1, f.Id());
      AddRetryInv(s1, RetryEntry(f, t));
    }
  }

  lemma SendInv(s: State, f: Fire, t: int, trace: TraceId)
    requires Inv(s) && s.up && s.clock <= t && InHand(s, f, t)
    requires f.uuid in s.rows && s.rows[f.uuid].status != Canceled
    requires SentBelow(s.log, f, f.attempt)
    ensures
      var s1 := AfterSend(s, f, t, trace);
      Inv(s1) && InHand(s1, f.(sentAt := t), t) && SentBelow(s1.log, f, f.attempt + 1)
  {
    var ev := Sent(f.uuid, f.Number(), f.attempt, t);
    var s1 := AfterSend(s, f, t, trace);
    assert GoodLog(s1.log) by { AppendSent(s, f, t); }
    assert LogAgrees(s1) by { SentLogged(s, s1, ev); }
    assert Flights(s1) && Linear(s1) && !InFlight(s1, f.Id()) by { SendFlights(s, s1, f, ev); }
    assert FireOk(s1, f) by { FireOkKept(s, s1, f); }
    StampedOk(s1, f, t);
    assert SentBelow(s1.log, f, f.attempt + 1);
  }

  lemma SentLogged(s: State, s1: State, ev: Event)
    requires LogAgrees(s) && s1.log == s.log + [ev] && s1.rows == s.rows && s1.ids == s.ids && ev.Sent?
    requires ev.uuid in s.ids && (ev.uuid in s.rows ==> ev.number <= s.rows[ev.uuid].fireCount)
    ensures LogAgrees(s1)
  {
    forall e | e in s1.log ensures Logged(s1, e) {
      if e in s.log { assert Logged(s, e); } else { assert e == ev; }
    }
  }

  lemma StampedOk(s: State, f: Fire, t: int)
    requires FireOk(s, f)
    ensures FireOk(s, f.(sentAt := t)) && f.(sentAt := t).Id() == f.Id()
  {
    var i: nat :| CommitAt(s.log, i, f);
    assert CommitAt(s.log, i, f.(sentAt := t));
  }

  lemma KeepSentFlights(s: State, trace: TraceId, f: Fire)
    requires Flights(s) && trace in s.traces && SentOk(s, f)
    ensures Flights(s.(sent := s.sent[trace := f]))
  {
    var s' := s.(sent := s.sent[trace := f]);
    forall e | e in s'.heap ensures RetryOk(s', e) {
      if e.retry.Some? { FireOkKept(s, s', e.retry.value); }
    }
    forall t | t in s'.sent ensures t in s'.traces && SentOk(s', s'.sent[t]) {
      FireOkKept(s, s', s'.sent[t]);
    }
  }

  lemma KeepSentInv(s: State, trace: TraceId, f: Fire)
    requires Inv(s) && s.up && trace in s.traces && trace !in s.sent
    requires SentOk(s, f) && !InFlight(s, f.Id())
    ensures Inv(s.(sent := s.sent[trace := f]))
  {
    KeepSentFlights(s, trace, f);
    KeepSentLinear(s, trace, f);
  }

  lemma KeepSentLinear(s: State, trace: TraceId, f: Fire)
    requires Linear(s) && trace !in s.sent && !InFlight(s, f.Id())
    ensures Linear(s.(sent := s.sent[trace := f]))
  {
  }

  lemma DeliverInv(s: State, f: Fire, io: Io)
    requires Inv(s) && s.up && s.clock <= io.t2 <= io.t3 && io.trace !in s.traces && InHand(s, f, io.t2)
    requires f.uuid in s.rows && s.rows[f.uuid].status != Canceled
    requires SentBelow(s.log, f, f.attempt)
    ensures Inv(Deliver(s, f, io))
  {
    var f' := f.(sentAt := io.t2);
    var s1 := AfterSend(s, f, io.t2, io.trace);
    SendInv(s, f, io.t2, io.trace);
    match io.link
    case TooLarge =>
    case LinkFailed => RetryLaterInv(s1, f', io.t3);
    case Taken =>
      assert io.trace !in s1.sent by { assert forall t :: t in s.sent ==> t in s.traces; }
      KeepSentInv(s1, io.trace, f');
  }

  /** A send of f leaves every other fire in flight as it was. */
  lemma SendFlights(s: State, s1: State, f: Fire, ev: Event)
    requires Flights(s) && Linear(s) && s.clock <= s1.clock && !InFlight(s, f.Id())
    requires ev.Sent? && ev.uuid == f.uuid && ev.number == f.Number()
    requires s1 == s.(clock := s1.clock, sent := s1.sent, traces := s1.traces, log := s.log + [ev])
    requires s.traces <= s1.traces
    requires forall t :: t in s1.sent ==> t in s.sent && s1.sent[t] == s.sent[t]
    ensures Flights(s1) && Linear(s1) && !InFlight(s1, f.Id())
  {
    forall e | e in s1.heap ensures RetryOk(s1, e) {
      if e.retry.Some? {
        assert RetryOk(s, e) && !Holds(e, f.Id());
        OtherFireKept(s, s1, e.retry.value, ev);
      }
    }
    forall t | t in s1.sent ensures t in s1.traces && SentOk(s1, s1.sent[t]) {
      assert SentOk(s, s.sent[t]) && s.sent[t].Id() != f.Id();
      OtherFireKept(s, s1, s.sent[t], ev);
    }
    LinearKept(s, s1);
  }

  /** A send of another fire changes nothing for this one. */
  lemma OtherFireKept(s: State, s1: State, g: Fire, ev: Event)
    requires FireOk(s, g) && s1.ids == s.ids && s1.rows == s.rows && s1.log == s.log + [ev]
    requires ev.Sent? && (ev.uuid, ev.number) != g.Id()
    ensures FireOk(s1, g) && forall bound :: SentBelow(s.log, g, bound) ==> SentBelow(s1.log, g, bound)
  {
    FireOkKept(s, s1, g);
    assert forall e :: e in s1.log ==> e in s.log || e == ev;
  }

  /** A refused fire leaves the sent table. */
  lemma TakenBack(s: State, trace: TraceId, t: int)
    requires Inv(s) && s.clock <= t && trace in s.sent
    ensures
      var s1 := s.(sent := s.sent - {trace});
      Inv(s1) && InHand(s1, s.sent[trace], t) && SentBelow(s1.log, s.sent[trace], s.sent[trace].attempt + 1)
  {
    var f := s.sent[trace];
    var s1 := s.(sent := s.sent - {trace});
    assert Flights(s1) by { FlightsKept(s, s1); }
    assert Linear(s1) by { LinearKept(s, s1); }
    assert SentOk(s, f);
    assert FireOk(s1, f) by { FireOkKept(s, s1, f); }
  }

  lemma UndeliveredInv(s: State, trace: TraceId, reason: string, t: int)
    requires Inv(s) && s.up && s.clock <= t
    ensures Inv(Undelivered(s, trace, reason, t))
  {
    if trace in s.sent {
      var f := s.sent[trace];
      var s1 := s.(sent := s.sent - {trace});
      TakenBack(s, trace, t);
      if Transient(reason) { RetryLaterInv(s1, f, t); } else { TickInv(s1, t); }
    } else {
      TickInv(s, t);
    }
  }

  // ---- popped entries ----

  lemma RemoveLinear(s: State, e: Entry)
    requires Linear(s) && e in s.heap
    ensures Linear(s.(heap := s.heap - multiset{e}))
    ensures e.retry.Some? ==> !InFlight(s.(heap := s.heap - multiset{e}), e.retry.value.Id())
  {
    var s1 := s.(heap := s.heap - multiset{e});
    assert forall e' :: e' in s1.heap ==> e' in s.heap && s1.heap[e'] <= s.heap[e'];
    if e.retry.Some? {
      assert Holds(e, e.retry.value.Id());
      forall e' | e' in s1.heap ensures !Holds(e', e.retry.value.Id()) {
        assert e' != e;
      }
    }
  }

  lemma RemoveEntryInv(s: State, e: Entry)
    requires Inv(s) && e in s.heap
    ensures Inv(s.(heap := s.heap - multiset{e}))
  {
    FlightsKept(s, s.(heap := s.heap - multiset{e}));
    RemoveLinear(s, e);
  }

  lemma SameMemoryInv(s: State, failedAt: map<Uuid, int>, up: bool)
    requires Inv(s) && (s.up ==> up)
    ensures Inv(s.(failedAt := failedAt, up := up))
  {
    FlightsKept(s, s.(failedAt := failedAt, up := up));
  }

  lemma SaveFailedInv(s: State, u: Uuid, t: int)
    requires Inv(s) && s.up
    ensures Inv(SaveFailedRetry(s, u, t))
  {
    PushInv(s, u, t + STORAGE_RETRY_DELAY);
    SameMemoryInv(Push(s, u, t + STORAGE_RETRY_DELAY), s.failedAt[u := t], true);
  }

  lemma FirePoppedInv(env: Env, s: State, u: Uuid, now: int, io: Io)
    requires Inv(s) && s.up && s.clock <= io.t1 <= io.t2 <= io.t3 && now <= io.t1 && io.trace !in s.traces
    ensures Inv(FirePopped(env, s, u, now, io))
  {
    if u in s.rows && io.readOk && s.rows[u].status == Pending {
      var row := s.rows[u];
      TickInv(s, io.t1);
      if row.fireAt > now {
        PushInv(s, u, row.fireAt);
      } else {
        var next := NextInstance(env, row, io.t1);
        if row.kind == Recurring && next.None? {
        } else if !io.saveOk {
          SaveFailedInv(Tick(s, io.t1), u, io.t1);
        } else {
          FireSavedInv(Tick(s, io.t1), u, next, io);
        }
      }
    }
  }

  lemma CommittedInv(s: State, u: Uuid, next: Option<int>, t: int)
    requires Inv(s) && s.up && u in s.rows && s.rows[u].status == Pending
    requires s.rows[u].kind == Recurring <==> next.Some?
    ensures Inv(Committed(s, u, next, t))
  {
    var saved := FiredRow(s.rows[u], t, next);
    assert RowOk(s.rows[u]);
    SaveInv(s, u, saved);
    PushInv(Save(s, u, saved), u, saved.fireAt);
  }

  /** No row of the timer was ever saved with the fire count that is committed now. */
  lemma FirstCommit(s: State, s': State, u: Uuid, saved: Row, f: Fire)
    requires LogAgrees(s) && u in s.rows && f.uuid == u && f.row == s.rows[u] && saved.fireCount == f.Number()
    requires s'.log == s.log + [Saved(u, saved)] && CommitOf(saved, f)
    ensures CommitAt(s'.log, |s.log|, f)
  {
    forall j: nat | j < |s.log| ensures !SavesFire(s'.log[j], u, f.Number()) {
      assert s'.log[j] == s.log[j] && Logged(s, s.log[j]);
    }
  }

  lemma CommitOfFired(row: Row, u: Uuid, next: Option<int>, t: int)
    requires row.kind == Recurring <==> next.Some?
    ensures CommitOf(FiredRow(row, t, next), Fire(u, row, 1, FireDeadline(row, t, next), 0))
  {
  }

  lemma CommittedFireOk(s: State, u: Uuid, next: Option<int>, t: int, f: Fire)
    requires LogAgrees(s) && Rows(s) && u in s.rows && (s.rows[u].kind == Recurring <==> next.Some?)
    requires f == Fire(u, s.rows[u], 1, FireDeadline(s.rows[u], t, next), 0)
    ensures FireOk(Committed(s, u, next, t), f)
  {
    CommitOfFired(s.rows[u], u, next, t);
    FirstCommit(s, Committed(s, u, next, t), u, FiredRow(s.rows[u], t, next), f);
  }

  /** The fire just committed is new: never sent, nowhere in flight. */
  lemma CommittedInHand(s: State, u: Uuid, next: Option<int>, t: int, f: Fire)
    requires Inv(s) && u in s.rows && s.rows[u].status == Pending
    requires s.rows[u].kind == Recurring <==> next.Some?
    requires f == Fire(u, s.rows[u], 1, FireDeadline(s.rows[u], t, next), 0)
    ensures InHand(Committed(s, u, next, t), f, t)
    ensures SentBelow(Committed(s, u, next, t).log, f, 1)
  {
    CommittedFireOk(s, u, next, t, f);
    NeverSentYet(s, Committed(s, u, next, t), u, FiredRow(s.rows[u], t, next), f);
    CommittedNotInFlight(s, u, next, t);
  }

  lemma CommittedNotInFlight(s: State, u: Uuid, next: Option<int>, t: int)
    requires Flights(s) && u in s.rows
    ensures !InFlight(Committed(s, u, next, t), (u, s.rows[u].fireCount + 1))
  {
    NewNumber(s, u);
    SameFlights(s, Committed(s, u, next, t), (u, s.rows[u].fireCount + 1));
  }

  lemma NeverSentYet(s: State, s': State, u: Uuid, saved: Row, f: Fire)
    requires LogAgrees(s) && u in s.rows && f.uuid == u && f.row == s.rows[u] && s'.log == s.log + [Saved(u, saved)]
    ensures SentBelow(s'.log, f, 1)
  {
    forall e | e in s'.log && e.Sent? && e.uuid == u ensures e.number < f.Number() {
      assert e in s.log && Logged(s, e);
    }
  }

  lemma FireSavedInv(s: State, u: Uuid, next: Option<int>, io: Io)
    requires Inv(s) && s.up && s.clock == io.t1 <= io.t2 <= io.t3 && io.trace !in s.traces
    requires u in s.rows && s.rows[u].status == Pending
    requires s.rows[u].kind == Recurring <==> next.Some?
    ensures
      var f := Fire(u, s.rows[u], 1, FireDeadline(s.rows[u], io.t1, next), 0);
      Inv(Deliver(Committed(s, u, next, io.t1), f, io))
  {
    var f := Fire(u, s.rows[u], 1, FireDeadline(s.rows[u], io.t1, next), 0);
    CommittedInv(s, u, next, io.t1);
    CommittedInHand(s, u, next, io.t1, f);
    DeliverInv(Committed(s, u, next, io.t1), f, io);
  }

  /** No fire above the saved fire count is in flight. */
  lemma NewNumber(s: State, u: Uuid)
    requires Flights(s) && u in s.rows
    ensures !InFlight(s, (u, s.rows[u].fireCount + 1))
  {
    forall e | e in s.heap ensures !Holds(e, (u, s.rows[u].fireCount + 1)) { assert RetryOk(s, e); }
    forall t | t in s.sent ensures s.sent[t].Id() != (u, s.rows[u].fireCount + 1) { assert SentOk(s, s.sent[t]); }
  }

  lemma SameFlights(s: State, s': State, id: (Uuid, nat))
    requires !InFlight(s, id) && s'.sent == s.sent
    requires forall e :: e in s'.heap && e.retry.Some? ==> e in s.heap
    ensures !InFlight(s', id)
  {
  }

  lemma PopInv(env: Env, s: State, e: Entry, now: int, io: Io)
    requires Inv(s) && Enabled(s, Pop(e, now, io))
    ensures Inv(PopStep(env, s, e, now, io))
  {
    var s1 := s.(heap := s.heap - multiset{e});
    RemoveEntryInv(s, e);
    RemoveLinear(s, e);
    if e.retry.Some? {
      var f := e.retry.value;
      assert RetryOk(s, e);
      FireOkKept(s, s1, f);
      assert InHand(s1, f, io.t2) && InHand(s1, f, io.t3);
      if !io.readOk {
        RetryLaterInv(s1, f, io.t3);
      } else if f.uuid in s1.rows && s1.rows[f.uuid].status != Canceled {
        DeliverInv(s1, f, io);
      }
    } else {
      FirePoppedInv(env, s1, e.uuid, now, io);
    }
  }

  // ---- restart ----

  lemma ReplayInv(env: Env, s: State, order: seq<Uuid>, now: int, saves: seq<bool>)
    requires |saves| == |order| && (forall u :: u in order ==> u in s.rows && s.rows[u].status == Pending)
    requires forall i, j :: 0 <= i < j < |order| ==> order[i] != order[j]
    requires Inv(s) && s.up
    ensures Inv(ReplayRows(env, s, order, now, saves).state) && ReplayRows(env, s, order, now, saves).state.up
    decreases |order|
  {
    if order != [] {
      var r := ReplayRow(env, s, order[0], now, saves[0]);
      ReplayRowInv(env, s, order[0], now, saves[0]);
      ReplayRowFrame(env, s, order[0], now, saves[0]);
      if r.Loaded? { ReplayInv(env, r.state, order[1..], now, saves[1..]); }
    }
  }

  lemma ReplayRowFrame(env: Env, s: State, u: Uuid, now: int, saveOk: bool)
    requires u in s.rows
    ensures
      var s' := ReplayRow(env, s, u, now, saveOk).state;
      s'.up == s.up && s'.rows.Keys == s.rows.Keys && forall v :: v in s.rows && v != u ==> s'.rows[v] == s.rows[v]
  {
  }

  /** A pending row saved with another time, and queued for it. */
  lemma MovedInv(s: State, u: Uuid, at: int)
    requires Inv(s) && s.up && u in s.rows && s.rows[u].status == Pending
    ensures Inv(Push(Save(s, u, s.rows[u].(fireAt := at)), u, at))
  {
    var moved := s.rows[u].(fireAt := at);
    assert RowOk(s.rows[u]);
    SaveInv(s, u, moved);
    PushInv(Save(s, u, moved), u, at);
  }

  lemma ReplayRowInv(env: Env, s: State, u: Uuid, now: int, saveOk: bool)
    requires Inv(s) && s.up && u in s.rows && s.rows[u].status == Pending
    ensures Inv(ReplayRow(env, s, u, now, saveOk).state)
  {
    var row := s.rows[u];
    assert RowOk(row);
    if row.kind == Recurring {
      var next := env.cron(row.cron, now);
      if next.Some? && saveOk { MovedInv(s, u, next.value); }
    } else if row.fireAt > now || MissedStillFires(row, now) {
      PushInv(s, u, row.fireAt);
    } else if saveOk {
      SaveInv(s, u, row.(status := Canceled));
    }
  }

  lemma CrashCommittedInv(env: Env, s: State, u: Uuid, t: int)
    requires Inv(s) && s.up && s.clock <= t && u in s.rows && s.rows[u].status == Pending
    ensures Inv(CrashCommitted(env, s, u, t))
  {
    var next := NextInstance(env, s.rows[u], t);
    TickInv(s, t);
    if s.rows[u].kind == Recurring && next.None? {
      CrashInv(Tick(s, t));
    } else {
      CommittedInv(Tick(s, t), u, next, t);
      CrashInv(Committed(Tick(s, t), u, next, t));
    }
  }

  lemma CrashInv(s: State)
    requires Inv(s)
    ensures Inv(Crash(s))
  {
    var s' := Crash(s);
    assert Flights(s') && Linear(s');
  }

  lemma RestartInv(env: Env, s: State, gcOk: bool, t: int, order: seq<Uuid>, saves: seq<bool>)
    requires Inv(s) && Enabled(s, Start(gcOk, t, order, saves))
    ensures Inv(Restart(env, s, gcOk, t, order, saves))
  {
    if gcOk { DeleteInv(s, Historical(s.rows, t - HISTORY_RETENTION)); }
    var s1 := Tick(Collect(s, gcOk, t), t);
    TickInv(Collect(s, gcOk, t), t);
    var s2 := s1.(up := true);
    SameMemoryInv(s1, s1.failedAt, true);
    forall u | u in order ensures u in s2.rows && s2.rows[u].status == Pending {
      assert u in AllPending(s2.rows);
    }
    ReplayInv(env, s2, order, t, saves);
    CrashInv(ReplayRows(env, s2, order, t, saves).state);
  }

  // ---- every step, every run ----

  lemma StepInv(env: Env, s: State, a: Action)
    requires Inv(s) && Enabled(s, a)
    ensures Inv(Step(env, s, a))
  {
    match a
    case Pop(e, now, io) => PopInv(env, s, e, now, io);
    case Unreachable(trace, reason, t) => UndeliveredInv(s, trace, reason, t);
    case CrashNow => CrashInv(s);
    case CrashInFire(e, _, t) => CrashCommittedInv(env, s, e.uuid, t);
    case Start(gcOk, t, order, saves) => RestartInv(env, s, gcOk, t, order, saves);
    case _ => RequestInv(env, s, a);
  }

  predicate IsRequest(a: Action) {
    a.Schedule? || a.ScheduleRecurring? || a.CancelTimer? || a.RescheduleTimer? || a.PurgeOwner?
  }

  lemma RequestInv(env: Env, s: State, a: Action)
    requires Inv(s) && Enabled(s, a) && IsRequest(a)
    ensures Inv(Step(env, s, a))
  {
    match a
    case Schedule(req, at, delay, u, t, saveOk) =>
      TickInv(s, t);
      var time := OneShotFireAt(at, delay, t);
      if time.At? { InsertInv(Tick(s, t), u, NewRow(req, OneShot, "", time.at, t), saveOk); }
    case ScheduleRecurring(req, cron, u, t, saveOk) =>
      TickInv(s, t);
      var next := env.cron(cron, t);
      if next.Some? { InsertInv(Tick(s, t), u, NewRow(req, Recurring, cron, next.value, t), saveOk); }
    case CancelTimer(requester, u, t, saveOk) =>
      TickInv(s, t);
      if Cancel(Tick(s, t), requester, u, saveOk) != Tick(s, t) {
        assert RowOk(s.rows[u]);
        SaveInv(Tick(s, t), u, s.rows[u].(status := Canceled));
      }
    case RescheduleTimer(requester, u, at, delay, t, saveOk) =>
      TickInv(s, t);
      var time := OneShotFireAt(at, delay, t);
      if Reschedule(Tick(s, t), requester, u, time, saveOk) != Tick(s, t) {
        MovedInv(Tick(s, t), u, time.at);
      }
    case PurgeOwner(owner, t, saveOk) =>
      TickInv(s, t);
      if saveOk { DeleteInv(Tick(s, t), OwnedBy(s.rows, owner)); }
  }

  lemma {:induction false} RunInv(env: Env, s: State, acts: seq<Action>)
    requires Inv(s) && Legal(env, s, acts)
    ensures Inv(Run(env, s, acts))
    decreases |acts|
  {
    if acts != [] {
      StepInv(env, s, acts[0]);
      RunInv(env, Step(env, s, acts[0]), acts[1..]);
    }
  }

  lemma FreshInv()
    ensures Inv(Fresh)
  {
  }
}
