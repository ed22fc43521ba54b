/**
 Callers that wait for an RPC answer against the one dispatch goroutine, interleaved at every lock
 section and channel operation: register, look up, remove, deliver, fail all, time out.
 */
module DispatcherWaiters {
  import opened Basics
  import opened DispatcherStale

  datatype Message = Message(trace: string, msgType: string, name: string)

  /** One call of SendWithMatcher; its identity is that of its pending entry and its one-slot channel. */
  type WaiterId = nat
  datatype Waiter = Waiter(trace: string, matcher: Matcher)

  datatype Result = Answer(msg: Message) | TerminalTransport(msg: Message) | BadResponse(msg: Message) | Disconnected

  /** Where the dispatch goroutine is. */
  datatype Hand =
    | Idle
    | Found(w: WaiterId, result: Result)      // looked up and classified, not removed yet
    | Removed(w: WaiterId, result: Result)    // removed, about to write its channel
    | Draining(rest: set<WaiterId>)           // failAllPending, after the swap

  datatype State = State(
    waiters: map<WaiterId, Waiter>,           // every waiter ever registered
    pending: map<string, WaiterId>,
    channel: map<WaiterId, seq<Result>>,      // what is in its channel
    sent: map<WaiterId, seq<Result>>,         // every result ever written to it
    left: set<WaiterId>,                      // callers that removed their entry themselves
    hand: Hand)

  const Init := State(map[], map[], map[], map[], {}, Idle)

  datatype Action =
    | Register(w: WaiterId, waiter: Waiter)
    | Leave(w: WaiterId)                      // send failed, timeout, context or shutdown: removePending
    | Receive(w: WaiterId)
    | Lookup(msg: Message)
    | Remove
    | Deliver
    | FailAll
    | DrainOne(w: WaiterId)

  function ResultOf(m: Matcher, msg: Message): Result
    requires Classify(m, msg.msgType, msg.name) != Unrelated
  {
    match Classify(m, msg.msgType, msg.name)
    case Success => Answer(msg)
    case TerminalError => TerminalTransport(msg)
    case InvalidResponse => BadResponse(msg)
  }

  ghost predicate KnownWaiters(s: State) {
    && s.channel.Keys == s.waiters.Keys && s.sent.Keys == s.waiters.Keys && s.left <= s.waiters.Keys
    && (forall t :: t in s.pending ==> s.pending[t] in s.waiters && s.waiters[s.pending[t]].trace == t)
    && (s.hand.Found? || s.hand.Removed? ==> s.hand.w in s.waiters)
    && (s.hand.Draining? ==> s.hand.rest <= s.waiters.Keys)
  }

  /** The channel of w has room. */
  predicate Room(s: State, w: WaiterId) { w in s.channel && |s.channel[w]| < 1 }

  ghost predicate Enabled(s: State, a: Action) {
    KnownWaiters(s) &&
    match a
    case Register(w, waiter) => w !in s.waiters && waiter.trace != "" && waiter.trace !in s.pending
    case Leave(w) => w in s.waiters && w !in s.left
    case Receive(w) => w in s.channel && s.channel[w] != []
    case Lookup(msg) => s.hand == Idle && msg.trace in s.pending &&
                        Classify(s.waiters[s.pending[msg.trace]].matcher, msg.msgType, msg.name) != Unrelated
    case Remove => s.hand.Found?
    case Deliver => s.hand.Removed? && Room(s, s.hand.w)
    case FailAll => s.hand == Idle
    case DrainOne(w) => s.hand.Draining? && w in s.hand.rest && Room(s, w)
  }

  /** A result written to a waiter's channel. */
  function Write(s: State, w: WaiterId, r: Result): State
    requires w in s.channel && w in s.sent
  {
    s.(channel := s.channel[w := s.channel[w] + [r]], sent := s.sent[w := s.sent[w] + [r]])
  }

  function Step(s: State, a: Action): State
    requires Enabled(s, a)
  {
    match a
    case Register(w, waiter) =>
      s.(waiters := s.waiters[w := waiter], pending := s.pending[waiter.trace := w],
         channel := s.channel[w := []], sent := s.sent[w := []])
    case Leave(w) => s.(pending := s.pending - {s.waiters[w].trace}, left := s.left + {w})
    case Receive(w) => s.(channel := s.channel[w := s.channel[w][1..]])
    case Lookup(msg) =>
      var w := s.pending[msg.trace];
      s.(hand := Found(w, ResultOf(s.waiters[w].matcher, msg)))
    case Remove => s.(pending := s.pending - {s.waiters[s.hand.w].trace}, hand := Removed(s.hand.w, s.hand.result))
    case Deliver => Write(s, s.hand.w, s.hand.result).(hand := Idle)
    case FailAll =>
      var all := set t | t in s.pending :: s.pending[t];
      s.(pending := map[], hand := if all == {} then Idle else Draining(all))
    case DrainOne(w) =>
      var rest := s.hand.rest - {w};
      Write(s, w, Disconnected).(hand := if rest == {} then Idle else Draining(rest))
  }

  // ---- at most one result each, and the dispatch loop never blocks ----

  /** w is in the dispatch goroutine's hands and still to be written. */
  predicate Held(s: State, w: WaiterId) {
    match s.hand
    case Idle => false
    case Found(v, _) => v == w
    case Removed(v, _) => v == w
    case Draining(rest) => w in rest
  }

  ghost predicate IsPending(s: State, w: WaiterId) { exists t :: t in s.pending && s.pending[t] == w }

  ghost predicate OneResult(s: State) {
    && KnownWaiters(s)
    && (forall w :: w in s.waiters ==> |s.sent[w]| <= 1 && |s.channel[w]| <= |s.sent[w]|)
    && (forall t :: t in s.pending ==> s.sent[s.pending[t]] == [])
    && (forall w :: w in s.waiters && Held(s, w) ==> s.sent[w] == [])
    && (s.hand.Removed? || s.hand.Draining? ==> forall t :: t in s.pending ==> !Held(s, s.pending[t]))
  }

  lemma WriteOneResult(s: State, w: WaiterId, r: Result, rest: set<WaiterId>)
    requires OneResult(s) && w in s.waiters && Held(s, w) && (s.hand.Removed? || s.hand.Draining?)
    requires w !in rest && (rest != {} ==> s.hand.Draining? && rest <= s.hand.rest)
    ensures OneResult(Write(s, w, r).(hand := if rest == {} then Idle else Draining(rest)))
  {
    var s' := Write(s, w, r).(hand := if rest == {} then Idle else Draining(rest));
    forall t | t in s'.pending ensures s'.sent[s'.pending[t]] == [] { assert !Held(s, s.pending[t]); }
    forall v | v in s'.waiters && Held(s', v) ensures s'.sent[v] == [] { assert Held(s, v); }
    if s'.hand.Draining? {
      forall t | t in s'.pending ensures !Held(s', s'.pending[t]) { assert !Held(s, s.pending[t]); }
    }
  }

  lemma RegisterOneResult(s: State, w: WaiterId, waiter: Waiter)
    requires OneResult(s) && Enabled(s, Register(w, waiter))
    ensures OneResult(Step(s, Register(w, waiter)))
  {
    var s' := Step(s, Register(w, waiter));
    assert s'.hand == s.hand && !Held(s, w);
    forall v | v in s'.waiters && Held(s', v) ensures s'.sent[v] == [] { assert Held(s, v); }
    forall t | t in s'.pending ensures s'.sent[s'.pending[t]] == [] {
      if t != waiter.trace { assert s'.pending[t] == s.pending[t]; }
    }
    if s'.hand.Removed? || s'.hand.Draining? {
      forall t | t in s'.pending ensures !Held(s', s'.pending[t]) {
        if t != waiter.trace { assert !Held(s, s.pending[t]); }
      }
    }
  }

  lemma LeaveOneResult(s: State, w: WaiterId)
    requires OneResult(s) && Enabled(s, Leave(w))
    ensures OneResult(Step(s, Leave(w)))
  {
    var s' := Step(s, Leave(w));
    assert s'.hand == s.hand;
    forall v | v in s'.waiters && Held(s', v) ensures s'.sent[v] == [] { assert Held(s, v); }
    if s'.hand.Removed? || s'.hand.Draining? {
      forall t | t in s'.pending ensures !Held(s', s'.pending[t]) { assert !Held(s, s.pending[t]); }
    }
  }

  lemma ReceiveOneResult(s: State, w: WaiterId)
    requires OneResult(s) && Enabled(s, Receive(w))
    ensures OneResult(Step(s, Receive(w)))
  {
    var s' := Step(s, Receive(w));
    assert s'.hand == s.hand && s'.pending == s.pending && s'.sent == s.sent;
    forall v | v in s'.waiters && Held(s', v) ensures s'.sent[v] == [] { assert Held(s, v); }
    if s'.hand.Removed? || s'.hand.Draining? {
      forall t | t in s'.pending ensures !Held(s', s'.pending[t]) { assert !Held(s, s.pending[t]); }
    }
  }

  lemma StepOneResult(s: State, a: Action)
    requires OneResult(s) && Enabled(s, a)
    ensures OneResult(Step(s, a))
  {
    match a
    case DrainOne(w) => WriteOneResult(s, w, Disconnected, s.hand.rest - {w});
    case Deliver => WriteOneResult(s, s.hand.w, s.hand.result, {});
    case Remove =>
      var s' := Step(s, a);
      forall t | t in s'.pending ensures !Held(s', s'.pending[t]) { assert s.waiters[s.pending[t]].trace == t; }
      assert forall v :: Held(s', v) ==> Held(s, v);
    case Lookup(msg) =>
    case FailAll =>
    case Register(w, waiter) => RegisterOneResult(s, w, waiter);
    case Leave(w) => LeaveOneResult(s, w);
    case Receive(w) => ReceiveOneResult(s, w);
  }

  /** Whenever the dispatch goroutine is about to write a channel, the channel has room. */
  lemma NeverBlocks(s: State)
    requires OneResult(s)
    ensures s.hand.Removed? ==> Enabled(s, Deliver)
    ensures s.hand.Draining? ==> forall w :: w in s.hand.rest ==> Enabled(s, DrainOne(w))
  {
    if s.hand.Removed? { assert Held(s, s.hand.w); }
    if s.hand.Draining? {
      forall w | w in s.hand.rest ensures Room(s, w) { assert Held(s, w); }
    }
  }

  ghost predicate Legal(s: State, acts: seq<Action>)
    decreases |acts|
  {
    acts == [] || (Enabled(s, acts[0]) && Legal(Step(s, acts[0]), acts[1..]))
  }

  ghost function Run(s: State, acts: seq<Action>): State
    requires Legal(s, acts)
    decreases |acts|
  {
    if acts == [] then s else Run(Step(s, acts[0]), acts[1..])
  }

  lemma {:induction false} RunOneResult(s: State, acts: seq<Action>)
    requires OneResult(s) && Legal(s, acts)
    ensures OneResult(Run(s, acts))
    decreases |acts|
  {
    if acts != [] {
      StepOneResult(s, acts[0]);
      RunOneResult(Step(s, acts[0]), acts[1..]);
    }
  }

  /** Under every interleaving each waiter gets at most one result, one still pending has had none, and
      the dispatch goroutine finds room in every channel it writes. */
  lemma EveryInterleaving(acts: seq<Action>)
    requires Legal(Init, acts)
    ensures
      var s := Run(Init, acts);
      && (forall w :: w in s.sent ==> |s.sent[w]| <= 1)
      && (forall w :: w in s.sent && IsPending(s, w) ==> s.sent[w] == [])
      && (s.hand.Removed? ==> Enabled(s, Deliver))
      && (s.hand.Draining? ==> forall w :: w in s.hand.rest ==> Enabled(s, DrainOne(w)))
  {
    RunOneResult(Init, acts);
    NeverBlocks(Run(Init, acts));
  }

  /** A channel holds what was written to it, or nothing any more. */
  ghost predicate ChannelsHold(s: State) {
    OneResult(s) && forall w :: w in s.waiters ==> s.channel[w] == [] || s.channel[w] == s.sent[w]
  }

  lemma StepChannels(s: State, a: Action)
    requires ChannelsHold(s) && Enabled(s, a)
    ensures ChannelsHold(Step(s, a))
  {
    StepOneResult(s, a);
    if a.Deliver? { assert Held(s, s.hand.w); }
    if a.DrainOne? { assert Held(s, a.w); }
  }

  /** Under every interleaving a caller takes the one result that was written to it, and takes it once. */
  lemma {:induction false} TakenOnce(s: State, acts: seq<Action>, w: WaiterId)
    requires ChannelsHold(s) && Legal(s, acts)
    ensures ChannelsHold(Run(s, acts))
    ensures
      var s' := Run(s, acts);
      Enabled(s', Receive(w)) ==>
        && |s'.sent[w]| == 1 && s'.channel[w] == s'.sent[w]
        && Step(s', Receive(w)).sent == s'.sent && !Enabled(Step(s', Receive(w)), Receive(w))
    decreases |acts|
  {
    if acts != [] {
      StepChannels(s, acts[0]);
      TakenOnce(Step(s, acts[0]), acts[1..], w);
    }
  }

  // ---- a result is the waiter's own ----

  /** A message of the waiter's own trace_id, handed on as the first of the matcher's lists says that takes it. */
  ghost predicate OwnResult(w: Waiter, r: Result) {
    var rules := w.matcher;
    match r
    case Answer(m) => m.trace == w.trace && TakenBy(rules.success, m.msgType, m.name)
    case TerminalTransport(m) =>
      && m.trace == w.trace && TakenBy(rules.terminal, m.msgType, m.name) && !TakenBy(rules.success, m.msgType, m.name)
    case BadResponse(m) =>
      && m.trace == w.trace && TakenBy(rules.invalid, m.msgType, m.name)
      && !TakenBy(rules.success, m.msgType, m.name) && !TakenBy(rules.terminal, m.msgType, m.name)
    case Disconnected => true
  }

  lemma ResultIsOwn(w: Waiter, m: Message)
    requires m.trace == w.trace && Classify(w.matcher, m.msgType, m.name) != Unrelated
    ensures
      var r := ResultOf(w.matcher, m);
      OwnResult(w, r) && !r.Disconnected? && r.msg == m
  {
    ClassifyMeans(w.matcher, m.msgType, m.name);
  }

  ghost predicate OwnResults(s: State) {
    && KnownWaiters(s)
    && (forall w, i :: w in s.waiters && 0 <= i < |s.sent[w]| ==> OwnResult(s.waiters[w], s.sent[w][i]))
    && (s.hand.Found? || s.hand.Removed? ==> OwnResult(s.waiters[s.hand.w], s.hand.result))
  }

  lemma {:induction false} OnlyOwnResults(s: State, acts: seq<Action>)
    requires OwnResults(s) && Legal(s, acts)
    ensures OwnResults(Run(s, acts))
    decreases |acts|
  {
    if acts != [] {
      StepKnown(s, acts[0]);
      OnlyOwnResults(Step(s, acts[0]), acts[1..]);
    }
  }

  lemma StepKnown(s: State, a: Action)
    requires OwnResults(s) && Enabled(s, a)
    ensures OwnResults(Step(s, a))
  {
    match a
    case Deliver => WriteOwn(s, s.hand.w, s.hand.result, Idle);
    case DrainOne(w) => WriteOwn(s, w, Disconnected, Step(s, a).hand);
    case Lookup(msg) => ResultIsOwn(s.waiters[s.pending[msg.trace]], msg);
    case _ =>
  }

  /** A waiter is told of a failure of all only after one. */
  ghost predicate NoneFailed(s: State) {
    && OwnResults(s) && !s.hand.Draining?
    && (s.hand.Found? || s.hand.Removed? ==> !s.hand.result.Disconnected?)
    && forall w, i :: w in s.sent && 0 <= i < |s.sent[w]| ==> !s.sent[w][i].Disconnected?
  }

  lemma StepNoneFailed(s: State, a: Action)
    requires NoneFailed(s) && Enabled(s, a) && !a.FailAll?
    ensures NoneFailed(Step(s, a))
  {
    StepKnown(s, a);
    if a.Lookup? { ResultIsOwn(s.waiters[s.pending[a.msg.trace]], a.msg); }
  }

  /** Without a failure of all, every result any waiter gets is a message. */
  lemma {:induction false} FailuresOnlyAfterFailAll(s: State, acts: seq<Action>)
    requires NoneFailed(s) && Legal(s, acts) && forall i :: 0 <= i < |acts| ==> !acts[i].FailAll?
    ensures NoneFailed(Run(s, acts))
    decreases |acts|
  {
    if acts != [] {
      StepNoneFailed(s, acts[0]);
      FailuresOnlyAfterFailAll(Step(s, acts[0]), acts[1..]);
    }
  }

  lemma WriteOwn(s: State, w: WaiterId, r: Result, hand: Hand)
    requires OwnResults(s) && w in s.waiters && OwnResult(s.waiters[w], r)
    requires hand == Idle || (hand.Draining? && hand.rest <= s.waiters.Keys)
    ensures OwnResults(Write(s, w, r).(hand := hand))
  {
  }

  // ---- no waiter is dropped in silence, if trace_ids are not reused ----

  /** Every registered waiter is still pending, in the dispatch goroutine's hands, answered, or gone by itself. */
  ghost predicate Accounted(s: State, w: WaiterId) {
    IsPending(s, w) || Held(s, w) || (w in s.sent && s.sent[w] != []) || w in s.left
  }

  ghost predicate AllAccounted(s: State) {
    KnownWaiters(s) && forall w :: w in s.waiters ==> Accounted(s, w)
  }

  /** removePending goes by trace_id, whoever calls it: the entry it takes out must be the caller's own, or of a waiter
      that left or that the dispatch goroutine holds. Every other step is free. */
  predicate DropsNobody(s: State, a: Action) {
    match a
    case Remove => s.hand.Found? && s.hand.w in s.waiters ==> MayTake(s, s.hand.w)
    case Leave(w) => w in s.waiters ==> MayTake(s, w)
    case _ => true
  }

  predicate MayTake(s: State, own: WaiterId)
    requires own in s.waiters
  {
    var t := s.waiters[own].trace;
    t in s.pending ==> s.pending[t] == own || s.pending[t] in s.left || Held(s, s.pending[t])
  }

  /** One entry leaves the pending map: nobody is dropped exactly when its waiter left or is held. */
  lemma EntryTaken(s: State, s': State, t: string)
    requires OneResult(s) && AllAccounted(s) && KnownWaiters(s') && s'.waiters == s.waiters && s'.sent == s.sent
    requires s'.pending == s.pending - {t} && s.left <= s'.left && forall w :: Held(s, w) <==> Held(s', w)
    requires forall w :: w in s'.left && w !in s.left ==> s.waiters[w].trace == t
    ensures AllAccounted(s') <==> (t in s.pending ==> s.pending[t] in s'.left || Held(s', s.pending[t]))
  {
    forall w | w in s.waiters && (t in s.pending ==> s.pending[t] != w) ensures Accounted(s', w) {
      assert Accounted(s, w);
      if IsPending(s, w) {
        var x :| x in s.pending && s.pending[x] == w;
        assert x in s'.pending && s'.pending[x] == w;
      }
    }
    if t in s.pending {
      var w := s.pending[t];
      assert !IsPending(s', w) by {
        forall x | x in s'.pending ensures s'.pending[x] != w { assert s.waiters[s.pending[x]].trace == x; }
      }
    }
  }

  /** The dispatch goroutine's removal drops nobody exactly when it may take the entry it finds. */
  lemma RemoveDropsNobodyIff(s: State)
    requires OneResult(s) && AllAccounted(s) && s.hand.Found?
    ensures AllAccounted(Step(s, Remove)) <==> DropsNobody(s, Remove)
  {
    EntryTaken(s, Step(s, Remove), s.waiters[s.hand.w].trace);
  }

  /** So does a caller's own, after a failed send, a timeout, a canceled context or a shutdown. */
  lemma LeaveDropsNobodyIff(s: State, w: WaiterId)
    requires OneResult(s) && AllAccounted(s) && Enabled(s, Leave(w))
    ensures AllAccounted(Step(s, Leave(w))) <==> DropsNobody(s, Leave(w))
  {
    EntryTaken(s, Step(s, Leave(w)), s.waiters[w].trace);
  }

  /** One step before a run. */
  lemma RunCons(s: State, a: Action, acts: seq<Action>)
    requires Enabled(s, a) && Legal(Step(s, a), acts)
    ensures Legal(s, [a] + acts) && Run(s, [a] + acts) == Run(Step(s, a), acts)
  {
    assert ([a] + acts)[1..] == acts;
  }

  lemma TwoSteps(s: State, a: Action, b: Action)
    requires Enabled(s, a) && Enabled(Step(s, a), b)
    ensures Legal(s, [a, b]) && Run(s, [a, b]) == Step(Step(s, a), b)
  {
    RunCons(Step(s, a), b, []);
    RunCons(s, a, [b]);
    assert [b] + [] == [b] && [a] + [b] == [a, b];
  }

  /** One waiter, whose answer was looked up. */
  function OneFound(waiter: Waiter, msg: Message): State
    requires Classify(waiter.matcher, msg.msgType, msg.name) != Unrelated
  {
    State(map[0 := waiter], map[waiter.trace := 0], map[0 := []], map[0 := []], {},
      Found(0, ResultOf(waiter.matcher, msg)))
  }

  /** Any run from there, with its first two steps. */
  lemma AfterFound(waiter: Waiter, msg: Message, acts: seq<Action>)
    requires waiter.trace == msg.trace != "" && Classify(waiter.matcher, msg.msgType, msg.name) != Unrelated
    requires Legal(OneFound(waiter, msg), acts)
    ensures
      var all := [Register(0, waiter), Lookup(msg)] + acts;
      Legal(Init, all) && Run(Init, all) == Run(OneFound(waiter, msg), acts)
  {
    var s1 := Step(Init, Register(0, waiter));
    assert s1 == OneFound(waiter, msg).(hand := Idle);
    RunCons(s1, Lookup(msg), acts);
    RunCons(Init, Register(0, waiter), [Lookup(msg)] + acts);
    assert [Register(0, waiter)] + ([Lookup(msg)] + acts) == [Register(0, waiter), Lookup(msg)] + acts;
  }

  /** The second caller of a trace_id registers; then whoever holds the first one's entry removes it. */
  lemma SecondDropped(s: State, waiter: Waiter, last: Action)
    requires s.waiters == map[0 := waiter] && s.pending == map[] && s.channel == s.sent == map[0 := []] &&
      waiter.trace != ""
    requires (last == Remove && s.hand.Found? && s.hand.w == 0 && s.left == {0}) ||
             (last == Leave(0) && s.hand.Removed? && s.hand.w == 0 && s.left == {})
    ensures Legal(s, [Register(1, waiter), last]) && !Accounted(Run(s, [Register(1, waiter), last]), 1)
  {
    var s1 := Step(s, Register(1, waiter));
    assert s1.waiters == map[0 := waiter, 1 := waiter] && s1.pending == map[waiter.trace := 1];
    TwoSteps(s, Register(1, waiter), last);
    assert Step(s1, last).pending == map[];
  }

  /** A trace_id registered again while the dispatch goroutine holds its former waiter: the goroutine's removal drops
      the new waiter with no result. */
  lemma ReusedTraceDropsWaiter(m: Matcher, msg: Message)
    requires msg.trace != "" && Classify(m, msg.msgType, msg.name) != Unrelated
    ensures
      var acts := [Register(0, Waiter(msg.trace, m)), Lookup(msg), Leave(0), Register(1, Waiter(msg.trace, m)), Remove];
      Legal(Init, acts) && !Accounted(Run(Init, acts), 1)
  {
    var waiter := Waiter(msg.trace, m);
    var s2 := OneFound(waiter, msg);
    assert Step(s2, Leave(0)) == s2.(pending := map[], left := {0});
    SecondDropped(Step(s2, Leave(0)), waiter, Remove);
    RunCons(s2, Leave(0), [Register(1, waiter), Remove]);
    AfterFound(waiter, msg, [Leave(0)] + [Register(1, waiter), Remove]);
    assert [Register(0, waiter), Lookup(msg)] + ([Leave(0)] + [Register(1, waiter), Remove]) ==
      [Register(0, waiter), Lookup(msg), Leave(0), Register(1, waiter), Remove];
  }

  /** A trace_id registered again before its former caller, timing out while its answer is on the way, removes the
      entry: that removal drops the new waiter. */
  lemma LeavingCallerDropsWaiter(m: Matcher, msg: Message)
    requires msg.trace != "" && Classify(m, msg.msgType, msg.name) != Unrelated
    ensures
      var acts := [Register(0, Waiter(msg.trace, m)), Lookup(msg), Remove, Register(1, Waiter(msg.trace, m)), Leave(0)];
      Legal(Init, acts) && !Accounted(Run(Init, acts), 1)
  {
    var waiter := Waiter(msg.trace, m);
    var s2 := OneFound(waiter, msg);
    assert Step(s2, Remove) == s2.(pending := map[], hand := Removed(0, s2.hand.result));
    SecondDropped(Step(s2, Remove), waiter, Leave(0));
    RunCons(s2, Remove, [Register(1, waiter), Leave(0)]);
    AfterFound(waiter, msg, [Remove] + [Register(1, waiter), Leave(0)]);
    assert [Register(0, waiter), Lookup(msg)] + ([Remove] + [Register(1, waiter), Leave(0)]) ==
      [Register(0, waiter), Lookup(msg), Remove, Register(1, waiter), Leave(0)];
  }

  /** No trace_id is registered twice. */
  ghost predicate TracesOnce(s: State) {
    forall w, v :: w in s.waiters && v in s.waiters && s.waiters[w].trace == s.waiters[v].trace ==> w == v
  }

  predicate FreshTrace(s: State, a: Action) {
    a.Register? ==> forall w :: w in s.waiters ==> s.waiters[w].trace != a.waiter.trace
  }

  lemma StepTracesOnce(s: State, a: Action)
    requires TracesOnce(s) && Enabled(s, a) && FreshTrace(s, a)
    ensures TracesOnce(Step(s, a))
  {
  }

  lemma RegisterAccounted(s: State, w: WaiterId, waiter: Waiter)
    requires AllAccounted(s) && Enabled(s, Register(w, waiter))
    ensures AllAccounted(Step(s, Register(w, waiter)))
  {
    var s' := Step(s, Register(w, waiter));
    assert waiter.trace in s'.pending && s'.pending[waiter.trace] == w;
    PendingMoved(s, s', waiter.trace, w);
  }

  /** With each trace_id registered once, the entry under it is the caller's own. */
  lemma OnceDropsNobody(s: State, a: Action)
    requires TracesOnce(s) && Enabled(s, a)
    ensures DropsNobody(s, a)
  {
  }

  lemma DrainAccounted(s: State, a: Action)
    requires OneResult(s) && AllAccounted(s) && Enabled(s, a) && KnownWaiters(Step(s, a)) && a.DrainOne?
    ensures AllAccounted(Step(s, a))
  {
    DrainHeld(s, a.w);
    SamePending(s, Step(s, a));
  }

  lemma DrainHeld(s: State, v: WaiterId)
    requires Enabled(s, DrainOne(v))
    ensures
      var s' := Step(s, DrainOne(v));
      forall w :: w in s.waiters ==>
        (s.sent[w] != [] ==> s'.sent[w] != []) && (Held(s, w) ==> Held(s', w) || s'.sent[w] != [])
  {
    var s' := Step(s, DrainOne(v));
    forall w | w in s.waiters && Held(s, w) ensures Held(s', w) || s'.sent[w] != [] {
      if w != v { assert w in s.hand.rest - {v}; }
    }
  }

  lemma DispatchAccounted(s: State, a: Action)
    requires OneResult(s) && AllAccounted(s) && Enabled(s, a) && KnownWaiters(Step(s, a))
    requires a.Lookup? || a.Deliver? || a.Receive?
    ensures AllAccounted(Step(s, a))
  {
    SamePending(s, Step(s, a));
  }

  /** The exact condition, step by step: a step leaves every waiter accounted for exactly when it drops nobody. */
  lemma StepDropsNobodyIff(s: State, a: Action)
    requires OneResult(s) && AllAccounted(s) && Enabled(s, a)
    ensures AllAccounted(Step(s, a)) <==> DropsNobody(s, a)
  {
    match a
    case Remove => RemoveDropsNobodyIff(s);
    case Register(w, waiter) => RegisterAccounted(s, w, waiter);
    case Leave(w) => LeaveDropsNobodyIff(s, w);
    case FailAll => FailAllAccounted(s);
    case DrainOne(_) =>
      StepOneResult(s, a);
      DrainAccounted(s, a);
    case _ =>
      StepOneResult(s, a);
      DispatchAccounted(s, a);
  }

  /** Only the pending entry of one trace_id changed, and its waiter is accounted for. */
  lemma PendingMoved(s: State, s': State, t: string, w: WaiterId)
    requires AllAccounted(s) && KnownWaiters(s') && s'.hand == s.hand && s.left <= s'.left
    requires s'.waiters.Keys == s.waiters.Keys + {w}
    requires forall v :: v in s.waiters ==> s'.sent[v] == s.sent[v]
    requires forall x :: x in s.pending && x != t ==> x in s'.pending && s'.pending[x] == s.pending[x]
    requires t in s.pending ==> s.pending[t] == w
    requires Accounted(s', w)
    ensures AllAccounted(s')
  {
    forall v | v in s'.waiters ensures Accounted(s', v) {
      if v != w && IsPending(s, v) {
        var x :| x in s.pending && s.pending[x] == v;
        assert x in s'.pending && s'.pending[x] == v;
      } else if v != w {
        assert Accounted(s, v) && (Held(s, v) ==> Held(s', v));
      }
    }
  }

  lemma FailAllAccounted(s: State)
    requires AllAccounted(s) && Enabled(s, FailAll)
    ensures AllAccounted(Step(s, FailAll))
  {
    var s' := Step(s, FailAll);
    var all := set t | t in s.pending :: s.pending[t];
    forall v | v in s'.waiters ensures Accounted(s', v) {
      assert Accounted(s, v);
      if IsPending(s, v) {
        var t :| t in s.pending && s.pending[t] == v;
        assert v in all;
      }
    }
  }

  lemma SamePending(s: State, s': State)
    requires AllAccounted(s) && KnownWaiters(s') && s'.pending == s.pending && s'.waiters == s.waiters &&
      s'.left == s.left
    requires forall w :: w in s.waiters && s.sent[w] != [] ==> s'.sent[w] != []
    requires forall w :: w in s.waiters && Held(s, w) ==> Held(s', w) || s'.sent[w] != []
    ensures AllAccounted(s')
  {
    forall w | w in s'.waiters ensures Accounted(s', w) {
      assert Accounted(s, w);
      if IsPending(s, w) {
        var t :| t in s.pending && s.pending[t] == w;
        assert s'.pending[t] == w;
      }
    }
  }

  ghost predicate FreshRun(s: State, acts: seq<Action>)
    requires Legal(s, acts)
    decreases |acts|
  {
    acts == [] || (FreshTrace(s, acts[0]) && FreshRun(Step(s, acts[0]), acts[1..]))
  }

  /** With fresh trace_ids no waiter is ever dropped in silence. */
  lemma {:induction false} NobodyDropped(s: State, acts: seq<Action>)
    requires OneResult(s) && AllAccounted(s) && TracesOnce(s) && Legal(s, acts) && FreshRun(s, acts)
    ensures AllAccounted(Run(s, acts))
    decreases |acts|
  {
    if acts != [] {
      StepOneResult(s, acts[0]);
      OnceDropsNobody(s, acts[0]);
      StepDropsNobodyIff(s, acts[0]);
      StepTracesOnce(s, acts[0]);
      NobodyDropped(Step(s, acts[0]), acts[1..]);
    }
  }

  // ---- a message and its result ----

  /** What the waiter of m makes of it. */
  function Waiting(s: State, m: Message): Outcome {
    if m.trace != "" && m.trace in s.pending && s.pending[m.trace] in s.waiters
    then Classify(s.waiters[s.pending[m.trace]].matcher, m.msgType, m.name) else Unrelated
  }

  /** A pending trace_id's message passes its waiter by exactly when no rule of the three lists takes it. */
  lemma PassedByIff(s: State, m: Message)
    requires m.trace != "" && m.trace in s.pending && s.pending[m.trace] in s.waiters
    ensures
      var rules := s.waiters[s.pending[m.trace]].matcher;
      Waiting(s, m) == Unrelated <==>
        !TakenBy(rules.success, m.msgType, m.name) && !TakenBy(rules.terminal, m.msgType, m.name) &&
        !TakenBy(rules.invalid, m.msgType, m.name)
  {
    ClassifyMeans(s.waiters[s.pending[m.trace]].matcher, m.msgType, m.name);
  }

  /** The waiter of m is taken out of the pending map and gets its result. */
  function Settle(s: State, m: Message): State
    requires Waiting(s, m) != Unrelated && KnownKeys(s)
  {
    var w := s.pending[m.trace];
    Write(s, w, ResultOf(s.waiters[w].matcher, m)).(pending := s.pending - {m.trace})
  }

  predicate KnownKeys(s: State) { s.channel.Keys == s.waiters.Keys && s.sent.Keys == s.waiters.Keys }

  /** The waiter of m, taken out of the pending map and not written yet. */
  function TakenOut(s: State, m: Message): State
    requires Waiting(s, m) != Unrelated
  {
    var w := s.pending[m.trace];
    s.(pending := s.pending - {m.trace}, hand := Removed(w, ResultOf(s.waiters[w].matcher, m)))
  }

  lemma TakenOutBySteps(s: State, m: Message)
    requires OneResult(s) && s.hand == Idle && Waiting(s, m) != Unrelated
    ensures Enabled(s, Lookup(m)) && Enabled(Step(s, Lookup(m)), Remove)
    ensures Step(Step(s, Lookup(m)), Remove) == TakenOut(s, m) && OneResult(TakenOut(s, m))
  {
    var s1 := Step(s, Lookup(m));
    StepOneResult(s, Lookup(m));
    StepOneResult(s1, Remove);
  }

  /** That is what the dispatch goroutine does, in three steps. */
  lemma SettleIsThreeSteps(s: State, m: Message)
    requires OneResult(s) && s.hand == Idle && Waiting(s, m) != Unrelated
    ensures Legal(s, [Lookup(m), Remove, Deliver]) && Run(s, [Lookup(m), Remove, Deliver]) == Settle(s, m)
  {
    TakenOutBySteps(s, m);
    var s1, s2, s3 := Step(s, Lookup(m)), TakenOut(s, m), Settle(s, m);
    assert Enabled(s2, Deliver) by { NeverBlocks(s2); }
    assert Step(s2, Deliver) == s3;
    TwoSteps(s1, Remove, Deliver);
    RunCons(s, Lookup(m), [Remove, Deliver]);
    assert [Lookup(m)] + [Remove, Deliver] == [Lookup(m), Remove, Deliver];
  }

  /** Taking out and writing, put together. */
  lemma TakenOutThenWritten(s: State, m: Message)
    requires KnownKeys(s) && s.hand == Idle && Waiting(s, m) != Unrelated
    ensures
      var w := s.pending[m.trace];
      Write(TakenOut(s, m), w, ResultOf(s.waiters[w].matcher, m)).(hand := Idle) == Settle(s, m)
  {
  }

  lemma SettleOneResult(s: State, m: Message)
    requires OneResult(s) && s.hand == Idle && Waiting(s, m) != Unrelated
    ensures OneResult(Settle(s, m)) && Settle(s, m).hand == Idle
  {
    SettleIsThreeSteps(s, m);
    RunOneResult(s, [Lookup(m), Remove, Deliver]);
  }

  // ---- the pending map and its channels, as the dispatcher changes them ----

  class PendingTable {
    var waiters: map<WaiterId, Waiter>
    var pending: map<string, WaiterId>
    var channels: map<WaiterId, seq<Result>>
    ghost var sent: map<WaiterId, seq<Result>>
    ghost var left: set<WaiterId>
    ghost var hand: Hand

    ghost function View(): State
      reads this
    {
      State(waiters, pending, channels, sent, left, hand)
    }

    ghost predicate Valid()
      reads this
    {
      OneResult(View())
    }

    constructor ()
      ensures Valid() && View() == Init
    {
      waiters, pending, channels, sent, left, hand := map[], map[], map[], map[], {}, Idle;
    }

    /** A call registers its entry, unless its trace_id is taken. */
    method Enter(w: WaiterId, waiter: Waiter) returns (ok: bool)
      requires Valid() && w !in waiters && waiter.trace != ""
      modifies this
      ensures Valid() && (ok <==> Enabled(old(View()), Register(w, waiter)))
      ensures View() == if ok then Step(old(View()), Register(w, waiter)) else old(View())
    {
      if waiter.trace in pending {
        return false;
      }
      StepOneResult(View(), Register(w, waiter));
      waiters, pending := waiters[w := waiter], pending[waiter.trace := w];
      channels, sent := channels[w := []], sent[w := []];
      return true;
    }

    /** A caller gives up: the entry under its trace_id goes. */
    method GiveUp(w: WaiterId)
      requires Valid() && Enabled(View(), Leave(w))
      modifies this
      ensures Valid() && View() == Step(old(View()), Leave(w))
    {
      StepOneResult(View(), Leave(w));
      pending := pending - {waiters[w].trace};
      left := left + {w};
    }

    /** The waiter whose matcher takes the message leaves the pending map. */
    method Take(m: Message) returns (w: Option<WaiterId>)
      requires Valid() && hand == Idle
      modifies this`pending, this`hand
      ensures Valid() && (w.Some? <==> Waiting(old(View()), m) != Unrelated)
      ensures w.None? ==> View() == old(View())
      ensures w.Some? ==> w.value == old(pending)[m.trace] && View() == TakenOut(old(View()), m)
    {
      if m.trace == "" || m.trace !in pending {
        return None;
      }
      var found := pending[m.trace];
      if Classify(waiters[found].matcher, m.msgType, m.name) == Unrelated {
        return None;
      }
      TakenOutBySteps(View(), m);
      pending := pending - {m.trace};
      hand := Removed(found, ResultOf(waiters[found].matcher, m));
      return Some(found);
    }

    /** Its result is written to its channel, which has room. */
    method Put(w: WaiterId, r: Result)
      requires Valid() && hand == Removed(w, r)
      modifies this`channels, this`sent, this`hand
      ensures |old(channels)[w]| < 1
      ensures Valid() && View() == Write(old(View()), w, r).(hand := Idle)
    {
      NeverBlocks(View());
      WriteOneResult(View(), w, r, {});
      channels, sent, hand := channels[w := channels[w] + [r]], sent[w := sent[w] + [r]], Idle;
    }
  }
}
