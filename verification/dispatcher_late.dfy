/**
 Late replies over whole runs of the dispatcher: what the table of closed trace_ids holds in every reachable state,
 which late replies it drops, and the one moment at which a late reply gets past it.
 */
module DispatcherLate {
  import opened DispatcherStale
  import opened DispatcherRouting
  import W = DispatcherWaiters

  // ---- the closings of a run ----

  /** The trace_id a step closes: of the waiter a message resolves, or of a caller that left. */
  function ClosingOf(p: Profile, s: State, a: Action): seq<Closing> {
    match a
    case Receive(m, now, t1, t2) =>
      if s.callers.hand == W.Idle && FirstTarget(p.pre, m) == Unsupported && W.Waiting(s.callers, m) != Unrelated
      then [Closing(m.trace, s.callers.waiters[s.callers.pending[m.trace]].matcher, t1, t2)] else []
    case Close(id, m, t1, t2) => if id == "" then [] else [Closing(id, m, t1, t2)]
    case _ => []
  }

  ghost function Closings(p: Profile, s: State, acts: seq<Action>): seq<Closing>
    decreases |acts|
  {
    if acts == [] then [] else ClosingOf(p, s, acts[0]) + Closings(p, Step(p, s, acts[0]), acts[1..])
  }

  // ---- the clock ----

  /** The readings of a step, taken under the table's lock: none earlier than those before. */
  predicate InTime(a: Action, clock: int) {
    match a
    case Receive(_, now, t1, t2) => clock <= now <= t1 <= t2
    case Close(_, _, t1, t2) => clock <= t1 <= t2
    case _ => true
  }

  function ClockAfter(a: Action, clock: int): int {
    match a
    case Receive(_, _, _, t2) => t2
    case Close(_, _, _, t2) => t2
    case _ => clock
  }

  predicate Timed(acts: seq<Action>, clock: int)
    decreases |acts|
  {
    acts == [] || (InTime(acts[0], clock) && Timed(acts[1..], ClockAfter(acts[0], clock)))
  }

  function EndClock(acts: seq<Action>, clock: int): int
    decreases |acts|
  {
    if acts == [] then clock else EndClock(acts[1..], ClockAfter(acts[0], clock))
  }

  // ---- the table in every reachable state ----

  /** When the table was last rid of what had expired: by a closing, or by the lookup of a message nobody waits for. */
  function LookAfter(p: Profile, s: State, a: Action, look: int): int {
    match a
    case Receive(m, now, t1, _) =>
      if s.callers.hand != W.Idle || FirstTarget(p.pre, m) != Unsupported then look
      else if W.Waiting(s.callers, m) != Unrelated then t1
      else if m.trace == "" then look
      else now
    case Close(id, _, t1, _) => if id == "" then look else t1
    case _ => look
  }

  ghost function LastLook(p: Profile, s: State, acts: seq<Action>, look: int): int
    decreases |acts|
  {
    if acts == [] then look else LastLook(p, Step(p, s, acts[0]), acts[1..], LookAfter(p, s, acts[0], look))
  }

  lemma PrefixClosedOnce(h: seq<Closing>, more: seq<Closing>)
    requires ClosedOnce(h + more)
    ensures ClosedOnce(h)
  {
    var all := h + more;
    assert forall i :: 0 <= i < |h| ==> h[i] == all[i];
  }

  /** One step: the closing it makes, if any, is added, and what expired by the time it looked is gone. */
  lemma StepShows(p: Profile, s: State, a: Action, h: seq<Closing>, look: int, clock: int)
    requires Shows(s.stale, Recent(h, look)) && look <= clock && InTime(a, clock)
    requires ClosedOnce(h + ClosingOf(p, s, a))
    ensures Shows(Step(p, s, a).stale, Recent(h + ClosingOf(p, s, a), LookAfter(p, s, a, look)))
    ensures LookAfter(p, s, a, look) <= ClockAfter(a, clock)
  {
    var made := ClosingOf(p, s, a);
    PrefixClosedOnce(h, made);
    if made != [] {
      var c := made[0];
      assert made == [c] && (h + made)[|h|] == c;
      NoteRefines(s.stale, h, look, c);
    } else {
      assert h + made == h;
      if a.Receive? { GcRefines(s.stale, h, look, a.now); }
    }
  }

  lemma FirstClosing(p: Profile, s: State, acts: seq<Action>, h: seq<Closing>)
    requires acts != [] && ClosedOnce(h + Closings(p, s, acts))
    ensures
      var made, rest := ClosingOf(p, s, acts[0]), Closings(p, Step(p, s, acts[0]), acts[1..]);
      h + Closings(p, s, acts) == (h + made) + rest && ClosedOnce(h + made)
  {
    var made, rest := ClosingOf(p, s, acts[0]), Closings(p, Step(p, s, acts[0]), acts[1..]);
    Regroup(h, made, rest);
    PrefixClosedOnce(h + made, rest);
  }

  lemma Regroup(a: seq<Closing>, b: seq<Closing>, c: seq<Closing>)
    ensures a + (b + c) == (a + b) + c
  {
  }

  /** In every reachable state the table is exactly the last 1024 closings of the past 30 s, as of the last look. */
  lemma {:induction false} TableOverRuns(
      p: Profile, s: State, acts: seq<Action>, h: seq<Closing>, look: int, clock: int)
    requires Shows(s.stale, Recent(h, look)) && look <= clock && Timed(acts, clock)
    requires ClosedOnce(h + Closings(p, s, acts))
    ensures Shows(Run(p, s, acts).stale, Recent(h + Closings(p, s, acts), LastLook(p, s, acts, look)))
    ensures LastLook(p, s, acts, look) <= EndClock(acts, clock)
    decreases |acts|
  {
    if acts == [] {
      assert h + Closings(p, s, acts) == h;
    } else {
      var made, s1 := ClosingOf(p, s, acts[0]), Step(p, s, acts[0]);
      FirstClosing(p, s, acts, h);
      StepShows(p, s, acts[0], h, look, clock);
      TableOverRuns(p, s1, acts[1..], h + made, LookAfter(p, s, acts[0], look), ClockAfter(acts[0], clock));
    }
  }

  // ---- late replies ----

  /** Closing i of the run: one of the last 1024, less than 30 s old, and its matcher takes the message. */
  ghost predicate LateFor(h: seq<Closing>, i: nat, m: Message, now: int) {
    && i < |h| && h[i].id == m.trace && i >= |h| - RECENT_STALE_MAX && now < h[i].t2 + RECENT_STALE_TTL
    && Classify(h[i].matcher, m.msgType, m.name) != Unrelated
  }

  ghost predicate AnswersRecent(h: seq<Closing>, m: Message, now: int) { exists i: nat :: LateFor(h, i, m, now) }

  lemma LateIff(st: Stale, h: seq<Closing>, m: Message, now: int, look: int)
    requires Shows(st, Recent(h, look)) && ClosedOnce(h) && look <= now && m.trace != ""
    ensures IsLate(Gc(st, now), m) <==> AnswersRecent(h, m, now)
  {
    GcRefines(st, h, look, now);
    var st' := Gc(st, now);
    forall i: nat | i < |h|
      ensures h[i].id in st'.entries <==> i >= |h| - RECENT_STALE_MAX && now < h[i].t2 + RECENT_STALE_TTL
      ensures h[i].id in st'.entries ==> st'.entries[h[i].id].matcher == h[i].matcher
    {
      TableHolds(st', h, now, i);
    }
    if IsLate(st', m) {
      EntryIsClosing(st', h, now, m.trace);
      var i: nat :| i < |h| && h[i].id == m.trace;
      assert LateFor(h, i, m, now);
    }
  }

  lemma EntryIsClosing(st: Stale, h: seq<Closing>, now: int, id: string)
    requires ClosedOnce(h) && Shows(st, Recent(h, now)) && id in st.entries
    ensures exists i: nat :: i < |h| && h[i].id == id
  {
    var live := Recent(h, now);
    SuffixClosedOnce(h, now);
    assert id in st.order;
    var j :| 0 <= j < |st.order| && st.order[j] == id;
    assert live[j] == h[|h| - |live| + j];
  }

  /** Over every run from a connected dispatcher in which each trace_id is closed once: a message that no pre-pending
      rule and no waiter takes is dropped as late exactly when it answers one of the last 1024 closings of the past
      30 s as its matcher would have it; it then reaches no queue. */
  lemma LateReplyDropped(
      p: Profile, acts: seq<Action>, start: int, m: Message, now: int, t1: int, t2: int)
    requires Timed(acts, start) && ClosedOnce(Closings(p, Connected(p), acts)) && EndClock(acts, start) <= now
    requires m.trace != "" && FirstTarget(p.pre, m) == Unsupported
    requires W.Waiting(Run(p, Connected(p), acts).callers, m) == Unrelated
    ensures
      var s := Run(p, Connected(p), acts);
      var s' := Deliver(p, s, m, now, t1, t2);
      && (s'.ends == s.ends + [LateReply] <==> AnswersRecent(Closings(p, Connected(p), acts), m, now))
      && (s'.ends == s.ends + [LateReply] ==> s'.router == s.router && s'.lateDrops == s.lateDrops + 1)
  {
    var look := LastLook(p, Connected(p), acts, start);
    ReachableShows(p, acts, start);
    LateFrom(p, Run(p, Connected(p), acts), Closings(p, Connected(p), acts), look, m, now, t1, t2);
  }

  lemma ReachableShows(p: Profile, acts: seq<Action>, start: int)
    requires Timed(acts, start) && ClosedOnce(Closings(p, Connected(p), acts))
    ensures
      var look := LastLook(p, Connected(p), acts, start);
      look <= EndClock(acts, start) &&
      Shows(Run(p, Connected(p), acts).stale, Recent(Closings(p, Connected(p), acts), look))
  {
    var h := Closings(p, Connected(p), acts);
    assert [] + h == h;
    TableOverRuns(p, Connected(p), acts, [], start, start);
  }

  lemma LateFrom(p: Profile, s: State, h: seq<Closing>, look: int, m: Message, now: int, t1: int, t2: int)
    requires Shows(s.stale, Recent(h, look)) && ClosedOnce(h) && look <= now
    requires m.trace != "" && FirstTarget(p.pre, m) == Unsupported && W.Waiting(s.callers, m) == Unrelated
    ensures
      var s' := Deliver(p, s, m, now, t1, t2);
      && (s'.ends == s.ends + [LateReply] <==> AnswersRecent(h, m, now))
      && (s'.ends == s.ends + [LateReply] ==> s'.router == s.router && s'.lateDrops == s.lateDrops + 1)
  {
    LateIff(s.stale, h, m, now, look);
    LateIsDropped(p, s, m, now, t1, t2);
  }

  lemma LateIsDropped(p: Profile, s: State, m: Message, now: int, t1: int, t2: int)
    requires m.trace != "" && FirstTarget(p.pre, m) == Unsupported && W.Waiting(s.callers, m) == Unrelated
    ensures
      var s' := Deliver(p, s, m, now, t1, t2);
      && (s'.ends == s.ends + [LateReply] <==> IsLate(Gc(s.stale, now), m))
      && (s'.ends == s.ends + [LateReply] ==> s'.router == s.router && s'.lateDrops == s.lateDrops + 1)
  {
    var d := EndUnclaimed(p, Gc(s.stale, now), s.shapes, m);
    assert (s.ends + [d])[|s.ends|] == d && (s.ends + [LateReply])[|s.ends|] == LateReply;
  }

  // ---- between removePending and noteStale ----

  /** A message whose trace_id is neither pending nor in the table reaches a post-pending rule exactly when one matches
      and its shape was not learned. */
  lemma PastTheTableIff(p: Profile, s: State, m: Message, now: int)
    requires FirstTarget(p.pre, m) == Unsupported && m.trace !in s.callers.pending && m.trace !in s.stale.entries
    ensures DisposeNow(p, s, m, now).ByRule? <==>
      (m.msgType, m.name) !in s.shapes && FirstTarget(p.post, m) != Unsupported
  {
    GcShrinks(s.stale, now);
  }

  const OneChannel := Profile(["c"], [], [], [Rule(AnyMessage, ToCommand("c"))])

  /** A call that times out, up to the moment between removePending and noteStale, at which its late reply arrives. */
  function TimedOut(m: Message, matcher: Matcher): seq<Action> {
    [Caller(W.Register(0, W.Waiter(m.trace, matcher))), Learn(matcher), Caller(W.Leave(0)), Receive(m, 0, 0, 0)]
  }

  /** That reply is enqueued as a command if and only if the matcher takes it by a family or as a failure, and not by
      the exact name that the call made known; else it is dropped as an orphaned one. */
  lemma WindowLetsReplyThrough(m: Message, matcher: Matcher)
    requires m.trace != "" && Classify(matcher, m.msgType, m.name) != Unrelated
    ensures
      var s := Run(OneChannel, Connected(OneChannel), TimedOut(m, matcher));
      if SucceedsExactly(matcher, (m.msgType, m.name)) then
        s.ends == [OrphanReply] && s.router == Connected(OneChannel).router
      else
        s.ends == [ByRule(ToCommand("c"))] && "c" in s.router.commands && s.router.commands["c"] == [m]
  {
    var p, acts, s0 := OneChannel, TimedOut(m, matcher), Connected(OneChannel);
    var c1 := W.Step(W.Init, acts[0].a);
    var s1 := s0.(callers := c1);
    var s2 := s1.(shapes := Learned(p, {}, matcher));
    var s3 := s2.(callers := W.Step(c1, W.Leave(0)));
    assert Step(p, s0, acts[0]) == s1 && Step(p, s1, acts[1]) == s2 && Step(p, s2, acts[2]) == s3;
    WindowEnd(s3, m, matcher);
    FourActs(p, s0, acts[0], acts[1], acts[2], acts[3]);
  }

  lemma WindowEnd(s: State, m: Message, matcher: Matcher)
    requires m.trace !in s.callers.pending && s.callers.hand == W.Idle
    requires s.stale == NoStale && s.shapes == Learned(OneChannel, {}, matcher) && s.ends == []
    requires "c" in s.router.commands && s.router.commands["c"] == [] && "c" in s.router.enqueued
    ensures
      var s' := Step(OneChannel, s, Receive(m, 0, 0, 0));
      if SucceedsExactly(matcher, (m.msgType, m.name)) then s'.ends == [OrphanReply] && s'.router == s.router
      else s'.ends == [ByRule(ToCommand("c"))] && "c" in s'.router.commands && s'.router.commands["c"] == [m]
  {
    assert FirstTarget(OneChannel.post, m) == ToCommand("c") && FirstTarget(OneChannel.pre, m) == Unsupported;
    assert !Observational(OneChannel, (m.msgType, m.name));
    GcShrinks(s.stale, 0);
  }

  lemma FourActs(p: Profile, s: State, a: Action, b: Action, c: Action, d: Action)
    ensures Run(p, s, [a, b, c, d]) == Step(p, Step(p, Step(p, Step(p, s, a), b), c), d)
  {
    assert [a, b, c, d][1..] == [b, c, d] && [b, c, d][1..] == [c, d] && [c, d][1..] == [d] && [d][1..] == [];
    var s1 := Step(p, s, a);
    var s2 := Step(p, s1, b);
    var s3 := Step(p, s2, c);
    assert Run(p, s3, [d]) == Run(p, Step(p, s3, d), []);
    assert Run(p, s2, [c, d]) == Run(p, s3, [d]);
    assert Run(p, s1, [b, c, d]) == Run(p, s2, [c, d]);
  }
}
