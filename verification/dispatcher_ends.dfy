/**
 Where a received message goes, in terms of the profile's rules, the waiters' matchers and the queues only.
 */
module DispatcherEnds {
  import opened Basics
  import opened DispatcherStale
  import opened DispatcherRouting
  import W = DispatcherWaiters

  // ---- the rule that decides ----

  /** Rule i takes the message, and none before it does. */
  ghost predicate Decides(rules: seq<Rule>, i: nat, m: Message) {
    && i < |rules| && MatchesRoute(rules[i].route, m.msgType, m.name)
    && forall j: nat :: j < i ==> !MatchesRoute(rules[j].route, m.msgType, m.name)
  }

  ghost predicate NoneTakes(rules: seq<Rule>, m: Message) {
    forall i: nat :: i < |rules| ==> !MatchesRoute(rules[i].route, m.msgType, m.name)
  }

  lemma {:induction false} FirstDecides(rules: seq<Rule>, m: Message, i: nat)
    requires Decides(rules, i, m)
    ensures FirstTarget(rules, m) == rules[i].target
    decreases i
  {
    if i > 0 {
      forall j: nat | j < i - 1 ensures !MatchesRoute(rules[1..][j].route, m.msgType, m.name) {
        assert rules[1..][j] == rules[j + 1];
      }
      FirstDecides(rules[1..], m, i - 1);
    }
  }

  lemma {:induction false} NoneDecides(rules: seq<Rule>, m: Message)
    requires NoneTakes(rules, m)
    ensures FirstTarget(rules, m) == Unsupported
  {
    if rules != [] {
      forall i: nat | i < |rules| - 1 ensures !MatchesRoute(rules[1..][i].route, m.msgType, m.name) {
        assert rules[1..][i] == rules[i + 1];
      }
      NoneDecides(rules[1..], m);
    }
  }

  lemma {:induction false} OneOrNone(rules: seq<Rule>, m: Message) returns (i: Option<nat>)
    ensures if i.Some? then Decides(rules, i.value, m) else NoneTakes(rules, m)
  {
    if rules == [] {
      return None;
    }
    if MatchesRoute(rules[0].route, m.msgType, m.name) {
      return Some(0);
    }
    var k := OneOrNone(rules[1..], m);
    forall j: nat | j < |rules| - 1 ensures rules[1..][j] == rules[j + 1] { }
    if k.None? {
      forall j: nat | j < |rules| ensures !MatchesRoute(rules[j].route, m.msgType, m.name) {
        if j > 0 { assert rules[1..][j - 1] == rules[j]; }
      }
      return None;
    }
    forall j: nat | j < k.value + 1 ensures !MatchesRoute(rules[j].route, m.msgType, m.name) {
      if j > 0 { assert rules[1..][j - 1] == rules[j]; }
    }
    return Some(k.value + 1);
  }

  // ---- the one end of a message ----

  /** Some rule of the matcher's three lists takes the message. */
  ghost predicate Concerns(matcher: Matcher, m: Message) {
    || TakenBy(matcher.success, m.msgType, m.name) || TakenBy(matcher.terminal, m.msgType, m.name)
    || TakenBy(matcher.invalid, m.msgType, m.name)
  }

  ghost predicate AwaitedBy(c: W.State, m: Message, w: W.WaiterId) {
    && m.trace != "" && m.trace in c.pending && c.pending[m.trace] == w
    && w in c.waiters && Concerns(c.waiters[w].matcher, m)
  }

  /** The table holds the trace_id, and the matcher that closed it would have taken the message. */
  ghost predicate LateIn(st: Stale, m: Message) {
    m.trace != "" && m.trace in st.entries && Concerns(st.entries[m.trace].matcher, m)
  }

  lemma ConcernsIff(matcher: Matcher, m: Message)
    ensures Concerns(matcher, m) <==> Classify(matcher, m.msgType, m.name) != Unrelated
  {
    ClassifyMeans(matcher, m.msgType, m.name);
  }

  lemma AwaitedIff(c: W.State, m: Message)
    ensures (exists w :: AwaitedBy(c, m, w)) <==> W.Waiting(c, m) != Unrelated
    ensures forall w :: AwaitedBy(c, m, w) ==> c.pending[m.trace] == w
  {
    if m.trace != "" && m.trace in c.pending && c.pending[m.trace] in c.waiters {
      ConcernsIff(c.waiters[c.pending[m.trace]].matcher, m);
      if W.Waiting(c, m) != Unrelated { assert AwaitedBy(c, m, c.pending[m.trace]); }
    }
  }

  lemma LateInIff(st: Stale, m: Message)
    ensures LateIn(st, m) <==> IsLate(st, m)
  {
    if m.trace in st.entries { ConcernsIff(st.entries[m.trace].matcher, m); }
  }

  /** How a message ends: the first pre-pending rule that takes it, else the waiter that awaits it, else it is late,
      else it is orphaned, else the first post-pending rule that takes it, else it is unmatched. */
  ghost predicate EndsAs(p: Profile, s: State, st: Stale, m: Message, d: Disposition) {
    if exists i: nat :: Decides(p.pre, i, m) then
      exists i: nat :: Decides(p.pre, i, m) && d == ByRule(p.pre[i].target)
    else if exists w :: AwaitedBy(s.callers, m, w) then
      d.Resolved? && AwaitedBy(s.callers, m, d.waiter)
    else if LateIn(st, m) then d == LateReply
    else if (m.msgType, m.name) in s.shapes then d == OrphanReply
    else if exists i: nat :: Decides(p.post, i, m) then
      exists i: nat :: Decides(p.post, i, m) && d == ByRule(p.post[i].target)
    else d == Unmatched
  }

  lemma DecidedTarget(p: Profile, rules: seq<Rule>, m: Message)
    requires RulesDeclared(rules, p)
    ensures (exists i: nat :: Decides(rules, i, m)) <==> FirstTarget(rules, m) != Unsupported
    ensures (exists i: nat :: Decides(rules, i, m)) ==>
      exists i: nat :: Decides(rules, i, m) && FirstTarget(rules, m) == rules[i].target
  {
    var i := OneOrNone(rules, m);
    if i.Some? {
      FirstDecides(rules, m, i.value);
      assert TargetDeclared(rules[i.value].target, p);
    } else {
      NoneDecides(rules, m);
    }
  }

  lemma DisposeMeans(p: Profile, s: State, st: Stale, m: Message)
    requires RulesDeclared(p.pre, p) && RulesDeclared(p.post, p)
    ensures EndsAs(p, s, st, m, Dispose(p, s.callers, st, s.shapes, m))
  {
    DecidedTarget(p, p.pre, m);
    DecidedTarget(p, p.post, m);
    AwaitedIff(s.callers, m);
    LateInIff(st, m);
    if W.Waiting(s.callers, m) != Unrelated {
      var w :| AwaitedBy(s.callers, m, w);
      assert s.callers.pending[m.trace] == w;
    }
  }

  /** Every message a built profile receives has the one end that the rules, the waiters, the table and the learned
      shapes give it, in this order. */
  lemma EveryMessageEnds(p: Profile, s: State, m: Message, now: int, t1: int, t2: int)
    requires WellFormed(p) && s.callers.hand == W.Idle
    ensures
      var s' := Step(p, s, Receive(m, now, t1, t2));
      && |s'.ends| == |s.ends| + 1 && s'.received == s.received + [m]
      && EndsAs(p, s, if m.trace == "" then s.stale else Gc(s.stale, now), m, s'.ends[|s.ends|])
  {
    DisposeMeans(p, s, Looked(s, m, now), m);
  }

  // ---- what an end does ----

  /** A reply of a shape that its waiter's matcher succeeds with by name is its answer. */
  lemma ExactReplyAnswers(p: Profile, s: State, m: Message, now: int, t1: int, t2: int, w: W.WaiterId)
    requires NoneTakes(p.pre, m) && W.OneResult(s.callers) && s.callers.hand == W.Idle
    requires m.trace != "" && m.trace in s.callers.pending && s.callers.pending[m.trace] == w && w in s.callers.waiters
    requires SucceedsExactly(s.callers.waiters[w].matcher, (m.msgType, m.name))
    ensures
      var s' := Step(p, s, Receive(m, now, t1, t2));
      && w in s'.callers.sent && s'.callers.sent[w] == [W.Answer(m)] && m.trace !in s'.callers.pending
      && s'.ends == s.ends + [Resolved(w, Success)] && s'.router == s.router
  {
    var matcher := s.callers.waiters[w].matcher;
    NoneDecides(p.pre, m);
    ExactIsSuccess(matcher, m);
    SettleWrites(s.callers, m);
  }

  lemma ExactIsSuccess(matcher: Matcher, m: Message)
    requires SucceedsExactly(matcher, (m.msgType, m.name))
    ensures Classify(matcher, m.msgType, m.name) == Success
  {
    ClassifyMeans(matcher, m.msgType, m.name);
    var i :| 0 <= i < |matcher.success| &&
      (matcher.success[i] == Exact(m.msgType, m.name) ||
       (matcher.success[i].OneOf? && matcher.success[i].msgType == m.msgType && m.name in matcher.success[i].msgs));
    assert MatchesRoute(matcher.success[i], m.msgType, m.name);
  }

  /** Nothing but what is named changes in the router. */
  ghost predicate OthersKept(
      r: Router, r': Router, commands: set<string>, broadcasts: set<string>, counters: set<string>)
  {
    && r'.commands.Keys == r.commands.Keys && r'.subscribers.Keys == r.subscribers.Keys
    && (forall c :: c in r.commands && c !in commands ==> r'.commands[c] == r.commands[c])
    && (forall b :: b in r.subscribers && b !in broadcasts ==> r'.subscribers[b] == r.subscribers[b])
    && (forall k :: k !in counters ==> Drops(r', k) == Drops(r, k))
    && r'.consumed == r.consumed
  }

  /** A command goes to the end of its queue while there are fewer than 64 before it; else it is counted. */
  lemma CommandRouted(r: Router, c: string, m: Message)
    requires c in r.commands && c in r.enqueued
    ensures
      var r' := RouteTo(r, ToCommand(c), m);
      && OthersKept(r, r', {c}, {}, {c})
      && r'.commands[c] == (if |r.commands[c]| < 64 then r.commands[c] + [m] else r.commands[c])
      && Drops(r', c) == (if |r.commands[c]| < 64 then Drops(r, c) else Drops(r, c) + 1)
  {
  }

  lemma {:induction false} PushAllAt(qs: seq<seq<Message>>, m: Message, i: nat)
    requires i < |qs|
    ensures |PushAll(qs, m)| == |qs| && PushAll(qs, m)[i] == if |qs[i]| < 64 then qs[i] + [m] else qs[i]
  {
    if i > 0 {
      PushAllAt(qs[1..], m, i - 1);
    } else if |qs| > 1 {
      PushAllAt(qs[1..], m, 0);
    } else {
      assert qs[1..] == [];
    }
  }

  function FullOnes(qs: seq<seq<Message>>): set<nat> { set i: nat | i < |qs| && |qs[i]| >= 64 }

  lemma {:induction false} FullIsCount(qs: seq<seq<Message>>)
    ensures Full(qs) == |FullOnes(qs)|
  {
    if qs == [] {
      assert FullOnes(qs) == {};
    } else {
      var k := |qs| - 1;
      assert qs[..k + 1] == qs;
      PushAllSnoc(qs, k, Message0());
      FullIsCount(qs[..k]);
      if |qs[k]| >= 64 {
        assert FullOnes(qs) == FullOnes(qs[..k]) + {k} && k !in FullOnes(qs[..k]);
      } else {
        assert FullOnes(qs) == FullOnes(qs[..k]);
      }
    }
  }

  function Message0(): Message { W.Message("", "", "") }

  lemma BroadcastParts(r: Router, b: string, m: Message)
    requires b in r.subscribers
    ensures
      var r', qs, key := RouteTo(r, ToBroadcast(b), m), r.subscribers[b], "broadcast:" + b;
      && r'.subscribers == (if qs == [] then r.subscribers else r.subscribers[b := PushAll(qs, m)])
      && r'.drops == (if Full(qs) == 0 then r.drops else r.drops[key := Drops(r, key) + Full(qs)])
      && r'.commands == r.commands && r'.consumed == r.consumed
  {
  }

  lemma BroadcastQueues(r: Router, r': Router, b: string, m: Message)
    requires b in r.subscribers
    requires
      var qs := r.subscribers[b];
      r'.subscribers == (if qs == [] then r.subscribers else r.subscribers[b := PushAll(qs, m)])
    ensures
      var qs := r.subscribers[b];
      && b in r'.subscribers && |r'.subscribers[b]| == |qs|
      && forall i: nat :: i < |qs| ==> r'.subscribers[b][i] == if |qs[i]| < 64 then qs[i] + [m] else qs[i]
  {
    var qs := r.subscribers[b];
    if qs != [] {
      PushAllAt(qs, m, 0);
      forall i: nat | i < |qs| ensures PushAll(qs, m)[i] == if |qs[i]| < 64 then qs[i] + [m] else qs[i] {
        PushAllAt(qs, m, i);
      }
    }
  }

  /** A broadcast goes to every subscriber with fewer than 64 waiting, and is counted once for each other one. */
  lemma BroadcastRouted(r: Router, b: string, m: Message)
    requires b in r.subscribers
    ensures
      var r', qs := RouteTo(r, ToBroadcast(b), m), r.subscribers[b];
      && OthersKept(r, r', {}, {b}, {"broadcast:" + b})
      && |r'.subscribers[b]| == |qs|
      && (forall i: nat :: i < |qs| ==> r'.subscribers[b][i] == if |qs[i]| < 64 then qs[i] + [m] else qs[i])
      && Drops(r', "broadcast:" + b) == Drops(r, "broadcast:" + b) + |set i: nat | i < |qs| && |qs[i]| >= 64|
  {
    BroadcastParts(r, b, m);
    BroadcastQueues(r, RouteTo(r, ToBroadcast(b), m), b, m);
    FullIsCount(r.subscribers[b]);
  }

  /** A message routes by its end, and by nothing else. */
  lemma RoutedByEnd(p: Profile, s: State, m: Message, now: int, t1: int, t2: int)
    requires s.callers.hand == W.Idle
    ensures
      var s' := Step(p, s, Receive(m, now, t1, t2));
      var d := s'.ends[|s.ends|];
      && s'.router == (if d.ByRule? then RouteTo(s.router, d.target, m) else s.router)
      && s'.lateDrops == s.lateDrops + (if d.LateReply? then 1 else 0)
      && s'.orphanDrops == s.orphanDrops + (if d.OrphanReply? then 1 else 0)
      && (d.ByRule? && d.target.DropIt? ==> s'.router == s.router) && s'.shapes == s.shapes
      && (!d.Resolved? ==> s'.callers == s.callers)
  {
  }

  // ---- readers ----

  /** A reader takes the oldest message of its own queue, if there is one; a new subscriber starts with none. */
  lemma ReadersTakeOldest(p: Profile, s: State, b: string, i: nat)
    requires b in s.router.subscribers
    ensures
      var qs := s.router.subscribers[b];
      var s' := Step(p, s, ConsumeBroadcast(b, i));
      var qs' := if i < |qs| && qs[i] != [] then qs[i := qs[i][1..]] else qs;
      s' == s.(router := s.router.(subscribers := s.router.subscribers[b := qs']))
    ensures
      var qs := s.router.subscribers[b];
      Step(p, s, Subscribe(b)) == s.(router := s.router.(subscribers := s.router.subscribers[b := qs + [[]]]))
  {
  }
}
