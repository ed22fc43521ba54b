/**
 Route profiles, and where every received message ends: at a rule's target, with the waiter it resolves,
 dropped as a late or an orphaned reply, or unmatched; command queues are bounded and their drops counted.
 */
module DispatcherRouting {
  import opened Basics
  import opened DispatcherStale
  import W = DispatcherWaiters

  type Message = W.Message

  datatype Target = ToCommand(channel: string) | ToBroadcast(channel: string) | DropIt | Unsupported
  datatype Rule = Rule(route: RouteMatch, target: Target)
  datatype Profile = Profile(commands: seq<string>, broadcasts: seq<string>, pre: seq<Rule>, post: seq<Rule>)

  // ---- building a profile ----

  predicate NoDuplicates(names: seq<string>) {
    forall i, j :: 0 <= i < j < |names| ==> names[i] != names[j]
  }

  predicate TargetDeclared(t: Target, p: Profile) {
    match t
    case ToCommand(c) => c in p.commands
    case ToBroadcast(c) => c in p.broadcasts
    case DropIt => true
    case Unsupported => false
  }

  predicate RulesDeclared(rules: seq<Rule>, p: Profile) {
    forall i :: 0 <= i < |rules| ==> TargetDeclared(rules[i].target, p)
  }

  predicate WellFormed(p: Profile) {
    && NoDuplicates(p.commands) && NoDuplicates(p.broadcasts)
    && (forall i :: 0 <= i < |p.commands| ==> p.commands[i] !in p.broadcasts)
    && RulesDeclared(p.pre, p) && RulesDeclared(p.post, p)
  }

  method HasDuplicates(names: seq<string>) returns (found: bool)
    ensures found <==> !NoDuplicates(names)
  {
    var seen: set<string> := {};
    for k := 0 to |names|
      invariant NoDuplicates(names[..k])
      invariant forall x :: x in seen <==> x in names[..k]
    {
      if names[k] in seen {
        var i :| 0 <= i < k && names[..k][i] == names[k];
        return true;
      }
      seen := seen + {names[k]};
      assert names[..k + 1] == names[..k] + [names[k]];
    }
    assert names[..|names|] == names;
    return false;
  }

  method RulesOk(rules: seq<Rule>, p: Profile) returns (ok: bool)
    ensures ok <==> RulesDeclared(rules, p)
  {
    for k := 0 to |rules|
      invariant forall i :: 0 <= i < k ==> TargetDeclared(rules[i].target, p)
    {
      match rules[k].target {
        case ToCommand(c) => if c !in p.commands { return false; }
        case ToBroadcast(c) => if c !in p.broadcasts { return false; }
        case DropIt =>
        case Unsupported => return false;
      }
    }
    return true;
  }

  /** A profile is built exactly when no name is declared twice and every rule's target is declared. */
  method Build(p: Profile) returns (ok: bool)
    ensures ok <==> WellFormed(p)
  {
    var dup := HasDuplicates(p.commands);
    if dup {
      return false;
    }
    dup := HasDuplicates(p.broadcasts);
    if dup {
      return false;
    }
    for k := 0 to |p.commands|
      invariant forall i :: 0 <= i < k ==> p.commands[i] !in p.broadcasts
    {
      if p.commands[k] in p.broadcasts {
        return false;
      }
    }
    ok := RulesOk(p.pre, p);
    if ok {
      ok := RulesOk(p.post, p);
    }
  }

  // ---- queues ----

  const CHANNEL_CAPACITY := 64

  /** Queues, drop counters, and the history of each command channel. */
  datatype Router = Router(
    commands: map<string, seq<Message>>,
    subscribers: map<string, seq<seq<Message>>>,
    drops: map<string, nat>,
    enqueued: map<string, seq<Message>>,
    consumed: map<string, seq<Message>>)

  function Drops(r: Router, key: string): nat { if key in r.drops then r.drops[key] else 0 }

  function AddDrops(r: Router, key: string, n: nat): Router {
    if n == 0 then r else r.(drops := r.drops[key := Drops(r, key) + n])
  }

  function BroadcastKey(b: string): string { "broadcast:" + b }

  function PushOne(q: seq<Message>, m: Message): seq<Message> {
    if |q| < CHANNEL_CAPACITY then q + [m] else q
  }

  function PushAll(qs: seq<seq<Message>>, m: Message): seq<seq<Message>> {
    if qs == [] then [] else [PushOne(qs[0], m)] + PushAll(qs[1..], m)
  }

  function Full(qs: seq<seq<Message>>): nat {
    if qs == [] then 0 else (if |qs[0]| < CHANNEL_CAPACITY then 0 else 1) + Full(qs[1..])
  }

  lemma {:induction false} PushAllSnoc(qs: seq<seq<Message>>, k: nat, m: Message)
    requires k < |qs|
    ensures PushAll(qs[..k + 1], m) == PushAll(qs[..k], m) + [PushOne(qs[k], m)]
    ensures Full(qs[..k + 1]) == Full(qs[..k]) + if |qs[k]| < CHANNEL_CAPACITY then 0 else 1
  {
    if k == 0 {
      assert qs[..1][1..] == [];
    } else {
      assert qs[..k + 1][1..] == qs[1..][..k] && qs[..k][1..] == qs[1..][..k - 1];
      PushAllSnoc(qs[1..], k - 1, m);
    }
  }

  lemma AddDropsTwice(r: Router, key: string, a: nat, b: nat)
    ensures AddDrops(AddDrops(r, key, a), key, b) == AddDrops(r, key, a + b)
  {
  }

  function SendCommand(r: Router, c: string, m: Message): Router {
    if c !in r.commands || c !in r.enqueued then r
    else if |r.commands[c]| < CHANNEL_CAPACITY then
      r.(commands := r.commands[c := r.commands[c] + [m]], enqueued := r.enqueued[c := r.enqueued[c] + [m]])
    else AddDrops(r, c, 1)
  }

  function SendBroadcast(r: Router, b: string, m: Message): Router {
    var qs := if b in r.subscribers then r.subscribers[b] else [];
    AddDrops(if qs == [] then r else r.(subscribers := r.subscribers[b := PushAll(qs, m)]), BroadcastKey(b), Full(qs))
  }

  function RouteTo(r: Router, t: Target, m: Message): Router {
    match t
    case ToCommand(c) => SendCommand(r, c, m)
    case ToBroadcast(b) => SendBroadcast(r, b, m)
    case DropIt => r
    case Unsupported => r
  }

  /** The target of the first rule that matches. */
  function FirstTarget(rules: seq<Rule>, m: Message): Target {
    if rules == [] then Unsupported
    else if MatchesRoute(rules[0].route, m.msgType, m.name) then rules[0].target
    else FirstTarget(rules[1..], m)
  }

  // ---- where a message ends ----

  datatype Disposition =
    | ByRule(target: Target)
    | Resolved(waiter: W.WaiterId, outcome: Outcome)
    | LateReply
    | OrphanReply
    | Unmatched

  type Shape = (string, string)

  /** Its trace_id closed recently, and the matcher that closed would have taken it. */
  predicate IsLate(st: Stale, m: Message) {
    m.trace != "" && m.trace in st.entries && Classify(st.entries[m.trace].matcher, m.msgType, m.name) != Unrelated
  }

  /** The end of a message that no pre-pending rule and no waiter takes. */
  function EndUnclaimed(p: Profile, st: Stale, shapes: set<Shape>, m: Message): Disposition {
    if IsLate(st, m) then LateReply
    else if (m.msgType, m.name) in shapes then OrphanReply
    else if FirstTarget(p.post, m) != Unsupported then ByRule(FirstTarget(p.post, m))
    else Unmatched
  }

  /** The one end of a message, given who waits, which trace_ids closed recently, and which reply shapes were asked
      for. */
  function Dispose(p: Profile, callers: W.State, st: Stale, shapes: set<Shape>, m: Message): Disposition {
    if FirstTarget(p.pre, m) != Unsupported then ByRule(FirstTarget(p.pre, m))
    else if W.Waiting(callers, m) != Unrelated then Resolved(callers.pending[m.trace], W.Waiting(callers, m))
    else EndUnclaimed(p, st, shapes, m)
  }

  // ---- reply shapes ----

  /** The exact shapes a matcher succeeds with; families are never among them. */
  predicate SucceedsExactly(m: Matcher, s: Shape) {
    exists i :: 0 <= i < |m.success| &&
      (m.success[i] == Exact(s.0, s.1) ||
        (m.success[i].OneOf? && m.success[i].msgType == s.0 && s.1 in m.success[i].msgs))
  }

  /** A post-pending rule other than a catch-all fans this shape out. */
  predicate Observational(p: Profile, s: Shape) {
    exists i :: 0 <= i < |p.post| && !p.post[i].route.AnyMessage? && MatchesRoute(p.post[i].route, s.0, s.1) &&
      p.post[i].target.ToBroadcast?
  }

  function ExactShapes(m: Matcher): (shapes: set<Shape>)
    ensures forall s :: s in shapes <==> SucceedsExactly(m, s)
  {
    (set r | r in m.success && r.Exact? :: (r.msgType, r.msg)) +
    (set r, x | r in m.success && r.OneOf? && x in r.msgs :: (r.msgType, x))
  }

  /** The shapes known once a call with this matcher is under way. */
  function Learned(p: Profile, shapes: set<Shape>, m: Matcher): set<Shape> {
    shapes + set s | s in ExactShapes(m) && !Observational(p, s)
  }

  method RegisterShapes(p: Profile, shapes: set<Shape>, m: Matcher) returns (shapes': set<Shape>)
    ensures forall s :: s in shapes' <==> s in shapes || (SucceedsExactly(m, s) && !Observational(p, s))
    ensures shapes' == Learned(p, shapes, m)
  {
    shapes' := shapes;
    for k := 0 to |m.success|
      invariant forall s :: s in shapes' <==>
        s in shapes || (SucceedsExactly(m.(success := m.success[..k]), s) && !Observational(p, s))
    {
      ghost var before := m.(success := m.success[..k]);
      ghost var after := m.(success := m.success[..k + 1]);
      assert forall i :: 0 <= i < k ==> after.success[i] == before.success[i];
      assert forall s :: SucceedsExactly(after, s) <==>
        SucceedsExactly(before, s) || SucceedsExactly(m.(success := [m.success[k]]), s) by {
        forall s ensures SucceedsExactly(after, s) <==>
          SucceedsExactly(before, s) || SucceedsExactly(m.(success := [m.success[k]]), s) {
          OneMore(m, k, s);
        }
      }
      match m.success[k] {
        case Exact(t, name) =>
          if !Observational(p, (t, name)) { shapes' := shapes' + {(t, name)}; }
          assert forall s :: SucceedsExactly(m.(success := [m.success[k]]), s) <==> s == (t, name) by {
            OneExact(m, m.success[k]);
          }
        case OneOf(t, names) =>
          shapes' := shapes' + set x | x in names && !Observational(p, (t, x)) :: (t, x);
          assert forall s :: SucceedsExactly(m.(success := [m.success[k]]), s) <==> s.0 == t && s.1 in names by {
            OneExact(m, m.success[k]);
          }
        case AnyOfType(_) => assert forall s :: !SucceedsExactly(m.(success := [m.success[k]]), s) by {
          OneExact(m, m.success[k]);
        }
        case AnyMessage => assert forall s :: !SucceedsExactly(m.(success := [m.success[k]]), s) by {
          OneExact(m, m.success[k]);
        }
      }
    }
    assert m.success[..|m.success|] == m.success;
  }

  lemma OneMore(m: Matcher, k: nat, s: Shape)
    requires k < |m.success|
    ensures SucceedsExactly(m.(success := m.success[..k + 1]), s) <==>
      SucceedsExactly(m.(success := m.success[..k]), s) || SucceedsExactly(m.(success := [m.success[k]]), s)
  {
    var a, b, c := m.success[..k + 1], m.success[..k], [m.success[k]];
    assert a[k] == c[0] && forall i :: 0 <= i < k ==> a[i] == b[i];
    if SucceedsExactly(m.(success := a), s) {
      var i :| 0 <= i < |a| && (a[i] == Exact(s.0, s.1) || (a[i].OneOf? && a[i].msgType == s.0 && s.1 in a[i].msgs));
      if i < k { assert b[i] == a[i]; } else { assert c[0] == a[i]; }
    }
    if SucceedsExactly(m.(success := b), s) {
      var i :| 0 <= i < |b| && (b[i] == Exact(s.0, s.1) || (b[i].OneOf? && b[i].msgType == s.0 && s.1 in b[i].msgs));
      assert a[i] == b[i];
    }
    if SucceedsExactly(m.(success := c), s) { assert a[k] == c[0]; }
  }

  lemma OneExact(m: Matcher, r: RouteMatch)
    ensures forall s :: SucceedsExactly(m.(success := [r]), s) <==>
      (r == Exact(s.0, s.1) || (r.OneOf? && r.msgType == s.0 && s.1 in r.msgs))
  {
    forall s ensures SucceedsExactly(m.(success := [r]), s) <==>
      (r == Exact(s.0, s.1) || (r.OneOf? && r.msgType == s.0 && s.1 in r.msgs)) {
      assert [r][0] == r;
    }
  }

  // ---- runs ----

  datatype State = State(
    router: Router,
    callers: W.State,              // the waiters, the pending map and the one-slot channels
    stale: Stale,
    shapes: set<Shape>,
    lateDrops: nat,
    orphanDrops: nat,
    received: seq<Message>,        // every message, in arrival order
    ends: seq<Disposition>)        // and where each one ended

  datatype Action =
    | Receive(m: Message, now: int, t1: int, t2: int)
    | Consume(channel: string)
    | Subscribe(channel: string)
    | ConsumeBroadcast(channel: string, i: nat)
    | Caller(a: W.Action)                                     // a caller, or failAllPending
    | Learn(matcher: Matcher)                                 // registerResponseOnly, once the request is sent
    | Close(id: string, matcher: Matcher, t1: int, t2: int)   // a caller that left notes its trace_id

  /** The table a message is looked up in. */
  function Looked(s: State, m: Message, now: int): Stale { if m.trace == "" then s.stale else Gc(s.stale, now) }

  function DisposeNow(p: Profile, s: State, m: Message, now: int): Disposition {
    Dispose(p, s.callers, Looked(s, m, now), s.shapes, m)
  }

  function Settled(c: W.State, m: Message): W.State {
    if W.Waiting(c, m) != Unrelated && W.KnownKeys(c) then W.Settle(c, m) else c
  }

  function Ended(s: State, m: Message, d: Disposition): State {
    s.(received := s.received + [m], ends := s.ends + [d])
  }

  /** A waiter takes the message: its trace_id is closed, and it gets its result. */
  function Claimed(s: State, m: Message, t1: int, t2: int): State
    requires W.Waiting(s.callers, m) != Unrelated
  {
    var w := s.callers.pending[m.trace];
    Ended(s, m, Resolved(w, W.Waiting(s.callers, m)))
      .(callers := Settled(s.callers, m), stale := Note(s.stale, m.trace, s.callers.waiters[w].matcher, t1, t2))
  }

  lemma ClaimedParts(s: State, m: Message, t1: int, t2: int)
    requires W.Waiting(s.callers, m) != Unrelated
    ensures
      var w := s.callers.pending[m.trace];
      Claimed(s, m, t1, t2) ==
      State(s.router, Settled(s.callers, m), Note(s.stale, m.trace, s.callers.waiters[w].matcher, t1, t2), s.shapes,
            s.lateDrops, s.orphanDrops, s.received + [m], s.ends + [Resolved(w, W.Waiting(s.callers, m))])
  {
  }

  /** Nobody waits for the message. */
  function Unclaimed(p: Profile, s: State, m: Message, st: Stale): State {
    var d := EndUnclaimed(p, st, s.shapes, m);
    Ended(s, m, d)
      .(stale := st, lateDrops := s.lateDrops + (if d == LateReply then 1 else 0),
        orphanDrops := s.orphanDrops + (if d == OrphanReply then 1 else 0),
        router := if d.ByRule? then RouteTo(s.router, d.target, m) else s.router)
  }

  function Deliver(p: Profile, s: State, m: Message, now: int, t1: int, t2: int): State {
    var pre := FirstTarget(p.pre, m);
    if pre != Unsupported then Ended(s, m, ByRule(pre)).(router := RouteTo(s.router, pre, m))
    else if W.Waiting(s.callers, m) != Unrelated then Claimed(s, m, t1, t2)
    else Unclaimed(p, s, m, Looked(s, m, now))
  }

  /** The steps of the waiters' machine that are not the dispatch of a message. */
  predicate OutsideDispatch(a: W.Action) { !a.Lookup? && !a.Remove? && !a.Deliver? }

  /** A step that is not possible changes nothing; no message is taken while failAllPending is under way. */
  ghost function Step(p: Profile, s: State, a: Action): State {
    var r := s.router;
    match a
    case Receive(m, now, t1, t2) => if s.callers.hand == W.Idle then Deliver(p, s, m, now, t1, t2) else s
    case Consume(c) =>
      if c !in r.commands || r.commands[c] == [] || c !in r.consumed then s
      else
        s.(router := r.(commands := r.commands[c := r.commands[c][1..]],
                        consumed := r.consumed[c := r.consumed[c] + [r.commands[c][0]]]))
    case Subscribe(b) =>
      if b !in r.subscribers then s
      else s.(router := r.(subscribers := r.subscribers[b := r.subscribers[b] + [[]]]))
    case ConsumeBroadcast(b, i) =>
      if b !in r.subscribers || i >= |r.subscribers[b]| || r.subscribers[b][i] == [] then s
      else s.(router := r.(subscribers := r.subscribers[b := r.subscribers[b][i := r.subscribers[b][i][1..]]]))
    case Caller(c) =>
      if OutsideDispatch(c) && W.Enabled(s.callers, c) then s.(callers := W.Step(s.callers, c)) else s
    case Learn(m) => s.(shapes := Learned(p, s.shapes, m))
    case Close(id, m, t1, t2) => s.(stale := Note(s.stale, id, m, t1, t2))
  }

  ghost function Run(p: Profile, s: State, acts: seq<Action>): State
    decreases |acts|
  {
    if acts == [] then s else Run(p, Step(p, s, acts[0]), acts[1..])
  }

  // ---- conservation ----

  /** The messages whose end is command channel c, in arrival order. */
  function RoutedTo(received: seq<Message>, ends: seq<Disposition>, c: string): seq<Message>
    requires |received| == |ends|
  {
    if received == [] then []
    else
      var n := |received| - 1;
      RoutedTo(received[..n], ends[..n], c) + if ends[n] == ByRule(ToCommand(c)) then [received[n]] else []
  }

  function Tally(ends: seq<Disposition>, d: Disposition): nat {
    if ends == [] then 0 else Tally(ends[..|ends| - 1], d) + if ends[|ends| - 1] == d then 1 else 0
  }

  /** a is b with some messages left out, in order. */
  predicate Subsequence(a: seq<Message>, b: seq<Message>) {
    a == [] ||
    (b != [] && ((a[|a| - 1] == b[|b| - 1] && Subsequence(a[..|a| - 1], b[..|b| - 1])) || Subsequence(a, b[..|b| - 1])))
  }

  /** No command channel is named like the drop counter of a broadcast channel. */
  predicate NoClash(p: Profile) {
    forall b :: b in p.broadcasts ==> BroadcastKey(b) !in p.commands
  }

  ghost predicate ChannelKept(s: State, c: string)
    requires |s.received| == |s.ends|
  {
    var r := s.router;
    && c in r.commands && c in r.enqueued && c in r.consumed
    && r.enqueued[c] == r.consumed[c] + r.commands[c]
    && |r.commands[c]| <= CHANNEL_CAPACITY
    && Subsequence(r.enqueued[c], RoutedTo(s.received, s.ends, c))
  }

  ghost predicate Conserved(p: Profile, s: State) {
    && |s.received| == |s.ends|
    && (forall c :: c in p.commands ==> ChannelKept(s, c))
    && s.lateDrops == Tally(s.ends, LateReply) && s.orphanDrops == Tally(s.ends, OrphanReply)
    && (forall b :: b in s.router.subscribers ==> b in p.broadcasts)
  }

  /** Routed = enqueued + dropped. */
  ghost predicate Counted(p: Profile, s: State)
    requires Conserved(p, s)
  {
    forall c :: c in p.commands ==> |RoutedTo(s.received, s.ends, c)| == |s.router.enqueued[c]| + Drops(s.router, c)
  }

  lemma SubsequenceAppend(a: seq<Message>, b: seq<Message>, m: Message)
    requires Subsequence(a, b)
    ensures Subsequence(a, b + [m]) && Subsequence(a + [m], b + [m])
  {
    assert (b + [m])[..|b + [m]| - 1] == b && (a + [m])[..|a + [m]| - 1] == a;
  }

  lemma RoutedSnoc(received: seq<Message>, ends: seq<Disposition>, m: Message, d: Disposition, c: string)
    requires |received| == |ends|
    ensures RoutedTo(received + [m], ends + [d], c) == RoutedTo(received, ends, c) +
      if d == ByRule(ToCommand(c)) then [m] else []
    ensures Tally(ends + [d], LateReply) == Tally(ends, LateReply) + if d == LateReply then 1 else 0
    ensures Tally(ends + [d], OrphanReply) == Tally(ends, OrphanReply) + if d == OrphanReply then 1 else 0
  {
    assert (received + [m])[..|received|] == received && (ends + [d])[..|ends|] == ends;
  }

  /** A rule's target changes only its own channel's queue and counter. */
  lemma RouteToChannel(p: Profile, r: Router, t: Target, m: Message, c: string)
    requires c in r.commands && c in r.enqueued && c in r.consumed && |r.commands[c]| <= CHANNEL_CAPACITY
    requires r.enqueued[c] == r.consumed[c] + r.commands[c]
    ensures
      var r' := RouteTo(r, t, m);
      && c in r'.commands && c in r'.enqueued && c in r'.consumed && r'.consumed[c] == r.consumed[c]
      && r'.enqueued[c] == r'.consumed[c] + r'.commands[c] && |r'.commands[c]| <= CHANNEL_CAPACITY
      && (t != ToCommand(c) ==> r'.enqueued[c] == r.enqueued[c])
      && (t == ToCommand(c) ==> r'.enqueued[c] == r.enqueued[c] || r'.enqueued[c] == r.enqueued[c] + [m])
      && (t != ToCommand(c) && (t.ToBroadcast? ==> BroadcastKey(t.channel) != c) ==> Drops(r', c) == Drops(r, c))
      && (t == ToCommand(c) ==> |r'.enqueued[c]| + Drops(r', c) == |r.enqueued[c]| + Drops(r, c) + 1)
      && r'.subscribers.Keys == r.subscribers.Keys
  {
  }

  lemma DeliverRouter(p: Profile, s: State, m: Message, now: int, t1: int, t2: int)
    requires |s.received| == |s.ends|
    ensures
      var s' := Deliver(p, s, m, now, t1, t2);
      && |s'.ends| == |s.ends| + 1 && s'.received == s.received + [m] && s'.ends == s.ends + [s'.ends[|s.ends|]]
      && (var d := DisposeNow(p, s, m, now);
          && s'.ends == s.ends + [d]
          && s'.router == (if d.ByRule? then RouteTo(s.router, d.target, m) else s.router)
          && s'.lateDrops == s.lateDrops + (if d == LateReply then 1 else 0)
          && s'.orphanDrops == s.orphanDrops + (if d == OrphanReply then 1 else 0)
          && (d.ByRule? ==> d.target == FirstTarget(p.pre, m) || d.target == FirstTarget(p.post, m)))
  {
  }

  lemma DeliverChannel(p: Profile, s: State, m: Message, now: int, t1: int, t2: int, c: string)
    requires |s.received| == |s.ends| && ChannelKept(s, c)
    ensures |Deliver(p, s, m, now, t1, t2).received| == |Deliver(p, s, m, now, t1, t2).ends|
    ensures ChannelKept(Deliver(p, s, m, now, t1, t2), c)
  {
    var s' := Deliver(p, s, m, now, t1, t2);
    DeliverRouter(p, s, m, now, t1, t2);
    var d := s'.ends[|s.ends|];
    var was := RoutedTo(s.received, s.ends, c);
    RoutedSnoc(s.received, s.ends, m, d, c);
    SubsequenceAppend(s.router.enqueued[c], was, m);
    if d.ByRule? { RouteToChannel(p, s.router, d.target, m, c); }
    if d == ByRule(ToCommand(c)) {
      assert RoutedTo(s'.received, s'.ends, c) == was + [m];
    } else {
      assert RoutedTo(s'.received, s'.ends, c) == was;
    }
  }

  lemma StepConserved(p: Profile, s: State, a: Action)
    requires Conserved(p, s)
    ensures Conserved(p, Step(p, s, a))
  {
    if a.Receive? {
      if s.callers.hand == W.Idle { DeliverConserved(p, s, a.m, a.now, a.t1, a.t2); }
    } else {
      OtherChannels(p, s, a);
    }
  }

  lemma DeliverConserved(p: Profile, s: State, m: Message, now: int, t1: int, t2: int)
    requires Conserved(p, s)
    ensures Conserved(p, Deliver(p, s, m, now, t1, t2))
  {
    var s' := Deliver(p, s, m, now, t1, t2);
    DeliverRouter(p, s, m, now, t1, t2);
    RoutedSnoc(s.received, s.ends, m, s'.ends[|s.ends|], "");
    forall c | c in p.commands ensures ChannelKept(s', c) { DeliverChannel(p, s, m, now, t1, t2, c); }
  }

  lemma OtherChannels(p: Profile, s: State, a: Action)
    requires Conserved(p, s) && !a.Receive?
    ensures Conserved(p, Step(p, s, a)) && (Counted(p, s) ==> Counted(p, Step(p, s, a)))
  {
    var s' := Step(p, s, a);
    forall c | c in p.commands ensures ChannelKept(s', c) {
      OtherChannel(p, s, a, c);
    }
    assert s'.router.enqueued == s.router.enqueued && s'.router.drops == s.router.drops;
  }

  lemma OtherChannel(p: Profile, s: State, a: Action, c: string)
    requires |s.received| == |s.ends| && ChannelKept(s, c) && !a.Receive?
    ensures
      var s' := Step(p, s, a);
      s'.received == s.received && s'.ends == s.ends && ChannelKept(s', c)
  {
    var r := s.router;
    if a == Consume(c) && r.commands[c] != [] {
      assert r.consumed[c] + r.commands[c] == r.consumed[c] + [r.commands[c][0]] + r.commands[c][1..];
    }
  }

  // ---- resolved messages ----

  /** Message i was written to waiter w, as the one result w ever got. */
  ghost predicate WrittenTo(s: State, i: nat, w: W.WaiterId)
    requires i < |s.received|
  {
    && w in s.callers.waiters && w in s.callers.sent && |s.callers.sent[w]| == 1
    && (var r := s.callers.sent[w][0];
        W.OwnResult(s.callers.waiters[w], r) && !r.Disconnected? && r.msg == s.received[i])
  }

  /** A waiter that got an answer, not the failure of all. */
  ghost predicate GotAnswer(s: State, w: W.WaiterId) {
    w in s.callers.sent && s.callers.sent[w] != [] && s.callers.sent[w] != [W.Disconnected]
  }

  ghost predicate EndedAt(s: State, i: nat, w: W.WaiterId) {
    i < |s.ends| && s.ends[i].Resolved? && s.ends[i].waiter == w
  }

  /** The messages that ended as resolved and the waiters that got an answer are one to one. */
  ghost predicate Tied(s: State) {
    && |s.received| == |s.ends| && W.OneResult(s.callers) && !s.callers.hand.Found? && !s.callers.hand.Removed?
    && (forall i: nat :: i < |s.ends| && s.ends[i].Resolved? ==> WrittenTo(s, i, s.ends[i].waiter))
    && (forall i: nat, j: nat, w :: EndedAt(s, i, w) && EndedAt(s, j, w) ==> i == j)
    && (forall w :: GotAnswer(s, w) ==> exists i: nat :: EndedAt(s, i, w))
  }

  /** A step of the callers keeps what was written, and writes failures only. */
  lemma CallerWrites(c: W.State, a: W.Action)
    requires W.OneResult(c) && W.Enabled(c, a) && OutsideDispatch(a)
    ensures
      var c' := W.Step(c, a);
      && (forall w :: w in c.waiters ==> w in c'.waiters && c'.waiters[w] == c.waiters[w])
      && (forall w :: w in c.sent && c.sent[w] != [] ==> w in c'.sent && c'.sent[w] == c.sent[w])
      && (forall w :: w in c'.sent && (w in c.sent ==> c'.sent[w] != c.sent[w]) ==>
        c'.sent[w] == [] || c'.sent[w] == [W.Disconnected])
      && (!c.hand.Found? && !c.hand.Removed? ==> !c'.hand.Found? && !c'.hand.Removed?)
  {
    if a.DrainOne? { assert W.Held(c, a.w); }
  }

  lemma CallerTied(p: Profile, s: State, a: W.Action)
    requires Tied(s) && OutsideDispatch(a) && W.Enabled(s.callers, a)
    ensures Tied(s.(callers := W.Step(s.callers, a)))
  {
    var s' := s.(callers := W.Step(s.callers, a));
    W.StepOneResult(s.callers, a);
    CallerWrites(s.callers, a);
    forall i: nat | i < |s'.ends| && s'.ends[i].Resolved? ensures WrittenTo(s', i, s'.ends[i].waiter) {
      assert WrittenTo(s, i, s.ends[i].waiter);
    }
    forall w | GotAnswer(s', w) ensures exists i: nat :: EndedAt(s', i, w) {
      assert GotAnswer(s, w);
      var i: nat :| EndedAt(s, i, w);
      assert EndedAt(s', i, w);
    }
    forall i: nat, j: nat, w | EndedAt(s', i, w) && EndedAt(s', j, w) ensures i == j {
      assert EndedAt(s, i, w) && EndedAt(s, j, w);
    }
  }

  /** What a message writes: the result of its own waiter, which had none. */
  lemma SettleWrites(c: W.State, m: Message)
    requires W.OneResult(c) && c.hand == W.Idle && W.Waiting(c, m) != Unrelated
    ensures
      var w := c.pending[m.trace];
      && Settled(c, m) == W.Settle(c, m) && W.OneResult(Settled(c, m)) && Settled(c, m).hand == W.Idle
      && Settled(c, m).waiters == c.waiters && c.sent[w] == []
      && Settled(c, m).sent == c.sent[w := [W.ResultOf(c.waiters[w].matcher, m)]]
  {
    W.SettleOneResult(c, m);
    var w := c.pending[m.trace];
    var r := W.ResultOf(c.waiters[w].matcher, m);
    assert c.sent[w] == [] && c.sent[w] + [r] == [r];
  }

  /** A message that is not resolved writes to nobody. */
  lemma UnresolvedTied(p: Profile, s: State, s': State, m: Message, d: Disposition)
    requires Tied(s) && !d.Resolved? && s'.received == s.received + [m] && s'.ends == s.ends + [d] &&
      s'.callers == s.callers
    ensures Tied(s')
  {
    forall i: nat | i < |s'.ends| && s'.ends[i].Resolved? ensures WrittenTo(s', i, s'.ends[i].waiter) {
      assert WrittenTo(s, i, s.ends[i].waiter);
    }
    forall i: nat, w ensures EndedAt(s', i, w) <==> EndedAt(s, i, w) { }
    forall w | GotAnswer(s', w) ensures exists i: nat :: EndedAt(s', i, w) {
      assert GotAnswer(s, w);
      var i: nat :| EndedAt(s, i, w);
      assert EndedAt(s', i, w);
    }
  }

  lemma NewWritten(s: State, s': State, m: Message)
    requires W.OneResult(s.callers) && s.callers.hand == W.Idle && W.Waiting(s.callers, m) != Unrelated
    requires s'.received == s.received + [m] && s'.callers == Settled(s.callers, m)
    ensures WrittenTo(s', |s.received|, s.callers.pending[m.trace])
  {
    var w := s.callers.pending[m.trace];
    SettleWrites(s.callers, m);
    W.ResultIsOwn(s.callers.waiters[w], m);
  }

  lemma OldWritten(s: State, s': State, m: Message, i: nat, w: W.WaiterId)
    requires W.OneResult(s.callers) && s.callers.hand == W.Idle && W.Waiting(s.callers, m) != Unrelated
    requires i < |s.received| && WrittenTo(s, i, w)
    requires s'.received == s.received + [m] && s'.callers == Settled(s.callers, m)
    ensures w != s.callers.pending[m.trace] && WrittenTo(s', i, w)
  {
    SettleWrites(s.callers, m);
  }

  lemma ResolvedTied(s: State, s': State, m: Message, d: Disposition)
    requires Tied(s) && s.callers.hand == W.Idle && W.Waiting(s.callers, m) != Unrelated
    requires d == Resolved(s.callers.pending[m.trace], W.Waiting(s.callers, m))
    requires s'.received == s.received + [m] && s'.ends == s.ends + [d] && s'.callers == Settled(s.callers, m)
    ensures Tied(s')
  {
    var w0, n := d.waiter, |s.ends|;
    SettleWrites(s.callers, m);
    NewWritten(s, s', m);
    forall i: nat | i < n && s.ends[i].Resolved? ensures s.ends[i].waiter != w0 && WrittenTo(s', i, s.ends[i].waiter) {
      OldWritten(s, s', m, i, s.ends[i].waiter);
    }
    forall i: nat, w ensures EndedAt(s', i, w) <==> EndedAt(s, i, w) || (i == n && w == w0) { }
    forall w | GotAnswer(s', w) ensures exists i: nat :: EndedAt(s', i, w) {
      if w == w0 {
        assert EndedAt(s', n, w);
      } else {
        assert GotAnswer(s, w);
        var i: nat :| EndedAt(s, i, w);
        assert EndedAt(s', i, w);
      }
    }
  }

  lemma StepTied(p: Profile, s: State, a: Action)
    requires Tied(s)
    ensures Tied(Step(p, s, a))
  {
    match a
    case Receive(m, now, t1, t2) =>
      if s.callers.hand == W.Idle {
        var s', d := Deliver(p, s, m, now, t1, t2), DisposeNow(p, s, m, now);
        if d.Resolved? { ResolvedTied(s, s', m, d); } else { UnresolvedTied(p, s, s', m, d); }
      }
    case Caller(c) => if OutsideDispatch(c) && W.Enabled(s.callers, c) { CallerTied(p, s, c); }
    case _ => SameTied(s, Step(p, s, a));
  }

  lemma SameTied(s: State, s': State)
    requires Tied(s) && s'.received == s.received && s'.ends == s.ends && s'.callers == s.callers
    ensures Tied(s')
  {
    forall i: nat | i < |s'.ends| && s'.ends[i].Resolved? ensures WrittenTo(s', i, s'.ends[i].waiter) {
      assert WrittenTo(s, i, s.ends[i].waiter);
    }
    forall i: nat, w ensures EndedAt(s', i, w) <==> EndedAt(s, i, w) { }
    forall w | GotAnswer(s', w) ensures exists i: nat :: EndedAt(s', i, w) {
      assert GotAnswer(s, w);
      var i: nat :| EndedAt(s, i, w);
      assert EndedAt(s', i, w);
    }
  }

  /** Every received message has one end; a resolved one is the one result of its waiter, and every answered waiter's
      result is one such message; each command channel holds, consumed and queued, the accepted part of what was routed
      to it, in arrival order; late and orphaned drops are the counters. */
  lemma {:induction false} MessagesConserved(p: Profile, s: State, acts: seq<Action>)
    requires Conserved(p, s) && Tied(s)
    ensures Conserved(p, Run(p, s, acts)) && Tied(Run(p, s, acts))
    decreases |acts|
  {
    if acts != [] {
      StepConserved(p, s, acts[0]);
      StepTied(p, s, acts[0]);
      MessagesConserved(p, Step(p, s, acts[0]), acts[1..]);
    }
  }

  // ---- which replies count as orphaned ----

  /** No shape that a post-pending rule fans out is known, and no message of such a shape ended as an orphaned reply. */
  ghost predicate ShapesOk(p: Profile, s: State) {
    && |s.ends| == |s.received|
    && (forall x :: x in s.shapes ==> !Observational(p, x))
    && forall i, j :: 0 <= i < |s.ends| && s.ends[i] == OrphanReply && 0 <= j < |p.post| ==>
         NotFannedOut(p.post[j], s.received[i].msgType, s.received[i].name)
  }

  /** The rule does not fan the message out, or is a catch-all. */
  predicate NotFannedOut(r: Rule, msgType: string, name: string) {
    r.target.ToBroadcast? && MatchesRoute(r.route, msgType, name) ==> r.route == AnyMessage
  }

  lemma StepShapesOk(p: Profile, s: State, a: Action)
    requires ShapesOk(p, s)
    ensures ShapesOk(p, Step(p, s, a))
  {
    if a.Receive? && s.callers.hand == W.Idle {
      var s' := Step(p, s, a);
      assert s'.received == s.received + [a.m] && s'.shapes == s.shapes && |s'.ends| == |s.ends| + 1;
      assert s'.ends[..|s.ends|] == s.ends;
    }
  }

  /** Over every run no message of a shape that the profile fans out is dropped as an orphaned reply. */
  lemma {:induction false} ObservationalNeverOrphan(p: Profile, s: State, acts: seq<Action>)
    requires ShapesOk(p, s)
    ensures ShapesOk(p, Run(p, s, acts))
    decreases |acts|
  {
    if acts != [] {
      StepShapesOk(p, s, acts[0]);
      ObservationalNeverOrphan(p, Step(p, s, acts[0]), acts[1..]);
    }
  }

  predicate LearnsAt(p: Profile, acts: seq<Action>, i: nat, x: Shape) {
    && i < |acts| && acts[i].Learn? && SucceedsExactly(acts[i].matcher, x)
    && forall j :: 0 <= j < |p.post| ==> NotFannedOut(p.post[j], x.0, x.1)
  }

  /** A shape is known exactly when some call made so far succeeds with it, by name and not by family, and the profile
      does not fan it out; it is never forgotten. */
  lemma {:induction false} ShapesOverRuns(p: Profile, s: State, acts: seq<Action>, x: Shape)
    ensures x in Run(p, s, acts).shapes <==> x in s.shapes || exists i: nat :: LearnsAt(p, acts, i, x)
    decreases |acts|
  {
    if acts != [] {
      var s1, rest := Step(p, s, acts[0]), acts[1..];
      ShapesOverRuns(p, s1, rest, x);
      assert x in s1.shapes <==> x in s.shapes || LearnsAt(p, acts, 0, x);
      if i: nat :| LearnsAt(p, rest, i, x) { assert LearnsAt(p, acts, i + 1, x); }
      if i: nat :| LearnsAt(p, acts, i, x) {
        if i > 0 { assert LearnsAt(p, rest, i - 1, x); }
      }
    }
  }

  lemma FirstTargetDeclared(rules: seq<Rule>, m: Message, p: Profile)
    requires RulesDeclared(rules, p)
    ensures FirstTarget(rules, m) == Unsupported || TargetDeclared(FirstTarget(rules, m), p)
  {
    if rules != [] {
      assert TargetDeclared(rules[0].target, p);
      FirstTargetDeclared(rules[1..], m, p);
    }
  }

  lemma StepCounted(p: Profile, s: State, a: Action)
    requires WellFormed(p) && NoClash(p) && Conserved(p, s) && Counted(p, s)
    ensures Conserved(p, Step(p, s, a)) && Counted(p, Step(p, s, a))
  {
    StepConserved(p, s, a);
    if a.Receive? && s.callers.hand == W.Idle {
      var s' := Step(p, s, a);
      DeliverRouter(p, s, a.m, a.now, a.t1, a.t2);
      FirstTargetDeclared(p.pre, a.m, p);
      FirstTargetDeclared(p.post, a.m, p);
      var d := s'.ends[|s.ends|];
      forall c | c in p.commands
        ensures |RoutedTo(s'.received, s'.ends, c)| == |s'.router.enqueued[c]| + Drops(s'.router, c) {
        assert ChannelKept(s, c);
        RoutedSnoc(s.received, s.ends, a.m, d, c);
        if d.ByRule? { RouteToChannel(p, s.router, d.target, a.m, c); }
      }
    } else if !a.Receive? {
      OtherChannels(p, s, a);
    }
  }

  /** With a built profile whose command names do not clash with broadcast counters, per command channel:
      routed = enqueued + counted drops, over every run. */
  lemma {:induction false} DropsCounted(p: Profile, s: State, acts: seq<Action>)
    requires WellFormed(p) && NoClash(p) && Conserved(p, s) && Counted(p, s)
    ensures Conserved(p, Run(p, s, acts)) && Counted(p, Run(p, s, acts))
    decreases |acts|
  {
    if acts != [] {
      StepCounted(p, s, acts[0]);
      DropsCounted(p, Step(p, s, acts[0]), acts[1..]);
    }
  }

  /** The connected dispatcher: a queue per declared command channel, none subscribed. */
  function Connected(p: Profile): State {
    var empty := map c | c in p.commands :: [];
    State(Router(empty, map b | b in p.broadcasts :: [], map[], empty, empty), W.Init, NoStale, {}, 0, 0, [], [])
  }

  lemma ConnectedCounted(p: Profile)
    ensures Conserved(p, Connected(p)) && Counted(p, Connected(p)) && Tied(Connected(p))
  {
  }

  /** A built profile never routes to a missing channel. */
  lemma NeverMissing(p: Profile, s: State, m: Message, now: int, t1: int, t2: int)
    requires WellFormed(p) && Conserved(p, s)
    ensures
      var d := Deliver(p, s, m, now, t1, t2).ends[|s.ends|];
      d.ByRule? && d.target.ToCommand? ==> d.target.channel in s.router.commands
  {
    DeliverRouter(p, s, m, now, t1, t2);
    FirstTargetDeclared(p.pre, m, p);
    FirstTargetDeclared(p.post, m, p);
    var d := Deliver(p, s, m, now, t1, t2).ends[|s.ends|];
    if d.ByRule? && d.target.ToCommand? { assert ChannelKept(s, d.target.channel); }
  }

  /** One message at a time, the exact condition: the count of some command channel goes wrong exactly when the
      message fans out on a broadcast channel with a full subscriber whose counter bears that channel's name. */
  lemma CountedIff(p: Profile, s: State, m: Message, now: int, t1: int, t2: int)
    requires WellFormed(p) && Conserved(p, s) && Counted(p, s)
    ensures
      var s' := Deliver(p, s, m, now, t1, t2);
      var d := DisposeNow(p, s, m, now);
      && Conserved(p, s')
      && (Counted(p, s') <==>
          !(d.ByRule? && d.target.ToBroadcast? && BroadcastKey(d.target.channel) in p.commands &&
            d.target.channel in s.router.subscribers && Full(s.router.subscribers[d.target.channel]) > 0))
  {
    var s' := Deliver(p, s, m, now, t1, t2);
    DeliverConserved(p, s, m, now, t1, t2);
    DeliverRouter(p, s, m, now, t1, t2);
    var d := DisposeNow(p, s, m, now);
    forall c | c in p.commands
      ensures (|RoutedTo(s'.received, s'.ends, c)| == |s'.router.enqueued[c]| + Drops(s'.router, c)) <==>
              !(d.ByRule? && d.target.ToBroadcast? && BroadcastKey(d.target.channel) == c &&
                d.target.channel in s.router.subscribers && Full(s.router.subscribers[d.target.channel]) > 0)
    {
      assert ChannelKept(s, c);
      CountedChannel(p, s, s', m, d, c);
    }
    if d.ByRule? && d.target.ToBroadcast? {
      var c := BroadcastKey(d.target.channel);
      assert c in p.commands ==> ChannelKept(s', c);
    }
  }

  lemma CountedChannel(p: Profile, s: State, s': State, m: Message, d: Disposition, c: string)
    requires |s.received| == |s.ends| && ChannelKept(s, c)
    requires |RoutedTo(s.received, s.ends, c)| == |s.router.enqueued[c]| + Drops(s.router, c)
    requires s'.received == s.received + [m] && s'.ends == s.ends + [d]
    requires s'.router == (if d.ByRule? then RouteTo(s.router, d.target, m) else s.router)
    ensures c in s'.router.enqueued
    ensures (|RoutedTo(s'.received, s'.ends, c)| == |s'.router.enqueued[c]| + Drops(s'.router, c)) <==>
            !(d.ByRule? && d.target.ToBroadcast? && BroadcastKey(d.target.channel) == c &&
              d.target.channel in s.router.subscribers && Full(s.router.subscribers[d.target.channel]) > 0)
  {
    RoutedSnoc(s.received, s.ends, m, d, c);
    if d.ByRule? { RouteToChannel(p, s.router, d.target, m, c); }
  }

  // The clash, reached from a connected dispatcher.
  const ClashProfile := Profile(["broadcast:x"], ["x"], [], [Rule(AnyMessage, ToBroadcast("x"))])

  /** One subscriber that never reads, and n messages. */
  ghost function Flooded(m: Message, n: nat): State {
    if n == 0 then Step(ClashProfile, Connected(ClashProfile), Subscribe("x"))
    else Step(ClashProfile, Flooded(m, n - 1), Receive(m, 0, 0, 0))
  }

  /** One more message for the only subscriber. */
  lemma FloodOne(s: State, m: Message)
    requires m.trace == "" && s.shapes == {} && s.callers == W.Init
    requires "x" in s.router.subscribers && |s.router.subscribers["x"]| == 1
    ensures
      var s' := Deliver(ClashProfile, s, m, 0, 0, 0);
      && s'.shapes == {} && s'.callers == W.Init && s'.ends == s.ends + [ByRule(ToBroadcast("x"))]
      && "x" in s'.router.subscribers && s'.router.subscribers["x"] == [PushOne(s.router.subscribers["x"][0], m)]
      && (Full(s.router.subscribers["x"]) > 0 <==> |s.router.subscribers["x"][0]| >= CHANNEL_CAPACITY)
  {
    assert FirstTarget(ClashProfile.post, m) == ToBroadcast("x");
    var qs := s.router.subscribers["x"];
    assert qs[1..] == [] && PushAll(qs, m) == [PushOne(qs[0], m)];
  }

  ghost predicate FloodedWith(s: State, n: nat) {
    && Conserved(ClashProfile, s) && Counted(ClashProfile, s) && s.shapes == {} && s.callers == W.Init
    && "x" in s.router.subscribers && |s.router.subscribers["x"]| == 1 && |s.router.subscribers["x"][0]| == n
  }

  lemma FloodStep(s: State, m: Message, n: nat)
    requires m.trace == "" && n < CHANNEL_CAPACITY && FloodedWith(s, n)
    ensures FloodedWith(Deliver(ClashProfile, s, m, 0, 0, 0), n + 1)
  {
    FloodOne(s, m);
    CountedIff(ClashProfile, s, m, 0, 0, 0);
  }

  lemma {:induction false} FloodedQueue(m: Message, n: nat)
    requires m.trace == "" && n <= CHANNEL_CAPACITY
    ensures FloodedWith(Flooded(m, n), n)
  {
    if n == 0 {
      ConnectedCounted(ClashProfile);
      OtherChannels(ClashProfile, Connected(ClashProfile), Subscribe("x"));
    } else {
      FloodedQueue(m, n - 1);
      FloodStep(Flooded(m, n - 1), m, n - 1);
    }
  }

  /** The profile is built, yet the 65th message is counted as a drop of a command channel nothing was routed to. */
  lemma ClashMiscounts(m: Message, n: nat)
    requires m.trace == "" && n == CHANNEL_CAPACITY + 1
    ensures WellFormed(ClashProfile) && !NoClash(ClashProfile)
    ensures Conserved(ClashProfile, Flooded(m, n)) && !Counted(ClashProfile, Flooded(m, n))
  {
    var p, s := ClashProfile, Flooded(m, n - 1);
    FloodedQueue(m, n - 1);
    assert "x" in p.broadcasts && p.commands[0] == BroadcastKey("x");
    FloodOver(s, m);
    assert Flooded(m, n) == Deliver(p, s, m, 0, 0, 0);
  }

  lemma FloodOver(s: State, m: Message)
    requires m.trace == "" && FloodedWith(s, CHANNEL_CAPACITY)
    ensures
      var s' := Deliver(ClashProfile, s, m, 0, 0, 0);
      WellFormed(ClashProfile) && Conserved(ClashProfile, s') && !Counted(ClashProfile, s')
  {
    FloodOne(s, m);
    assert ClashProfile.commands[0] == BroadcastKey("x");
    CountedIff(ClashProfile, s, m, 0, 0, 0);
  }

  // ---- the dispatcher's own code ----

  class Dispatcher {
    const profile: Profile
    const stale: StaleTable
    const callers: W.PendingTable
    var shapes: set<Shape>
    var commands: map<string, seq<Message>>
    var subscribers: map<string, seq<seq<Message>>>
    var drops: map<string, nat>
    var orphanDrops: nat
    ghost var enqueued: map<string, seq<Message>>
    ghost var consumed: map<string, seq<Message>>
    ghost var received: seq<Message>
    ghost var ends: seq<Disposition>

    ghost function Queues(): Router
      reads this
    {
      Router(commands, subscribers, drops, enqueued, consumed)
    }

    ghost function View(): State
      reads this, callers, stale
    {
      State(Queues(), callers.View(), stale.View(), shapes, stale.drops, orphanDrops, received, ends)
    }

    /** Queues and histories are kept for the same channels. */
    ghost predicate SameChannels()
      reads this`enqueued, this`commands
    {
      enqueued.Keys == commands.Keys
    }

    ghost predicate Valid()
      reads this, callers
    {
      SameChannels() && callers.Valid() && callers.hand == W.Idle
    }

    constructor (p: Profile)
      ensures Valid() && View() == Connected(p) && profile == p && fresh(stale) && fresh(callers)
    {
      profile := p;
      stale := new StaleTable();
      callers := new W.PendingTable();
      shapes, drops, orphanDrops := {}, map[], 0;
      commands := map c | c in p.commands :: [];
      subscribers := map b | b in p.broadcasts :: [];
      enqueued := map c | c in p.commands :: [];
      consumed := map c | c in p.commands :: [];
      received, ends := [], [];
    }

    method NoteDrop(key: string)
      modifies this`drops
      ensures Queues() == AddDrops(old(Queues()), key, 1)
    {
      drops := drops[key := (if key in drops then drops[key] else 0) + 1];
    }

    method RouteToTarget(t: Target, m: Message) returns (taken: bool)
      requires SameChannels()
      modifies this`commands, this`subscribers, this`drops, this`enqueued
      ensures SameChannels() && Queues() == RouteTo(old(Queues()), t, m) && (taken <==> t != Unsupported)
    {
      match t {
        case ToCommand(c) =>
          if c !in commands {
            return true;
          }
          if |commands[c]| < CHANNEL_CAPACITY {
            commands := commands[c := commands[c] + [m]];
            enqueued := enqueued[c := enqueued[c] + [m]];
          } else {
            NoteDrop(c);
          }
          return true;
        case ToBroadcast(b) =>
          FanOut(b, m);
          return true;
        case DropIt => return true;
        case Unsupported => return false;
      }
    }

    /** One subscriber: the message, or one more drop. */
    method PushSubscriber(q: seq<Message>, b: string, m: Message) returns (q': seq<Message>)
      modifies this`drops
      ensures q' == PushOne(q, m)
      ensures Queues() == AddDrops(old(Queues()), BroadcastKey(b), if |q| < CHANNEL_CAPACITY then 0 else 1)
    {
      if |q| < CHANNEL_CAPACITY {
        return q + [m];
      }
      NoteDrop("broadcast:" + b);
      return q;
    }

    method FanOut(b: string, m: Message)
      modifies this`subscribers, this`drops
      ensures Queues() == SendBroadcast(old(Queues()), b, m)
    {
      if b !in subscribers || subscribers[b] == [] {
        return;
      }
      var qs := subscribers[b];
      var pushed: seq<seq<Message>> := [];
      var k := 0;
      while k < |qs|
        invariant 0 <= k <= |qs| && pushed == PushAll(qs[..k], m) && subscribers == old(subscribers)
        invariant Queues() == AddDrops(old(Queues()), BroadcastKey(b), Full(qs[..k]))
      {
        PushAllSnoc(qs, k, m);
        AddDropsTwice(old(Queues()), BroadcastKey(b), Full(qs[..k]), if |qs[k]| < CHANNEL_CAPACITY then 0 else 1);
        var q := PushSubscriber(qs[k], b, m);
        pushed, k := pushed + [q], k + 1;
      }
      assert qs[..k] == qs;
      subscribers := subscribers[b := pushed];
    }

    /** The first rule that matches decides. */
    method RouteByRules(rules: seq<Rule>, m: Message) returns (taken: bool)
      requires SameChannels()
      modifies this`commands, this`subscribers, this`drops, this`enqueued
      ensures SameChannels() && Queues() == RouteTo(old(Queues()), FirstTarget(rules, m), m)
      ensures taken <==> FirstTarget(rules, m) != Unsupported
    {
      var k := 0;
      while k < |rules|
        invariant 0 <= k <= |rules| && FirstTarget(rules, m) == FirstTarget(rules[k..], m)
        invariant SameChannels() && Queues() == old(Queues())
      {
        assert rules[k..][1..] == rules[k + 1..];
        if MatchesRoute(rules[k].route, m.msgType, m.name) {
          taken := RouteToTarget(rules[k].target, m);
          return;
        }
        k := k + 1;
      }
      return false;
    }

    /** The waiter whose matcher takes the message is taken out, its trace_id is closed, its channel gets the result. */
    method Resolve(m: Message, t1: int, t2: int) returns (taken: bool)
      requires Valid()
      modifies this`received, this`ends, callers, stale
      ensures Valid() && (taken <==> W.Waiting(old(callers.View()), m) != Unrelated)
      ensures View() == if taken then Claimed(old(View()), m, t1, t2) else old(View())
    {
      ghost var s := View();
      var found := callers.Take(m);
      if found.None? {
        return false;
      }
      Claim(found.value, m, t1, t2, s);
      return true;
    }

    method Claim(w: W.WaiterId, m: Message, t1: int, t2: int, ghost s: State)
      requires W.KnownKeys(s.callers) && s.callers.hand == W.Idle && W.Waiting(s.callers, m) != Unrelated
      requires s.callers.pending[m.trace] == w && View() == s.(callers := W.TakenOut(s.callers, m))
      requires SameChannels() && callers.Valid()
      modifies this`received, this`ends, callers, stale
      ensures Valid() && View() == Claimed(s, m, t1, t2)
    {
      stale.NoteStale(m.trace, callers.waiters[w].matcher, t1, t2);
      Finish(w, m, s.callers);
      ClaimedParts(s, m, t1, t2);
    }

    /** The waiter is out of the pending map: its result is written. */
    method Finish(w: W.WaiterId, m: Message, ghost c: W.State)
      requires W.KnownKeys(c) && c.hand == W.Idle && W.Waiting(c, m) != Unrelated && c.pending[m.trace] == w
      requires callers.Valid() && callers.View() == W.TakenOut(c, m)
      modifies this`received, this`ends, callers
      ensures callers.Valid() && callers.hand == W.Idle && callers.View() == Settled(c, m)
      ensures received == old(received) + [m] && ends == old(ends) + [Resolved(w, W.Waiting(c, m))]
    {
      var matcher := callers.waiters[w].matcher;
      W.TakenOutThenWritten(c, m);
      callers.Put(w, W.ResultOf(matcher, m));
      received, ends := received + [m], ends + [Resolved(w, Classify(matcher, m.msgType, m.name))];
    }

    method DeliverMessage(m: Message, now: int, t1: int, t2: int)
      requires Valid()
      modifies this, callers, stale
      ensures Valid() && View() == Deliver(profile, old(View()), m, now, t1, t2)
    {
      var taken := RouteByRules(profile.pre, m);
      if taken {
        received, ends := received + [m], ends + [ByRule(FirstTarget(profile.pre, m))];
        return;
      }
      assert View() == old(View());
      taken := Resolve(m, t1, t2);
      if !taken {
        assert View() == old(View());
        DeliverUnclaimed(m, now);
      }
    }

    /** The stale table, the reply shapes, then the post-pending rules. */
    method DeliverUnclaimed(m: Message, now: int)
      requires SameChannels()
      modifies this`commands, this`subscribers, this`drops, this`enqueued, this`orphanDrops, this`received, this`ends,
        stale
      ensures SameChannels() && View() == Unclaimed(profile, old(View()), m, Looked(old(View()), m, now))
    {
      ghost var d := EndUnclaimed(profile, Looked(View(), m, now), shapes, m);
      var dropped := DropReply(m, now);
      if !dropped {
        var _ := RouteByRules(profile.post, m);
      }
      received, ends := received + [m], ends + [d];
    }

    /** A late reply, or one of a shape that was only ever asked for, is counted and goes no further. */
    method DropReply(m: Message, now: int) returns (dropped: bool)
      modifies this`orphanDrops, stale
      ensures
        var looked := if m.trace == "" then old(stale.View()) else Gc(old(stale.View()), now);
        var late := IsLate(looked, m);
        var orphan := !late && (m.msgType, m.name) in shapes;
        && stale.View() == looked && (dropped <==> late || orphan)
        && stale.drops == old(stale.drops) + (if late then 1 else 0)
        && orphanDrops == old(orphanDrops) + if orphan then 1 else 0
    {
      var late := stale.ClassifyStale(m.trace, m.msgType, m.name, now);
      if late {
        return true;
      }
      if (m.msgType, m.name) in shapes {
        orphanDrops := orphanDrops + 1;
        return true;
      }
      return false;
    }
  }
}
