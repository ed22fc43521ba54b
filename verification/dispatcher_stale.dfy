/** Matchers, and the table of recently closed trace_ids that tells a late reply from fresh traffic. */
module DispatcherStale {

  // ---- route predicates ----

  datatype RouteMatch =
    | Exact(msgType: string, msg: string)
    | OneOf(msgType: string, msgs: seq<string>)
    | AnyOfType(msgType: string)
    | AnyMessage

  predicate MatchesRoute(m: RouteMatch, msgType: string, msg: string) {
    match m
    case Exact(t, name) => msgType == t && msg == name
    case OneOf(t, names) => msgType == t && msg in names
    case AnyOfType(t) => msgType == t
    case AnyMessage => true
  }

  predicate AnyMatches(rules: seq<RouteMatch>, msgType: string, msg: string) {
    exists i :: 0 <= i < |rules| && MatchesRoute(rules[i], msgType, msg)
  }

  datatype Matcher = Matcher(success: seq<RouteMatch>, terminal: seq<RouteMatch>, invalid: seq<RouteMatch>)
  datatype Outcome = Unrelated | Success | TerminalError | InvalidResponse

  function Classify(m: Matcher, msgType: string, msg: string): Outcome {
    if AnyMatches(m.success, msgType, msg) then Success
    else if AnyMatches(m.terminal, msgType, msg) then TerminalError
    else if AnyMatches(m.invalid, msgType, msg) then InvalidResponse
    else Unrelated
  }

  /** A route takes a message by its type and, unless it is of a family, its name. */
  lemma RouteTakes(r: RouteMatch, msgType: string, msg: string)
    ensures MatchesRoute(r, msgType, msg) <==>
      r.AnyMessage? ||
      (r.msgType == msgType &&
       (r.AnyOfType? || (r.Exact? && r.msg == msg) || (r.OneOf? && exists i :: 0 <= i < |r.msgs| && r.msgs[i] == msg)))
  {
  }

  /** Some rule of the list takes the message. */
  ghost predicate TakenBy(rules: seq<RouteMatch>, msgType: string, msg: string) {
    exists i :: 0 <= i < |rules| && MatchesRoute(rules[i], msgType, msg)
  }

  /** Success before failure before a malformed answer, each by some rule of its own list; else not meant for it. */
  lemma ClassifyMeans(m: Matcher, msgType: string, msg: string)
    ensures
      var good, bad, odd := TakenBy(m.success, msgType, msg), TakenBy(m.terminal, msgType, msg),
        TakenBy(m.invalid, msgType, msg);
      && (Classify(m, msgType, msg) == Success <==> good)
      && (Classify(m, msgType, msg) == TerminalError <==> !good && bad)
      && (Classify(m, msgType, msg) == InvalidResponse <==> !good && !bad && odd)
      && (Classify(m, msgType, msg) == Unrelated <==> !good && !bad && !odd)
  {
  }

  // ---- the stale table as a value ----

  const RECENT_STALE_TTL := 30_000
  const RECENT_STALE_MAX := 1024

  datatype StaleEntry = StaleEntry(matcher: Matcher, expiresAt: int)
  datatype Stale = Stale(entries: map<string, StaleEntry>, order: seq<string>)

  const NoStale := Stale(map[], [])

  function Gc(st: Stale, now: int): Stale
    decreases |st.order|
  {
    if st.order == [] then st
    else
      var front := st.order[0];
      if front !in st.entries then Gc(st.(order := st.order[1..]), now)
      else if st.entries[front].expiresAt > now then st
      else Gc(Stale(st.entries - {front}, st.order[1..]), now)
  }

  /** Room for one more: the oldest goes when the table is full. */
  function Evict(st: Stale): Stale {
    if |st.entries| >= RECENT_STALE_MAX && st.order != []
    then Stale(st.entries - {st.order[0]}, st.order[1..]) else st
  }

  /** The entry of id is written; a new one goes to the end of the order. */
  function Refresh(e: Stale, id: string, m: Matcher, expiresAt: int): Stale {
    Stale(e.entries[id := StaleEntry(m, expiresAt)], if id in e.entries then e.order else e.order + [id])
  }

  /** A trace_id is closed: expired entries go first (clock t1), its own time runs from t2. */
  function Note(st: Stale, id: string, m: Matcher, t1: int, t2: int): Stale {
    if id == "" then st
    else
      var e := Evict(Gc(st, t1));
      Refresh(e, id, m, t2 + RECENT_STALE_TTL)
  }

  // ---- what every operation keeps ----

  ghost predicate Distinct(s: seq<string>) {
    forall i, j :: 0 <= i < j < |s| ==> s[i] != s[j]
  }

  /** The order lists the keys, each once, and there are at most 1024. */
  ghost predicate Consistent(st: Stale) {
    && Distinct(st.order) && |st.order| <= RECENT_STALE_MAX
    && (forall id :: id in st.entries <==> id in st.order)
  }

  ghost predicate SortedByExpiry(st: Stale) {
    && (forall id :: id in st.order ==> id in st.entries)
    && forall i, j :: 0 <= i < j < |st.order| ==> st.entries[st.order[i]].expiresAt <= st.entries[st.order[j]].expiresAt
  }

  /** The table without the entry at the front of its order. */
  function Front(st: Stale): Stale
    requires st.order != []
  {
    Stale(st.entries - {st.order[0]}, st.order[1..])
  }

  lemma FrontConsistent(st: Stale)
    requires Consistent(st) && st.order != []
    ensures Consistent(Front(st))
  {
    var st' := Front(st);
    forall i, j | 0 <= i < j < |st'.order| ensures st'.order[i] != st'.order[j] {
      assert st'.order[i] == st.order[i + 1] && st'.order[j] == st.order[j + 1];
    }
    forall id ensures id in st'.entries <==> id in st'.order {
      assert id in st.order <==> id == st.order[0] || id in st'.order by {
        assert st.order == [st.order[0]] + st'.order;
      }
      assert st.order[0] !in st'.order;
    }
  }

  lemma FrontSorted(st: Stale)
    requires Consistent(st) && st.order != [] && SortedByExpiry(st)
    ensures SortedByExpiry(Front(st))
  {
    FrontConsistent(st);
    var st' := Front(st);
    forall i, j | 0 <= i < j < |st'.order|
      ensures st'.entries[st'.order[i]].expiresAt <= st'.entries[st'.order[j]].expiresAt
    {
      assert st'.order[i] == st.order[i + 1] && st'.order[j] == st.order[j + 1];
    }
  }

  lemma DropFront(st: Stale)
    requires Consistent(st) && st.order != []
    ensures Consistent(Front(st)) && (SortedByExpiry(st) ==> SortedByExpiry(Front(st)))
  {
    FrontConsistent(st);
    if SortedByExpiry(st) { FrontSorted(st); }
  }

  lemma {:induction false} GcKeeps(st: Stale, now: int)
    requires Consistent(st)
    ensures Consistent(Gc(st, now)) && (SortedByExpiry(st) ==> SortedByExpiry(Gc(st, now)))
    ensures |Gc(st, now).order| <= |st.order|
    decreases |st.order|
  {
    if st.order != [] && st.order[0] in st.entries && st.entries[st.order[0]].expiresAt <= now {
      DropFront(st);
      GcKeeps(Front(st), now);
    }
  }

  lemma OneKeyLess(entries: map<string, StaleEntry>, id: string)
    requires id in entries
    ensures |entries| == |entries - {id}| + 1
  {
    var fewer := entries - {id};
    assert entries.Keys == fewer.Keys + {id};
    assert |entries.Keys| == |entries| && |fewer.Keys| == |fewer|;
  }

  lemma {:induction false} EntriesCount(st: Stale)
    requires Consistent(st)
    ensures |st.entries| == |st.order|
    decreases |st.order|
  {
    if st.order == [] {
      assert st.entries == map[];
    } else {
      DropFront(st);
      var front := st.order[0];
      EntriesCount(Front(st));
      OneKeyLess(st.entries, front);
    }
  }

  lemma EvictKeeps(st: Stale)
    requires Consistent(st)
    ensures Consistent(Evict(st)) && |Evict(st).order| < RECENT_STALE_MAX
    ensures SortedByExpiry(st) ==> SortedByExpiry(Evict(st))
  {
    EntriesCount(st);
    if st.order != [] { DropFront(st); }
  }

  /** Whatever is closed, and however often, the table stays consistent and bounded. */
  lemma NoteKeeps(st: Stale, id: string, m: Matcher, t1: int, t2: int)
    requires Consistent(st)
    ensures Consistent(Note(st, id, m, t1, t2))
  {
    GcKeeps(st, t1);
    EvictKeeps(Gc(st, t1));
  }

  /** On a sorted table, gc removes exactly the expired entries. */
  lemma {:induction false} GcExact(st: Stale, now: int)
    requires Consistent(st) && SortedByExpiry(st)
    ensures forall id :: id in Gc(st, now).entries <==> id in st.entries && st.entries[id].expiresAt > now
    ensures forall id :: id in Gc(st, now).entries ==> Gc(st, now).entries[id] == st.entries[id]
    decreases |st.order|
  {
    if st.order != [] {
      var front := st.order[0];
      if st.entries[front].expiresAt <= now {
        DropFront(st);
        GcExact(Front(st), now);
      } else {
        forall id | id in st.entries ensures st.entries[id].expiresAt > now {
          var i :| 0 <= i < |st.order| && st.order[i] == id;
        }
      }
    }
  }

  ghost predicate LiveAt(st: Stale, now: int, i: nat) {
    i < |st.order| && st.order[i] in st.entries && st.entries[st.order[i]].expiresAt > now
  }

  ghost predicate ExpiredAt(st: Stale, now: int, i: nat) {
    i < |st.order| && st.order[i] in st.entries && st.entries[st.order[i]].expiresAt <= now
  }

  /** Some entry at or before place i of the order is still live. */
  ghost predicate Shielded(st: Stale, now: int, i: nat) { exists j: nat :: j <= i && LiveAt(st, now, j) }

  lemma {:induction false} GcShrinks(st: Stale, now: int)
    ensures forall id :: id in Gc(st, now).entries ==> id in st.entries && Gc(st, now).entries[id] == st.entries[id]
    decreases |st.order|
  {
    if st.order != [] {
      if st.order[0] !in st.entries {
        GcShrinks(st.(order := st.order[1..]), now);
      } else if st.entries[st.order[0]].expiresAt <= now {
        GcShrinks(Front(st), now);
      }
    }
  }

  lemma LiveShift(st: Stale, now: int, j: nat)
    requires Consistent(st) && st.order != [] && j + 1 < |st.order|
    ensures LiveAt(Front(st), now, j) <==> LiveAt(st, now, j + 1)
  {
    assert Front(st).order[j] == st.order[j + 1];
  }

  lemma ShieldedShift(st: Stale, now: int, i: nat)
    requires Consistent(st) && 0 < i < |st.order| && !LiveAt(st, now, 0)
    ensures Shielded(st, now, i) <==> Shielded(Front(st), now, i - 1)
  {
    if Shielded(st, now, i) {
      var j: nat :| j <= i && LiveAt(st, now, j);
      LiveShift(st, now, j - 1);
    }
    if Shielded(Front(st), now, i - 1) {
      var j: nat :| j <= i - 1 && LiveAt(Front(st), now, j);
      LiveShift(st, now, j);
    }
  }

  /** What gc does to any consistent table: an entry stays exactly when it, or one before it in the order, is live. */
  lemma {:induction false} GcStays(st: Stale, now: int, i: nat)
    requires Consistent(st) && i < |st.order|
    ensures st.order[i] in Gc(st, now).entries <==> Shielded(st, now, i)
    decreases |st.order|
  {
    if LiveAt(st, now, 0) {
      assert Gc(st, now) == st;
    } else {
      assert st.order[0] in st.order;
      assert Gc(st, now) == Gc(Front(st), now);
      if i == 0 {
        GcShrinks(Front(st), now);
      } else {
        FrontConsistent(st);
        assert Front(st).order[i - 1] == st.order[i];
        GcStays(Front(st), now, i - 1);
        ShieldedShift(st, now, i);
      }
    }
  }

  /** gc removes exactly what expired. */
  ghost predicate GcIsExact(st: Stale, now: int) {
    forall i: nat :: i < |st.order| ==> (st.order[i] in Gc(st, now).entries <==> LiveAt(st, now, i))
  }

  /** An expired entry stands behind a live one. */
  ghost predicate ExpiredBehindLive(st: Stale, now: int) {
    exists i: nat, j: nat :: i < j && LiveAt(st, now, i) && ExpiredAt(st, now, j)
  }

  /** On every consistent table, sorted or not: gc removes exactly the expired entries if and only if none of them
      stands behind a live one. */
  lemma GcExactIff(st: Stale, now: int)
    requires Consistent(st)
    ensures GcIsExact(st, now) <==> !ExpiredBehindLive(st, now)
  {
    forall i: nat | i < |st.order|
      ensures st.order[i] in Gc(st, now).entries <==> Shielded(st, now, i)
      ensures LiveAt(st, now, i) <==> !ExpiredAt(st, now, i)
    {
      GcStays(st, now, i);
      assert st.order[i] in st.order;
    }
    if i: nat, j: nat :| i < j && LiveAt(st, now, i) && ExpiredAt(st, now, j) {
      assert Shielded(st, now, j);
    }
  }

  /** gc is exact at every later instant if and only if the order is sorted by expiry. */
  lemma SortedIffExact(st: Stale)
    requires Consistent(st)
    ensures SortedByExpiry(st) <==> forall now :: GcIsExact(st, now)
  {
    assert forall id :: id in st.order ==> id in st.entries;
    if SortedByExpiry(st) {
      forall now ensures GcIsExact(st, now) { GcExactIff(st, now); }
    }
    if forall now :: GcIsExact(st, now) {
      forall i, j | 0 <= i < j < |st.order|
        ensures st.entries[st.order[i]].expiresAt <= st.entries[st.order[j]].expiresAt
      {
        var now := st.entries[st.order[j]].expiresAt;
        assert GcIsExact(st, now);
        GcExactIff(st, now);
        assert ExpiredAt(st, now, j) && !LiveAt(st, now, i);
      }
    }
  }

  /** Closing a trace_id leaves a sorted order exactly when the other entries are sorted and nothing that stands after
      it, if it was in the table already, expires before its new time. */
  lemma RefreshSortedIff(e: Stale, id: string, m: Matcher, t: int)
    requires Consistent(e) && forall x :: x in e.entries ==> e.entries[x].expiresAt <= t
    ensures SortedByExpiry(Refresh(e, id, m, t)) <==>
      && (forall i, j :: 0 <= i < j < |e.order| && e.order[i] != id && e.order[j] != id ==>
            e.entries[e.order[i]].expiresAt <= e.entries[e.order[j]].expiresAt)
      && (forall i, j :: 0 <= i < j < |e.order| && e.order[i] == id ==> e.entries[e.order[j]].expiresAt == t)
  {
    var n := Refresh(e, id, m, t);
    assert forall x :: x in e.order ==> x in e.entries;
    assert |n.order| >= |e.order| && forall i :: 0 <= i < |e.order| ==> n.order[i] == e.order[i];
    if SortedByExpiry(n) {
      forall i, j | 0 <= i < j < |e.order| && e.order[i] == id ensures e.entries[e.order[j]].expiresAt == t {
        assert n.entries[n.order[i]].expiresAt <= n.entries[n.order[j]].expiresAt;
      }
      forall i, j | 0 <= i < j < |e.order| && e.order[i] != id && e.order[j] != id
        ensures e.entries[e.order[i]].expiresAt <= e.entries[e.order[j]].expiresAt
      {
        assert n.entries[n.order[i]].expiresAt <= n.entries[n.order[j]].expiresAt;
      }
    }
  }

  /** Closed twice (a reply that crosses its own timeout), a trace_id at the front outlives its
      neighbours' expiry: gc then keeps an entry that expired. */
  lemma ClosedTwiceKeepsExpired(m: Matcher)
    ensures
      var st := Note(Note(Note(NoStale, "a", m, 0, 0), "b", m, 0, 0), "a", m, 10, 10);
      "b" in Gc(st, 30_005).entries && st.entries["b"].expiresAt <= 30_005
  {
    var s1 := Note(NoStale, "a", m, 0, 0);
    assert s1.order == ["a"];
    var s2 := Note(s1, "b", m, 0, 0);
    assert Gc(s1, 0) == s1 && s2.order == ["a", "b"];
    var s3 := Note(s2, "a", m, 10, 10);
    assert Gc(s2, 10) == s2 && s3.order == ["a", "b"];
  }

  // ---- each trace_id closed once: the last 1024 closings of the past 30 s ----

  datatype Closing = Closing(id: string, matcher: Matcher, t1: int, t2: int)

  ghost predicate ClosedOnce(h: seq<Closing>) {
    && (forall i :: 0 <= i < |h| ==> h[i].id != "" && h[i].t1 <= h[i].t2)
    && (forall i, j :: 0 <= i < j < |h| ==> h[i].id != h[j].id && h[i].t2 <= h[j].t1)
  }

  function DropExpired(h: seq<Closing>, now: int): seq<Closing> {
    if h == [] || h[0].t2 + RECENT_STALE_TTL > now then h else DropExpired(h[1..], now)
  }

  function LastMax(h: seq<Closing>): seq<Closing> {
    if |h| <= RECENT_STALE_MAX then h else h[|h| - RECENT_STALE_MAX..]
  }

  function Recent(h: seq<Closing>, now: int): seq<Closing> { DropExpired(LastMax(h), now) }

  /** The table holds exactly these closings, in order. */
  ghost predicate Shows(st: Stale, h: seq<Closing>) {
    && |st.order| == |h|
    && (forall i :: 0 <= i < |h| ==> st.order[i] == h[i].id && h[i].id in st.entries &&
                                     st.entries[h[i].id] == StaleEntry(h[i].matcher, h[i].t2 + RECENT_STALE_TTL))
    && (forall id :: id in st.entries ==> id in st.order)
  }

  lemma {:induction false} DropExpiredSuffix(h: seq<Closing>, now: int)
    ensures |DropExpired(h, now)| <= |h| && DropExpired(h, now) == h[|h| - |DropExpired(h, now)|..]
  {
    if h != [] && h[0].t2 + RECENT_STALE_TTL <= now { DropExpiredSuffix(h[1..], now); }
  }

  lemma ShowsTail(st: Stale, h: seq<Closing>)
    requires ClosedOnce(h) && h != [] && Shows(st, h)
    ensures ClosedOnce(h[1..]) && Shows(Stale(st.entries - {st.order[0]}, st.order[1..]), h[1..])
  {
    var st' := Stale(st.entries - {st.order[0]}, st.order[1..]);
    forall id | id in st'.entries ensures id in st'.order {
      var i :| 0 <= i < |st.order| && st.order[i] == id;
      assert st'.order[i - 1] == id;
    }
  }

  /** gc on such a table drops the expired closings. */
  lemma {:induction false} GcShows(st: Stale, h: seq<Closing>, now: int)
    requires ClosedOnce(h) && Shows(st, h)
    ensures ClosedOnce(DropExpired(h, now)) && Shows(Gc(st, now), DropExpired(h, now))
    decreases |h|
  {
    if h != [] && h[0].t2 + RECENT_STALE_TTL <= now {
      ShowsTail(st, h);
      GcShows(Stale(st.entries - {st.order[0]}, st.order[1..]), h[1..], now);
    }
  }

  lemma ShowsCount(st: Stale, h: seq<Closing>)
    requires ClosedOnce(h) && Shows(st, h) && |h| <= RECENT_STALE_MAX
    ensures |st.entries| == |h|
  {
    assert Consistent(st) by {
      forall id | id in st.order ensures id in st.entries {
        var i :| 0 <= i < |st.order| && st.order[i] == id;
        assert h[i].id in st.entries;
      }
    }
    EntriesCount(st);
  }

  lemma {:induction false} DropTwice(h: seq<Closing>, a: int, b: int)
    requires a <= b
    ensures DropExpired(DropExpired(h, a), b) == DropExpired(h, b)
  {
    if h != [] { DropTwice(h[1..], a, b); }
  }

  lemma {:induction false} DropAppend(h: seq<Closing>, c: Closing, now: int)
    requires c.t2 + RECENT_STALE_TTL > now
    ensures DropExpired(h + [c], now) == DropExpired(h, now) + [c]
  {
    if h == [] {
      assert h + [c] == [c];
    } else if h[0].t2 + RECENT_STALE_TTL <= now {
      assert (h + [c])[1..] == h[1..] + [c];
      DropAppend(h[1..], c, now);
    }
  }

  lemma DropOne(w: seq<Closing>, now: int)
    requires w != [] && (|w| >= 2 ==> w[0].t2 <= w[1].t2)
    ensures DropExpired(w[1..], now) == if DropExpired(w, now) == w then w[1..] else DropExpired(w, now)
    ensures DropExpired(w, now) != w ==> |DropExpired(w, now)| < |w|
  {
    DropExpiredSuffix(w[1..], now);
  }

  /** Dropping the oldest of a full window, or of one not full, leaves the window one closing later. */
  lemma WindowMoves(h: seq<Closing>, c: Closing, live: seq<Closing>)
    requires ClosedOnce(h) && c.t1 <= c.t2 && live == Recent(h, c.t1)
    ensures Recent(h + [c], c.t1) == (if |live| >= RECENT_STALE_MAX then live[1..] else live) + [c]
  {
    var w := LastMax(h);
    DropExpiredSuffix(w, c.t1);
    if |h| < RECENT_STALE_MAX {
      DropAppend(h, c, c.t1);
    } else {
      assert LastMax(h + [c]) == w[1..] + [c];
      DropAppend(w[1..], c, c.t1);
      DropOne(w, c.t1);
    }
  }

  lemma ShowsSnoc(st: Stale, h: seq<Closing>, c: Closing)
    requires ClosedOnce(h + [c]) && Shows(st, h)
    ensures Shows(Refresh(st, c.id, c.matcher, c.t2 + RECENT_STALE_TTL), h + [c])
  {
    var h' := h + [c];
    forall i | 0 <= i < |h| ensures h[i].id != c.id { assert h'[i] == h[i] && h'[|h|] == c; }
    assert c.id !in st.order;
  }

  lemma SuffixClosedOnce(h: seq<Closing>, now: int)
    requires ClosedOnce(h)
    ensures ClosedOnce(Recent(h, now)) && |Recent(h, now)| <= RECENT_STALE_MAX
    ensures |Recent(h, now)| <= |h| && Recent(h, now) == h[|h| - |Recent(h, now)|..]
  {
    DropExpiredSuffix(LastMax(h), now);
    var k := |Recent(h, now)|;
    assert Recent(h, now) == h[|h| - k..];
  }

  /** Closing one more: a table of the recent closings becomes the table of the recent closings. */
  lemma NoteRefines(st: Stale, h: seq<Closing>, asOf: int, c: Closing)
    requires ClosedOnce(h) && ClosedOnce(h + [c]) && c.id != "" && c.t1 <= c.t2 && asOf <= c.t1
    requires Shows(st, Recent(h, asOf))
    ensures Shows(Note(st, c.id, c.matcher, c.t1, c.t2), Recent(h + [c], c.t1))
  {
    var live := Recent(h, c.t1);
    GcRefines(st, h, asOf, c.t1);
    SuffixClosedOnce(h, c.t1);
    WindowMoves(h, c, live);
    SuffixClosedOnce(h + [c], c.t1);
    EvictShows(Gc(st, c.t1), live);
    var kept := if |live| >= RECENT_STALE_MAX then live[1..] else live;
    NoteShows(st, Evict(Gc(st, c.t1)), kept, c);
  }

  lemma NoteShows(st: Stale, e: Stale, kept: seq<Closing>, c: Closing)
    requires e == Evict(Gc(st, c.t1)) && c.id != "" && Shows(e, kept) && ClosedOnce(kept + [c])
    ensures Shows(Note(st, c.id, c.matcher, c.t1, c.t2), kept + [c])
  {
    var n := Note(st, c.id, c.matcher, c.t1, c.t2);
    assert n == Refresh(e, c.id, c.matcher, c.t2 + RECENT_STALE_TTL);
    assert Shows(n, kept + [c]) by { ShowsSnoc(e, kept, c); }
  }

  lemma EvictShows(st: Stale, live: seq<Closing>)
    requires ClosedOnce(live) && Shows(st, live) && |live| <= RECENT_STALE_MAX
    ensures Shows(Evict(st), if |live| >= RECENT_STALE_MAX then live[1..] else live)
  {
    ShowsCount(st, live);
    if |live| >= RECENT_STALE_MAX { ShowsTail(st, live); }
  }

  /** A look at the table at a later time: the same closings, without those that expired meanwhile. */
  lemma GcRefines(st: Stale, h: seq<Closing>, asOf: int, now: int)
    requires ClosedOnce(h) && asOf <= now && Shows(st, Recent(h, asOf))
    ensures Shows(Gc(st, now), Recent(h, now))
  {
    SuffixClosedOnce(h, asOf);
    GcShows(st, Recent(h, asOf), now);
    DropTwice(LastMax(h), asOf, now);
  }

  /** What the table holds: a closing is in it exactly when it is one of the last 1024 and less than 30 s old. */
  lemma TableHolds(st: Stale, h: seq<Closing>, now: int, i: nat)
    requires ClosedOnce(h) && i < |h| && Shows(st, Recent(h, now))
    ensures h[i].id in st.entries <==> i >= |h| - RECENT_STALE_MAX && now < h[i].t2 + RECENT_STALE_TTL
    ensures h[i].id in st.entries ==> st.entries[h[i].id].matcher == h[i].matcher
  {
    var live := Recent(h, now);
    SuffixClosedOnce(h, now);
    RecentExact(h, now, i);
    var k := |h| - |live|;
    if i >= k { assert live[i - k] == h[i]; }
    if h[i].id in st.entries {
      var j :| 0 <= j < |st.order| && st.order[j] == h[i].id;
      assert live[j] == h[k + j];
    }
  }

  lemma RecentExact(h: seq<Closing>, now: int, i: nat)
    requires ClosedOnce(h) && i < |h|
    ensures i >= |h| - |Recent(h, now)| <==> i >= |h| - RECENT_STALE_MAX && now < h[i].t2 + RECENT_STALE_TTL
  {
    var w := LastMax(h);
    DropExpiredSuffix(w, now);
    DropExpiredExact(w, now);
    if i >= |h| - |w| { assert w[i - (|h| - |w|)] == h[i]; }
  }

  lemma {:induction false} DropExpiredExact(h: seq<Closing>, now: int)
    requires ClosedOnce(h)
    ensures forall i :: 0 <= i < |h| ==> (i >= |h| - |DropExpired(h, now)| <==> now < h[i].t2 + RECENT_STALE_TTL)
  {
    if h != [] && h[0].t2 + RECENT_STALE_TTL <= now {
      DropExpiredExact(h[1..], now);
      DropExpiredSuffix(h[1..], now);
      forall i | 0 <= i < |h| ensures i >= |h| - |DropExpired(h, now)| <==> now < h[i].t2 + RECENT_STALE_TTL {
        if i > 0 { assert h[i] == h[1..][i - 1]; }
      }
    }
  }

  // ---- the table the dispatcher updates in place ----

  class StaleTable {
    var entries: map<string, StaleEntry>
    var order: seq<string>
    var drops: nat

    ghost function View(): Stale
      reads this
    {
      Stale(entries, order)
    }

    constructor ()
      ensures View() == NoStale && drops == 0
    {
      entries, order, drops := map[], [], 0;
    }

    method Collect(now: int)
      modifies this`entries, this`order
      ensures View() == Gc(old(View()), now)
    {
      while order != []
        invariant Gc(View(), now) == Gc(old(View()), now)
        decreases |order|
      {
        var front := order[0];
        if front !in entries {
          order := order[1..];
        } else if entries[front].expiresAt > now {
          return;
        } else {
          order := order[1..];
          entries := entries - {front};
        }
      }
    }

    method NoteStale(id: string, m: Matcher, t1: int, t2: int)
      modifies this`entries, this`order
      ensures View() == Note(old(View()), id, m, t1, t2)
    {
      if id == "" {
        return;
      }
      Collect(t1);
      if |entries| >= RECENT_STALE_MAX {
        if |order| > 0 {
          var oldest := order[0];
          order := order[1..];
          entries := entries - {oldest};
        }
      }
      if id !in entries {
        order := order + [id];
      }
      entries := entries[id := StaleEntry(m, t2 + RECENT_STALE_TTL)];
    }

    /** Whether a message is a late reply to a recently closed trace_id; it is then counted and dropped. */
    method ClassifyStale(id: string, msgType: string, msg: string, now: int) returns (late: bool)
      modifies this
      ensures late <==> id != "" && id in Gc(old(View()), now).entries &&
                        Classify(Gc(old(View()), now).entries[id].matcher, msgType, msg) != Unrelated
      ensures View() == (if id == "" then old(View()) else Gc(old(View()), now))
      ensures drops == old(drops) + if late then 1 else 0
    {
      if id == "" {
        return false;
      }
      Collect(now);
      if id !in entries {
        return false;
      }
      late := Classify(entries[id].matcher, msgType, msg) != Unrelated;
      if late {
        drops := drops + 1;
      }
    }
  }
}
