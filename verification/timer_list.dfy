/**
 TIMER_LIST: the server answers pages that fit one frame, the client follows their cursors. On a table
 that does not change, the client gets exactly the first `limit` matching timers in (fire_at, uuid) order.
 */
module TimerList {
  import opened Basics
  import opened TimerModel

  const MAX_PAGE_BYTES := 96 * 1024
  const DEFAULT_LIST_LIMIT := 100
  const MAX_LIST_LIMIT := 1000
  const PRIMARY_ADMIN := "SY.admin@motherbee"

  // ---- strings ----

  predicate IsSpace(c: char) {
    c in {'\t', '\n', '\U{b}', '\U{c}', '\r', ' ', '\U{85}', '\U{a0}', '\U{1680}', '\U{2028}', '\U{2029}', '\U{202f}',
      '\U{205f}', '\U{3000}'}
    || '\U{2000}' <= c <= '\U{200a}'
  }

  function TrimLeft(s: string): string {
    if s != "" && IsSpace(s[0]) then TrimLeft(s[1..]) else s
  }

  function TrimRight(s: string): string {
    if s != "" && IsSpace(s[|s| - 1]) then TrimRight(s[..|s| - 1]) else s
  }

  function TrimSpace(s: string): string { TrimRight(TrimLeft(s)) }

  lemma TrimRightFacts(s: string)
    ensures TrimRight(s) <= s && (TrimRight(s) == "" || !IsSpace(TrimRight(s)[|TrimRight(s)| - 1]))
    ensures s != "" && !IsSpace(s[0]) ==> TrimRight(s) != ""
  {
  }

  /** The text before and after the first c; None without one. */
  function Cut(s: string, c: char): Option<(string, string)> {
    if s == "" then None
    else if s[0] == c then Some(("", s[1..]))
    else
      var rest := Cut(s[1..], c);
      if rest.None? then None else Some(([s[0]] + rest.value.0, rest.value.1))
  }

  lemma {:induction false} CutAt(a: string, c: char, b: string)
    requires c !in a
    ensures Cut(a + [c] + b, c) == Some((a, b))
  {
    if a != "" {
      assert (a + [c] + b)[1..] == a[1..] + [c] + b;
      CutAt(a[1..], c, b);
      assert a == [a[0]] + a[1..];
    } else {
      assert (a + [c] + b)[1..] == b;
    }
  }

  /** The text is cut at the first c, and only there. */
  lemma {:induction false} CutIff(s: string, c: char, a: string, b: string)
    ensures Cut(s, c) == Some((a, b)) <==> c !in a && s == a + [c] + b
  {
    if c !in a && s == a + [c] + b { CutAt(a, c, b); }
    if Cut(s, c) == Some((a, b)) { CutBack(s, c); }
  }

  lemma {:induction false} CutBack(s: string, c: char)
    requires Cut(s, c).Some?
    ensures c !in Cut(s, c).value.0 && s == Cut(s, c).value.0 + [c] + Cut(s, c).value.1
  {
    if s[0] != c {
      CutBack(s[1..], c);
      assert s == [s[0]] + s[1..];
    }
  }

  ghost predicate Blank(s: string) { forall i :: 0 <= i < |s| ==> IsSpace(s[i]) }

  lemma {:induction false} TrimLeftIs(s: string)
    ensures |TrimLeft(s)| <= |s| && Blank(s[..|s| - |TrimLeft(s)|]) && s[|s| - |TrimLeft(s)|..] == TrimLeft(s)
    ensures TrimLeft(s) == "" || !IsSpace(TrimLeft(s)[0])
  {
    if s != "" && IsSpace(s[0]) { TrimLeftIs(s[1..]); }
  }

  lemma {:induction false} TrimRightIs(s: string)
    ensures TrimRight(s) <= s && Blank(s[|TrimRight(s)|..])
    ensures TrimRight(s) == "" || !IsSpace(TrimRight(s)[|TrimRight(s)| - 1])
  {
    if s != "" && IsSpace(s[|s| - 1]) {
      var n, k := |s| - 1, |TrimRight(s)|;
      TrimRightIs(s[..n]);
      assert s[k..] == s[..n][k..] + [s[n]];
    }
  }

  /** Trimming takes white space off both ends, all of it and nothing else. */
  lemma TrimIs(s: string)
    ensures exists i, j :: 0 <= i <= j <= |s| && TrimSpace(s) == s[i..j] && Blank(s[..i]) && Blank(s[j..])
    ensures TrimSpace(s) == "" || (!IsSpace(TrimSpace(s)[0]) && !IsSpace(TrimSpace(s)[|TrimSpace(s)| - 1]))
  {
    var left := TrimLeft(s);
    TrimLeftIs(s);
    TrimRightIs(left);
    var i, j := |s| - |left|, |s| - |left| + |TrimRight(left)|;
    assert TrimSpace(s) == left[..|TrimRight(left)|] == s[i..j] && s[j..] == left[|TrimRight(left)|..];
  }

  lemma TrimOnce(s: string)
    ensures TrimSpace(TrimSpace(s)) == TrimSpace(s)
  {
    TrimIs(s);
  }

  /** A full name: a part with a dot before the first @, and something after it. */
  lemma CanonicalIff(name: string)
    ensures Canonical(name) <==>
      exists a, b ::
        TrimSpace(name) == a + ['@'] + b && '@' !in a && '.' in a && TrimSpace(a) != "" && TrimSpace(b) != ""
  {
    if Canonical(name) { CutBack(TrimSpace(name), '@'); }
    if a, b :| TrimSpace(name) == a + ['@'] + b && '@' !in a && '.' in a && TrimSpace(a) != "" && TrimSpace(b) != "" {
      CutAt(a, '@', b);
    }
  }

  predicate Canonical(name: string) {
    var parts := Cut(TrimSpace(name), '@');
    parts.Some? && TrimSpace(parts.value.0) != "" && TrimSpace(parts.value.1) != "" && '.' in parts.value.0
  }

  // ---- decimal numbers ----

  predicate Digit(c: char) { '0' <= c <= '9' }

  function Digits(n: nat): string {
    if n < 10 then [('0' as int + n) as char] else Digits(n / 10) + [('0' as int + n % 10) as char]
  }

  function Decimal(n: int): string { if n < 0 then "-" + Digits(-n) else Digits(n) }

  /** The value of a string of digits, None for anything else. */
  function Value(s: string): Option<nat> {
    if s == "" || !Digit(s[|s| - 1]) then None
    else
      var d := s[|s| - 1] as int - '0' as int;
      if |s| == 1 then Some(d)
      else
        var high := Value(s[..|s| - 1]);
        if high.None? then None else Some(10 * high.value + d)
  }

  function ParseInt(s: string): Option<int> {
    var signed := s != "" && (s[0] == '-' || s[0] == '+');
    var v := Value(if signed then s[1..] else s);
    if v.None? then None
    else
      var m: int := v.value;
      var n := if signed && s[0] == '-' then -m else m;
      if Int64(n) then Some(n) else None
  }

  lemma {:induction false} DigitsValue(n: nat)
    ensures Digits(n) != "" && (forall i :: 0 <= i < |Digits(n)| ==> Digit(Digits(n)[i]))
    ensures Value(Digits(n)) == Some(n)
  {
    if n >= 10 {
      DigitsValue(n / 10);
      assert Digits(n)[..|Digits(n)| - 1] == Digits(n / 10);
    }
  }

  /** Printing and parsing a 64-bit number are inverse. */
  lemma DecimalRoundTrip(n: int)
    requires Int64(n)
    ensures ParseInt(Decimal(n)) == Some(n)
    ensures Decimal(n) != "" && !IsSpace(Decimal(n)[0]) && ':' !in Decimal(n)
  {
    DigitsValue(if n < 0 then -n else n);
    if n < 0 { assert Decimal(n)[1..] == Digits(-n); }
  }

  // ---- cursors ----

  datatype Key = Key(fireAt: int, uuid: string)
  datatype Cursor = FromStart | After(key: Key) | BadCursor

  function PrintCursor(k: Key): string { Decimal(k.fireAt) + [':'] + k.uuid }

  function ParseCursor(text: string): Cursor {
    var cursor := TrimSpace(text);
    if cursor == "" then FromStart
    else
      var parts := Cut(cursor, ':');
      if parts.None? then BadCursor
      else
        var fireAt := ParseInt(parts.value.0);
        if fireAt.None? || TrimSpace(parts.value.1) == "" then BadCursor
        else After(Key(fireAt.value, parts.value.1))
  }

  predicate NameEndsWell(uuid: string) { uuid != "" && !IsSpace(uuid[|uuid| - 1]) }

  lemma TrimRightAppend(a: string, b: string)
    requires a != "" && !IsSpace(a[|a| - 1])
    ensures TrimRight(a + b) == a + TrimRight(b)
  {
    if b == "" {
      assert a + b == a;
    } else if IsSpace(b[|b| - 1]) {
      assert (a + b)[..|a + b| - 1] == a + b[..|b| - 1];
      TrimRightAppend(a, b[..|b| - 1]);
    }
  }

  /** Parsing a printed cursor gives its timer back exactly when the uuid is not empty and does not end in a space. */
  lemma CursorRoundTrip(k: Key)
    requires Int64(k.fireAt)
    ensures ParseCursor(PrintCursor(k)) == After(k) <==> NameEndsWell(k.uuid)
    ensures PrintCursor(k) != ""
  {
    DecimalRoundTrip(k.fireAt);
    var a := Decimal(k.fireAt) + [':'];
    var cursor := PrintCursor(k);
    assert cursor == a + k.uuid && TrimLeft(cursor) == cursor;
    TrimRightAppend(a, k.uuid);
    TrimRightFacts(k.uuid);
    assert TrimSpace(cursor) == Decimal(k.fireAt) + [':'] + TrimRight(k.uuid);
    CutAt(Decimal(k.fireAt), ':', TrimRight(k.uuid));
    if NameEndsWell(k.uuid) {
      TrimSpaceKeepsSome(k.uuid);
    }
  }

  lemma TrimSpaceKeepsSome(s: string)
    requires NameEndsWell(s)
    ensures TrimSpace(s) != ""
  {
    if IsSpace(s[0]) { TrimSpaceKeepsSome(s[1..]); }
  }

  // ---- order ----

  predicate LexLess(a: string, b: string) {
    b != "" && (a == "" || a[0] < b[0] || (a[0] == b[0] && LexLess(a[1..], b[1..])))
  }

  /** Strings are in the order of their first different characters, a prefix first. */
  lemma {:induction false} LexIff(a: string, b: string)
    ensures LexLess(a, b) <==> exists i :: FirstDifference(a, b, i)
  {
    if a == "" || b == "" || a[0] != b[0] {
      if LexLess(a, b) { assert FirstDifference(a, b, 0); }
    } else {
      LexIff(a[1..], b[1..]);
      if i :| FirstDifference(a[1..], b[1..], i) {
        forall j | 0 <= j <= i ensures a[j] == b[j] { if j > 0 { assert a[1..][j - 1] == b[1..][j - 1]; } }
        assert FirstDifference(a, b, i + 1);
      }
      if i :| FirstDifference(a, b, i) {
        assert FirstDifference(a[1..], b[1..], i - 1);
      }
    }
  }

  /** a and b agree up to i, and there a ends or has the lower character. */
  ghost predicate FirstDifference(a: string, b: string, i: int) {
    0 <= i <= |a| && i < |b| && (forall j :: 0 <= j < i ==> a[j] == b[j]) && (i == |a| || a[i] < b[i])
  }

  predicate Before(a: Key, b: Key) {
    a.fireAt < b.fireAt || (a.fireAt == b.fireAt && LexLess(a.uuid, b.uuid))
  }

  lemma LexIrreflexive(a: string)
    ensures !LexLess(a, a)
  {
  }

  lemma {:induction false} LexTotal(a: string, b: string)
    ensures a == b || LexLess(a, b) || LexLess(b, a)
  {
    if a != "" && b != "" && a[0] == b[0] {
      LexTotal(a[1..], b[1..]);
      if a[1..] == b[1..] { assert a == [a[0]] + a[1..] && b == [b[0]] + b[1..]; }
    }
  }

  lemma {:induction false} LexTransitive(a: string, b: string, c: string)
    requires LexLess(a, b) && LexLess(b, c)
    ensures LexLess(a, c)
  {
    if a != "" && a[0] == b[0] && b[0] == c[0] { LexTransitive(a[1..], b[1..], c[1..]); }
  }

  lemma BeforeAsymmetric(a: Key, b: Key)
    requires Before(a, b)
    ensures !Before(b, a)
  {
    LexIrreflexive(a.uuid);
    if Before(b, a) { LexTransitive(a.uuid, b.uuid, a.uuid); }
  }

  // ---- the table and its queries ----

  datatype Item = Item(uuid: string, row: Row) {
    function AsKey(): Key { Key(row.fireAt, uuid) }
  }

  predicate StrictlySorted(s: seq<Item>) {
    forall i, j :: 0 <= i < j < |s| ==> Before(s[i].AsKey(), s[j].AsKey())
  }

  /** What a list asks for; "" for every owner, "all" or "" for every status. */
  datatype Query = Query(owner: string, status: string, after: Cursor)

  predicate StatusMatches(filter: string, status: Status) {
    || filter in {"", "all"}
    || (filter == "pending" && status == Pending)
    || (filter == "fired" && status == Fired)
    || (filter == "canceled" && status == Canceled)
  }

  predicate Matches(q: Query, x: Item) {
    && (q.owner == "" || x.row.owner == q.owner)
    && StatusMatches(q.status, x.row.status)
    && (q.after.After? ==> Before(q.after.key, x.AsKey()))
  }

  function Select(rows: seq<Item>, q: Query): seq<Item> {
    if rows == [] then []
    else if Matches(q, rows[0]) then [rows[0]] + Select(rows[1..], q)
    else Select(rows[1..], q)
  }

  /** out is the answer of the query: the matching rows of the table, in order. */
  ghost predicate Answers(table: map<string, Row>, q: Query, out: seq<Item>) {
    && StrictlySorted(out)
    && forall x :: x in out <==> x.uuid in table && table[x.uuid] == x.row && Matches(q, x)
  }

  const Everything := Query("", "all", FromStart)

  lemma {:induction false} SelectMembers(rows: seq<Item>, q: Query)
    ensures forall x :: x in Select(rows, q) <==> x in rows && Matches(q, x)
  {
    if rows != [] {
      SelectMembers(rows[1..], q);
      assert rows == [rows[0]] + rows[1..];
    }
  }

  lemma {:induction false} SelectSorted(rows: seq<Item>, q: Query)
    requires StrictlySorted(rows)
    ensures StrictlySorted(Select(rows, q))
  {
    if rows != [] {
      SelectSorted(rows[1..], q);
      SelectMembers(rows[1..], q);
      var out := Select(rows, q);
      forall i, j | 0 <= i < j < |out| ensures Before(out[i].AsKey(), out[j].AsKey()) {
        if i == 0 && Matches(q, rows[0]) {
          assert out[j] in Select(rows[1..], q) && out[j] in rows[1..];
          var m :| 0 <= m < |rows[1..]| && rows[1..][m] == out[j];
          assert rows[m + 1] == out[j];
        }
      }
    }
  }

  /** Scanning the table in key order answers every query. */
  lemma SelectAnswers(table: map<string, Row>, index: seq<Item>, q: Query)
    requires Answers(table, Everything, index)
    ensures Answers(table, q, Select(index, q))
  {
    SelectMembers(index, q);
    SelectSorted(index, q);
  }

  /** A query has one answer. */
  lemma {:induction false} AnswerUnique(a: seq<Item>, b: seq<Item>)
    requires StrictlySorted(a) && StrictlySorted(b) && (forall x :: x in a <==> x in b)
    ensures a == b
  {
    assert (a != [] ==> a[0] in a) && (b != [] ==> b[0] in b);
    if a != [] {
      var i :| 0 <= i < |a| && a[i] == b[0];
      var j :| 0 <= j < |b| && b[j] == a[0];
      if i > 0 && j > 0 { BeforeAsymmetric(a[0].AsKey(), a[i].AsKey()); }
      assert a[0] == b[0];
      TailMembers(a);
      TailMembers(b);
      AnswerUnique(a[1..], b[1..]);
    }
  }

  lemma TailMembers(a: seq<Item>)
    requires a != [] && StrictlySorted(a)
    ensures forall x :: x in a[1..] <==> x in a && x != a[0]
  {
    forall x | x in a[1..] ensures x in a && x != a[0] {
      var m :| 0 <= m < |a[1..]| && a[1..][m] == x;
      assert a[m + 1] == x;
      if x == a[0] { BeforeAsymmetric(a[0].AsKey(), a[m + 1].AsKey()); }
    }
    assert a == [a[0]] + a[1..];
  }

  lemma {:induction false} AllAfter(rows: seq<Item>, q: Query, key: Key)
    requires forall i :: 0 <= i < |rows| ==> Before(key, rows[i].AsKey())
    ensures Select(rows, q.(after := After(key))) == Select(rows, q.(after := FromStart))
  {
    if rows != [] { AllAfter(rows[1..], q, key); }
  }

  /** Asking again after the k-th timer gives exactly the timers beyond it. */
  lemma {:induction false} SelectAfter(rows: seq<Item>, q: Query, k: nat)
    requires StrictlySorted(rows) && q.after == FromStart && 0 < k <= |Select(rows, q)|
    ensures Select(rows, q.(after := After(Select(rows, q)[k - 1].AsKey()))) == Select(rows, q)[k..]
  {
    var out := Select(rows, q);
    var key := out[k - 1].AsKey();
    var q' := q.(after := After(key));
    var head, tail := rows[0], rows[1..];
    if !Matches(q, head) {
      assert Select(rows, q') == Select(tail, q');
      SelectAfter(tail, q, k);
    } else {
      var rest := Select(tail, q);
      assert out == [head] + rest && out[k..] == rest[k - 1..];
      if k == 1 {
        LexIrreflexive(head.uuid);
        assert Select(rows, q') == Select(tail, q');
        AllAfter(tail, q, key);
      } else {
        HeadBefore(rows, q, k - 2);
        assert Select(rows, q') == Select(tail, q');
        SelectAfter(tail, q, k - 1);
      }
    }
  }

  /** The first row comes before every later one that is selected. */
  lemma HeadBefore(rows: seq<Item>, q: Query, j: nat)
    requires StrictlySorted(rows) && rows != [] && j < |Select(rows[1..], q)|
    ensures !Before(Select(rows[1..], q)[j].AsKey(), rows[0].AsKey())
  {
    var tail := rows[1..];
    var x := Select(tail, q)[j];
    SelectMembers(tail, q);
    assert x in Select(tail, q);
    var m :| 0 <= m < |tail| && tail[m] == x;
    assert rows[m + 1] == x;
    BeforeAsymmetric(rows[0].AsKey(), x.AsKey());
  }

  // ---- the server ----

  function Encoded(size: Item -> nat, items: seq<Item>): nat {
    if items == [] then 0 else Encoded(size, items[..|items| - 1]) + size(items[|items| - 1]) + 1
  }

  function ClampLimit(limit: int): nat {
    if limit <= 0 then DEFAULT_LIST_LIMIT else if limit > MAX_LIST_LIMIT then MAX_LIST_LIMIT else limit
  }

  function Take<T>(s: seq<T>, n: nat): seq<T> { if |s| <= n then s else s[..n] }

  /** The timers of one answer, up to what a frame takes, and where the next one starts. */
  method CutPage(rows: seq<Item>, size: Item -> nat) returns (items: seq<Item>, next: string)
    ensures items <= rows && (rows != [] ==> items != [])
    ensures next == if items == rows then "" else PrintCursor(items[|items| - 1].AsKey())
    ensures |items| >= 2 ==> Encoded(size, items) <= MAX_PAGE_BYTES
    ensures items != rows ==> Encoded(size, rows[..|items| + 1]) > MAX_PAGE_BYTES
  {
    items, next := [], "";
    var pageBytes := 0;
    var i := 0;
    while i < |rows|
      invariant 0 <= i <= |rows| && items == rows[..i] && next == ""
      invariant pageBytes == Encoded(size, items) && (i >= 2 ==> pageBytes <= MAX_PAGE_BYTES)
    {
      assert rows[..i + 1][..i] == rows[..i];
      if i > 0 && pageBytes + size(rows[i]) + 1 > MAX_PAGE_BYTES {
        next := PrintCursor(rows[i - 1].AsKey());
        assert items != rows;
        return;
      }
      pageBytes := pageBytes + size(rows[i]) + 1;
      items := items + [rows[i]];
      i := i + 1;
    }
    assert items == rows;
  }

  datatype ListRequest = ListRequest(requester: string, owner: string, status: string, limit: int, cursor: string)
  datatype Answer = Page(items: seq<Item>, next: string) | InvalidPayload | Forbidden

  predicate StatusFilterOk(status: string) { status in {"pending", "fired", "canceled", "all"} }

  function StatusOf(req: ListRequest): string {
    var status := TrimSpace(req.status);
    if status == "" then "pending" else status
  }

  /** Whose timers are listed. */
  function OwnerOf(req: ListRequest): string {
    var owner := TrimSpace(req.owner);
    if req.requester != PRIMARY_ADMIN && owner == "" then req.requester else owner
  }

  predicate MayRead(requester: string, owner: string) {
    requester != "" && (requester == owner || requester == PRIMARY_ADMIN)
  }

  /** None when the request is answered with an error. */
  function AcceptedQuery(req: ListRequest): Option<Query> {
    if !StatusFilterOk(StatusOf(req)) then None
    else if TrimSpace(req.owner) != "" && !Canonical(req.owner) then None
    else if req.requester != PRIMARY_ADMIN && !MayRead(req.requester, OwnerOf(req)) then None
    else if ParseCursor(req.cursor).BadCursor? then None
    else Some(Query(OwnerOf(req), StatusOf(req), ParseCursor(req.cursor)))
  }

  /** A well-formed request for timers that the requester may not see. */
  predicate Denied(req: ListRequest) {
    var owner, status := TrimSpace(req.owner), TrimSpace(req.status);
    && status in {"", "pending", "fired", "canceled", "all"} && (owner == "" || Canonical(req.owner))
    && req.requester != "SY.admin@motherbee" && (req.requester == "" || (owner != "" && owner != req.requester))
  }

  lemma DeniedIff(req: ListRequest)
    ensures Denied(req) <==>
      && StatusFilterOk(StatusOf(req)) && (TrimSpace(req.owner) != "" ==> Canonical(req.owner))
      && req.requester != PRIMARY_ADMIN && !MayRead(req.requester, OwnerOf(req))
  {
  }

  method ServeList(index: seq<Item>, req: ListRequest, size: Item -> nat) returns (answer: Answer)
    ensures answer.Page? <==> AcceptedQuery(req).Some?
    ensures answer.Forbidden? <==> Denied(req)
    ensures answer.Page? ==>
      var limit := if req.limit <= 0 then 100 else if req.limit > 1000 then 1000 else req.limit;
      var rows := Take(Select(index, AcceptedQuery(req).value), limit);
      && answer.items <= rows && (rows != [] ==> answer.items != [])
      && answer.next == (if answer.items == rows then "" else PrintCursor(answer.items[|answer.items| - 1].AsKey()))
    ensures answer.Page? && |answer.items| >= 2 ==> Encoded(size, answer.items) <= MAX_PAGE_BYTES
  {
    DeniedIff(req);
    var status := StatusOf(req);
    if !StatusFilterOk(status) {
      return InvalidPayload;
    }
    if TrimSpace(req.owner) != "" && !Canonical(req.owner) {
      return InvalidPayload;
    }
    var owner := OwnerOf(req);
    if req.requester != PRIMARY_ADMIN && !MayRead(req.requester, owner) {
      return Forbidden;
    }
    var after := ParseCursor(req.cursor);
    if after.BadCursor? {
      return InvalidPayload;
    }
    var q := Query(owner, status, after);
    var rows := Take(Select(index, q), ClampLimit(req.limit));
    var items, next := CutPage(rows, size);
    return Page(items, next);
  }

  /** Which requests are answered: a known status, an owner that is a full name, no other node's timers but for
      SY.admin, and a readable cursor. */
  lemma AcceptedIff(req: ListRequest)
    ensures
      var owner, status := TrimSpace(req.owner), TrimSpace(req.status);
      AcceptedQuery(req).Some? <==>
        && status in {"", "pending", "fired", "canceled", "all"}
        && (owner == "" || Canonical(req.owner))
        && (req.requester == "SY.admin@motherbee" || (req.requester != "" && (owner == "" || owner == req.requester)))
        && !ParseCursor(req.cursor).BadCursor?
  {
  }

  /** Which timers an answered request lists: of the owner asked for, which is the requester itself unless that is
      SY.admin; of the status asked for, pending if none; after the cursor. */
  lemma ListedExactly(index: seq<Item>, req: ListRequest, x: Item)
    requires AcceptedQuery(req).Some?
    ensures
      var owner, status, after := TrimSpace(req.owner), TrimSpace(req.status), ParseCursor(req.cursor);
      x in Select(index, AcceptedQuery(req).value) <==>
        && x in index
        && (if req.requester == "SY.admin@motherbee" then owner == "" || x.row.owner == owner
            else x.row.owner == req.requester)
        && (status == "all" || (status == "fired" && x.row.status == Fired) ||
            (status == "canceled" && x.row.status == Canceled) ||
            (status in {"", "pending"} && x.row.status == Pending))
        && (after.After? ==> after.key.fireAt < x.row.fireAt ||
                             (after.key.fireAt == x.row.fireAt && LexLess(after.key.uuid, x.uuid)))
  {
    SelectMembers(index, AcceptedQuery(req).value);
  }

  /** A node other than SY.admin lists its own timers only. */
  lemma OwnTimersOnly(index: seq<Item>, req: ListRequest, x: Item)
    requires AcceptedQuery(req).Some? && req.requester != PRIMARY_ADMIN
    requires x in Select(index, AcceptedQuery(req).value)
    ensures x.row.owner == req.requester
  {
    SelectMembers(index, AcceptedQuery(req).value);
  }

  // ---- the client ----

  datatype Filter = Filter(owner: string, status: string, limit: int)

  predicate FilterOk(f: Filter) {
    0 <= f.limit <= MAX_LIST_LIMIT && TrimSpace(f.status) in {"", "pending", "fired", "canceled", "all"}
  }

  function FirstRequest(requester: string, f: Filter): ListRequest {
    ListRequest(requester, TrimSpace(f.owner), TrimSpace(f.status), ClampLimit(f.limit), "")
  }

  /** What a client lists: the timers of the owner and the status it filters for, as its node may see them. */
  lemma ClientLists(index: seq<Item>, requester: string, f: Filter, x: Item)
    ensures
      var owner, status := TrimSpace(f.owner), TrimSpace(f.status);
      AcceptedQuery(FirstRequest(requester, f)).Some? <==>
        && status in {"", "pending", "fired", "canceled", "all"} && (owner == "" || Canonical(owner))
        && (requester == "SY.admin@motherbee" || (requester != "" && (owner == "" || owner == requester)))
    ensures AcceptedQuery(FirstRequest(requester, f)).Some? ==>
      var owner, status := TrimSpace(f.owner), TrimSpace(f.status);
      x in Select(index, AcceptedQuery(FirstRequest(requester, f)).value) <==>
        && x in index
        && (if requester == "SY.admin@motherbee" then owner == "" || x.row.owner == owner
            else x.row.owner == requester)
        && (status == "all" || (status == "fired" && x.row.status == Fired) ||
            (status == "canceled" && x.row.status == Canceled) ||
            (status in {"", "pending"} && x.row.status == Pending))
  {
    var req := FirstRequest(requester, f);
    TrimOnce(f.owner);
    TrimOnce(f.status);
    AcceptedIff(req);
    assert ParseCursor("") == FromStart;
    if AcceptedQuery(req).Some? { ListedExactly(index, req, x); }
  }

  /** The cursor and the limit change nothing else about a request. */
  lemma SameQuery(req: ListRequest, q: Query, limit: int, cursor: string)
    requires AcceptedQuery(req.(cursor := "")) == Some(q) && !ParseCursor(cursor).BadCursor?
    ensures AcceptedQuery(req.(limit := limit, cursor := cursor)) == Some(q.(after := ParseCursor(cursor)))
  {
    var r0, r1 := req.(cursor := ""), req.(limit := limit, cursor := cursor);
    assert OwnerOf(r1) == OwnerOf(r0) && StatusOf(r1) == StatusOf(r0);
  }

  /** The cursor handed out after k timers, read back. */
  lemma CursorAfter(index: seq<Item>, q: Query, k: nat)
    requires 0 < k <= |Select(index, q)|
    requires forall x :: x in index ==> Int64(x.row.fireAt) && NameEndsWell(x.uuid)
    ensures ParseCursor(PrintCursor(Select(index, q)[k - 1].AsKey())) == After(Select(index, q)[k - 1].AsKey())
  {
    var all := Select(index, q);
    SelectMembers(index, q);
    assert all[k - 1] in all;
    CursorRoundTrip(all[k - 1].AsKey());
  }

  /** The page after the first k matching timers. */
  lemma NextPage(index: seq<Item>, req: ListRequest, q: Query, k: nat, limit: nat, cursor: string)
    requires StrictlySorted(index) && q.after == FromStart && AcceptedQuery(req.(cursor := "")) == Some(q)
    requires k <= |Select(index, q)| && 0 < limit - k <= MAX_LIST_LIMIT
    requires forall x :: x in index ==> Int64(x.row.fireAt) && NameEndsWell(x.uuid)
    requires cursor == if k == 0 then "" else PrintCursor(Select(index, q)[k - 1].AsKey())
    ensures
      var q' := q.(after := ParseCursor(cursor));
      && AcceptedQuery(req.(limit := limit - k, cursor := cursor)) == Some(q')
      && Take(Select(index, q'), ClampLimit(limit - k)) == Take(Select(index, q)[k..], limit - k)
  {
    var all := Select(index, q);
    if k == 0 {
      SameQuery(req, q, limit - k, "");
      assert all[0..] == all;
    } else {
      CursorAfter(index, q, k);
      SameQuery(req, q, limit - k, cursor);
      SelectAfter(index, q, k);
    }
  }

  /** An accepted request for an index whose keys the cursor can carry. */
  ghost predicate Asking(index: seq<Item>, req: ListRequest, q: Query) {
    && StrictlySorted(index) && q.after == FromStart && AcceptedQuery(req.(cursor := "")) == Some(q)
    && forall x :: x in index ==> Int64(x.row.fireAt) && NameEndsWell(x.uuid)
  }

  /** The page loop of an accepted request. */
  method FollowPages(index: seq<Item>, req: ListRequest, limit: nat, size: Item -> nat, ghost q: Query)
      returns (got: seq<Item>)
    requires Asking(index, req, q) && 0 < limit <= MAX_LIST_LIMIT
    ensures got == Take(Select(index, q), limit)
  {
    got := [];
    var cursor := "";
    ghost var all := Select(index, q);
    while true
      invariant ListedSoFar(all, got, cursor, limit)
      decreases limit - |got|
    {
      var done;
      got, cursor, done := AddPage(index, req, limit, size, q, got, cursor);
      if done {
        return;
      }
    }
  }

  /** One page more, or the end of the listing. */
  method AddPage(index: seq<Item>, req: ListRequest, limit: nat, size: Item -> nat, ghost q: Query, got: seq<Item>,
      cursor: string)
    returns (more: seq<Item>, next: string, done: bool)
    requires Asking(index, req, q) && limit <= MAX_LIST_LIMIT && ListedSoFar(Select(index, q), got, cursor, limit)
    ensures if done then more == Take(Select(index, q), limit)
            else ListedSoFar(Select(index, q), more, next, limit) && |more| > |got|
  {
    var items;
    items, next := FetchPage(index, req, limit, size, q, |got|, cursor);
    PageGrows(Select(index, q), got, items, next, limit);
    more := got + items;
    done := next == "" || items == [] || |more| >= limit;
  }

  /** One request, for what is still missing after k timers. */
  method FetchPage(index: seq<Item>, req: ListRequest, limit: nat, size: Item -> nat, ghost q: Query, k: nat,
      cursor: string)
    returns (items: seq<Item>, next: string)
    requires Asking(index, req, q) && k <= |Select(index, q)| && k < limit <= MAX_LIST_LIMIT
    requires cursor == if k == 0 then "" else PrintCursor(Select(index, q)[k - 1].AsKey())
    ensures
      var rows := Take(Select(index, q)[k..], limit - k);
      && items <= rows && (rows != [] ==> items != [])
      && next == (if items == rows then "" else PrintCursor(items[|items| - 1].AsKey()))
  {
    NextPage(index, req, q, k, limit, cursor);
    var page := ServeList(index, req.(limit := limit - k, cursor := cursor), size);
    return page.items, page.next;
  }

  /** Listing through pages equals listing at once: filter, sort by (fire_at, uuid), take the limit. */
  method List(index: seq<Item>, requester: string, f: Filter, size: Item -> nat) returns (timers: Option<seq<Item>>)
    requires StrictlySorted(index)
    requires forall x :: x in index ==> Int64(x.row.fireAt) && NameEndsWell(x.uuid)
    ensures timers.Some? <==>
      && 0 <= f.limit <= 1000 && TrimSpace(f.status) in {"", "pending", "fired", "canceled", "all"}
      && AcceptedQuery(FirstRequest(requester, f)).Some?
    ensures timers.Some? ==>
      var limit := if f.limit == 0 then 100 else f.limit;
      timers.value == Take(Select(index, AcceptedQuery(FirstRequest(requester, f)).value), limit)
  {
    if !FilterOk(f) {
      return None;
    }
    var req := FirstRequest(requester, f);
    if AcceptedQuery(req).None? {
      return None;
    }
    var got := FollowPages(index, req, ClampLimit(f.limit), size, AcceptedQuery(req).value);
    return Some(got);
  }

  ghost predicate ListedSoFar(all: seq<Item>, got: seq<Item>, cursor: string, limit: nat) {
    && |got| < limit && got <= all
    && cursor == if |got| == 0 then "" else PrintCursor(all[|got| - 1].AsKey())
  }

  lemma PageGrows(all: seq<Item>, got: seq<Item>, items: seq<Item>, next: string, limit: nat)
    requires |got| < limit && got <= all
    requires
      var rows := Take(all[|got|..], limit - |got|);
      && items <= rows && (rows != [] ==> items != [])
      && next == (if items == rows then "" else PrintCursor(items[|items| - 1].AsKey()))
    ensures
      var done := next == "" || items == [] || |got + items| >= limit;
      if done then got + items == Take(all, limit) else ListedSoFar(all, got + items, next, limit) && items != []
  {
    var rest := all[|got|..];
    var rows := Take(rest, limit - |got|);
    assert items == rows[..|items|] == rest[..|items|] && all == got + rest;
    assert got + items == all[..|got| + |items|];
    if items == rows {
      assert got + items == Take(all, limit);
    } else {
      PrintNotEmpty(items[|items| - 1].AsKey());
      assert items[|items| - 1] == all[|got + items| - 1];
    }
  }

  lemma PrintNotEmpty(k: Key)
    ensures PrintCursor(k) != ""
  {
    assert |PrintCursor(k)| >= 1;
  }
}
