/**
 The identity region's table of channel mappings: open addressing with tombstones. The reader probes raw bytes;
 the writer changes slots in place. Lookups agree with a scan of the whole table while it is well formed.
 */
module IdentityTable {
  import opened Basics

  const OCCUPIED := 1
  const TOMBSTONE := 2
  const CHANNEL_SIZE := 32
  const ADDRESS_SIZE := 256
  const ENTRY_SIZE := 384

  datatype Key = Key(channel: seq<Byte>, address: seq<Byte>, tenant: seq<Byte>)
  datatype Slot = Slot(flags: nat, hash: nat, channel: seq<Byte>, address: seq<Byte>, ilk: seq<Byte>, tenant: seq<Byte>)

  predicate Tombstoned(flags: nat) { (flags / TOMBSTONE) % 2 == 1 }
  predicate Live(s: Slot) { !Tombstoned(s.flags) && s.flags % 2 == 1 }

  /** The two flags are the two lowest bits. */
  lemma FlagBits(s: Slot)
    ensures Tombstoned(s.flags) <==> s.flags % 4 == 2 || s.flags % 4 == 3
    ensures Live(s) <==> s.flags % 4 == 1
  {
    var q, r := s.flags / 4, s.flags % 4;
    LowBits(s.flags, q, r);
    assert s.flags / TOMBSTONE == s.flags / 2;
  }

  lemma LowBits(n: nat, q: nat, r: nat)
    requires n == 4 * q + r && r < 4
    ensures n % 2 == r % 2 && (n / 2) % 2 == r / 2
  {
    assert n / 2 == 2 * q + r / 2;
  }

  // ---- fixed-size strings ----

  /** The bytes before the first NUL. */
  function CutNul(buf: seq<Byte>): seq<Byte> {
    if buf == [] || buf[0] == 0 then [] else [buf[0]] + CutNul(buf[1..])
  }

  function Zeros(n: nat): seq<Byte> { seq(n, _ => 0) }

  /** The value as written into a zeroed buffer, cut to its size. */
  function Pad(value: seq<Byte>, size: nat): seq<Byte> {
    if |value| <= size then value + Zeros(size - |value|) else value[..size]
  }

  lemma {:induction false} CutNulPrefix(value: seq<Byte>, zeros: nat)
    ensures CutNul(value + Zeros(zeros)) <= value
    ensures CutNul(value + Zeros(zeros)) == value <==> 0 !in value
  {
    var buf := value + Zeros(zeros);
    if value == [] {
      assert buf == Zeros(zeros);
    } else {
      assert buf[1..] == value[1..] + Zeros(zeros) && value == [value[0]] + value[1..];
      CutNulPrefix(value[1..], zeros);
    }
  }

  /** What was written is read back exactly when it fits and holds no NUL. */
  lemma FixedRoundTrip(value: seq<Byte>, size: nat)
    ensures CutNul(Pad(value, size)) == value <==> |value| <= size && 0 !in value
  {
    if |value| <= size {
      CutNulPrefix(value, size - |value|);
    } else {
      assert value[..size] + Zeros(0) == value[..size];
      CutNulPrefix(value[..size], 0);
    }
  }

  method FixedStrMatches(buf: seq<Byte>, value: seq<Byte>) returns (same: bool)
    ensures same <==> CutNul(buf) == value
  {
    var end := |buf|;
    for i := 0 to |buf|
      invariant end == |buf| && CutNul(buf) == buf[..i] + CutNul(buf[i..])
    {
      assert buf[i..][1..] == buf[i + 1..] && buf[..i + 1] == buf[..i] + [buf[i]];
      if buf[i] == 0 {
        end := i;
        assert CutNul(buf) == buf[..i];
        break;
      }
    }
    assert CutNul(buf) == buf[..end];
    same := buf[..end] == value;
  }

  // ---- probing ----

  function KeyOf(s: Slot): Key { Key(CutNul(s.channel), CutNul(s.address), s.tenant) }

  predicate Matches(s: Slot, k: Key, h: nat) { Live(s) && s.hash == h && KeyOf(s) == k }

  /** The slot of probe p. */
  function At(h: nat, p: nat, n: nat): (i: nat)
    requires 0 < n
    ensures i < n
  {
    (h % n + p) % n
  }

  function Probe(slots: seq<Slot>, k: Key, h: nat, p: nat): Option<seq<Byte>>
    requires slots != [] && p <= |slots|
    decreases |slots| - p
  {
    if p == |slots| then None
    else
      var s := slots[At(h, p, |slots|)];
      if s.flags == 0 then None
      else if Matches(s, k, h) then Some(s.ilk)
      else Probe(slots, k, h, p + 1)
  }

  function Lookup(slots: seq<Slot>, k: Key, h: nat): Option<seq<Byte>>
    requires slots != []
  {
    Probe(slots, k, h, 0)
  }

  /** No empty slot among the first p probes from home h. */
  ghost predicate PathFull(slots: seq<Slot>, h: nat, p: nat)
    requires slots != []
  {
    forall q: nat :: q < p ==> slots[At(h, q, |slots|)].flags != 0
  }

  ghost predicate FoundAt(slots: seq<Slot>, k: Key, h: nat, p: nat)
    requires slots != []
  {
    p < |slots| && Matches(slots[At(h, p, |slots|)], k, h) && PathFull(slots, h, p)
  }

  /** The first p probes met no empty slot and no match. */
  ghost predicate Passed(slots: seq<Slot>, k: Key, h: nat, p: nat)
    requires slots != []
  {
    PathFull(slots, h, p) && forall q: nat :: q < p ==> !Matches(slots[At(h, q, |slots|)], k, h)
  }

  lemma PassOne(slots: seq<Slot>, k: Key, h: nat, p: nat)
    requires slots != [] && p < |slots| && Passed(slots, k, h, p)
    requires slots[At(h, p, |slots|)].flags != 0 && !Matches(slots[At(h, p, |slots|)], k, h)
    ensures Passed(slots, k, h, p + 1)
  {
  }

  /** Nothing is found past an empty slot. */
  lemma EmptyEnds(slots: seq<Slot>, k: Key, h: nat, p: nat)
    requires slots != [] && p < |slots| && slots[At(h, p, |slots|)].flags == 0 && Passed(slots, k, h, p)
    ensures forall q: nat :: !FoundAt(slots, k, h, q)
  {
    forall q: nat ensures !FoundAt(slots, k, h, q) {
      assert q > p ==> !PathFull(slots, h, q);
    }
  }

  /** What a probe finds, with no assumption on the table: a matching slot with no empty one before it on its path. */
  lemma {:induction false} ProbeExact(slots: seq<Slot>, k: Key, h: nat, p: nat)
    requires slots != [] && p <= |slots| && Passed(slots, k, h, p)
    ensures Probe(slots, k, h, p).Some? <==> exists q: nat :: FoundAt(slots, k, h, q)
    ensures Probe(slots, k, h, p).Some? ==>
      exists q: nat :: FoundAt(slots, k, h, q) && slots[At(h, q, |slots|)].ilk == Probe(slots, k, h, p).value
    decreases |slots| - p
  {
    if p < |slots| {
      var s := slots[At(h, p, |slots|)];
      if s.flags == 0 {
        EmptyEnds(slots, k, h, p);
      } else if Matches(s, k, h) {
        assert FoundAt(slots, k, h, p);
      } else {
        PassOne(slots, k, h, p);
        ProbeExact(slots, k, h, p + 1);
      }
    }
  }

  // ---- the scan ----

  /** A slot answers for the key it stores when it stores that key's hash. */
  ghost predicate Answers(s: Slot, hash: Key -> nat) { Live(s) && s.hash == hash(KeyOf(s)) }

  ghost predicate Holds(slots: seq<Slot>, j: nat, k: Key, hash: Key -> nat) {
    j < |slots| && Answers(slots[j], hash) && KeyOf(slots[j]) == k
  }

  /** The whole table searched for the key. */
  ghost function Scan(slots: seq<Slot>, k: Key, hash: Key -> nat): Option<seq<Byte>> {
    if exists j: nat :: Holds(slots, j, k, hash) then
      var j: nat :| Holds(slots, j, k, hash);
      Some(slots[j].ilk)
    else None
  }

  ghost predicate UniqueKeys(slots: seq<Slot>, hash: Key -> nat) {
    forall i: nat, j: nat :: i < j < |slots| && Answers(slots[i], hash) && Answers(slots[j], hash) ==>
      KeyOf(slots[i]) != KeyOf(slots[j])
  }

  /** Some probe from its home reaches slot j with no empty slot before. */
  ghost predicate Reachable(slots: seq<Slot>, h: nat, j: nat)
    requires slots != []
  {
    exists p: nat :: p < |slots| && At(h, p, |slots|) == j && PathFull(slots, h, p)
  }

  ghost predicate PathsFull(slots: seq<Slot>, hash: Key -> nat)
    requires slots != []
  {
    forall j: nat :: j < |slots| && Answers(slots[j], hash) ==> Reachable(slots, slots[j].hash, j)
  }

  ghost predicate WellFormed(slots: seq<Slot>, hash: Key -> nat) {
    slots != [] && UniqueKeys(slots, hash) && PathsFull(slots, hash)
  }

  lemma OneHolder(slots: seq<Slot>, i: nat, j: nat, k: Key, hash: Key -> nat)
    requires UniqueKeys(slots, hash) && Holds(slots, i, k, hash) && Holds(slots, j, k, hash)
    ensures i == j
  {
  }

  lemma ScanIs(slots: seq<Slot>, j: nat, k: Key, hash: Key -> nat)
    requires UniqueKeys(slots, hash) && Holds(slots, j, k, hash)
    ensures Scan(slots, k, hash) == Some(slots[j].ilk)
  {
    forall i: nat | Holds(slots, i, k, hash) ensures i == j { OneHolder(slots, i, j, k, hash); }
  }

  /** On a well-formed table the probe agrees with the scan, for every key. */
  lemma LookupIsScan(slots: seq<Slot>, hash: Key -> nat, k: Key)
    requires WellFormed(slots, hash)
    ensures Lookup(slots, k, hash(k)) == Scan(slots, k, hash)
  {
    var h := hash(k);
    ProbeExact(slots, k, h, 0);
    if Lookup(slots, k, h).Some? {
      var q: nat :| FoundAt(slots, k, h, q) && slots[At(h, q, |slots|)].ilk == Lookup(slots, k, h).value;
      ScanIs(slots, At(h, q, |slots|), k, hash);
    } else if exists j: nat :: Holds(slots, j, k, hash) {
      var j: nat :| Holds(slots, j, k, hash);
      assert Reachable(slots, h, j);
      var p: nat :| p < |slots| && At(h, p, |slots|) == j && PathFull(slots, h, p);
      assert FoundAt(slots, k, h, p);
      assert false;
    }
  }

  /** With every stored hash right, that is: the key is found exactly when some live slot stores it, with that slot's
      ILK. */
  lemma LookupFindsLive(slots: seq<Slot>, hash: Key -> nat, k: Key)
    requires WellFormed(slots, hash) && forall j: nat :: j < |slots| && Live(slots[j]) ==> Answers(slots[j], hash)
    ensures Lookup(slots, k, hash(k)).Some? <==> exists j: nat :: j < |slots| && Live(slots[j]) && KeyOf(slots[j]) == k
    ensures forall j: nat :: j < |slots| && Live(slots[j]) && KeyOf(slots[j]) == k ==>
      Lookup(slots, k, hash(k)) == Some(slots[j].ilk)
  {
    LookupIsScan(slots, hash, k);
    forall j: nat | j < |slots| && Live(slots[j]) && KeyOf(slots[j]) == k
      ensures Scan(slots, k, hash) == Some(slots[j].ilk) {
      ScanIs(slots, j, k, hash);
    }
  }

  // ---- the writer ----

  function Written(k: Key, h: nat, ilk: seq<Byte>): Slot {
    Slot(OCCUPIED, h, Pad(k.channel, CHANNEL_SIZE), Pad(k.address, ADDRESS_SIZE), ilk, k.tenant)
  }

  predicate LengthsOk(k: Key) { |k.channel| <= CHANNEL_SIZE && |k.address| <= ADDRESS_SIZE }

  predicate Fits(k: Key) { LengthsOk(k) && 0 !in k.channel && 0 !in k.address }

  /** The key a slot written for k stores: cut at its first NUL bytes. */
  function Stored(k: Key): Key { KeyOf(Written(k, 0, [])) }

  lemma WrittenHolds(k: Key, h: nat, ilk: seq<Byte>)
    ensures Live(Written(k, h, ilk)) && KeyOf(Written(k, h, ilk)) == Stored(k)
    ensures Stored(k) == k <==> Fits(k)
  {
    FixedRoundTrip(k.channel, CHANNEL_SIZE);
    FixedRoundTrip(k.address, ADDRESS_SIZE);
  }

  lemma {:induction false} CutNulClean(buf: seq<Byte>)
    ensures 0 !in CutNul(buf)
  {
    if buf != [] && buf[0] != 0 { CutNulClean(buf[1..]); }
  }

  /** No slot stores a key with a NUL. */
  lemma NulNeverMatches(s: Slot, k: Key, h: nat)
    requires Matches(s, k, h)
    ensures 0 !in k.channel && 0 !in k.address
  {
    CutNulClean(s.channel);
    CutNulClean(s.address);
  }

  datatype Choice = Overwrite(i: nat) | Fill(i: nat) | Full

  /** Where an upsert writes, from probe p on, the first tombstone so far known. */
  function Choose(slots: seq<Slot>, k: Key, h: nat, p: nat, tomb: Option<nat>): Choice
    requires slots != [] && p <= |slots|
    decreases |slots| - p
  {
    if p == |slots| then if tomb.Some? then Fill(tomb.value) else Full
    else
      var i := At(h, p, |slots|);
      var s := slots[i];
      if s.flags == 0 then Fill(if tomb.Some? then tomb.value else i)
      else if Tombstoned(s.flags) then Choose(slots, k, h, p + 1, if tomb.Some? then tomb else Some(i))
      else if Matches(s, k, h) then Overwrite(i)
      else Choose(slots, k, h, p + 1, tomb)
  }

  /** A slot the probe passed or stopped at, not live, every one before it on the path not empty. */
  ghost predicate FreeOnPath(slots: seq<Slot>, h: nat, i: nat)
    requires slots != []
  {
    i < |slots| && !Live(slots[i]) && Reachable(slots, h, i)
  }

  /** No probe up to the first empty slot matches. */
  ghost predicate Unfound(slots: seq<Slot>, k: Key, h: nat)
    requires slots != []
  {
    forall q: nat :: !FoundAt(slots, k, h, q)
  }

  lemma ReachedBy(slots: seq<Slot>, h: nat, p: nat, j: nat)
    requires slots != [] && p < |slots| && At(h, p, |slots|) == j && PathFull(slots, h, p)
    ensures Reachable(slots, h, j)
  {
  }

  lemma {:induction false} ChooseMeans(slots: seq<Slot>, k: Key, h: nat, p: nat, tomb: Option<nat>)
    requires slots != [] && p <= |slots| && Passed(slots, k, h, p)
    requires tomb.Some? ==> FreeOnPath(slots, h, tomb.value)
    ensures
      match Choose(slots, k, h, p, tomb)
      case Overwrite(i) => i < |slots| && Matches(slots[i], k, h) && Reachable(slots, h, i)
      case Fill(i) => FreeOnPath(slots, h, i) && Unfound(slots, k, h)
      case Full => Unfound(slots, k, h)
    decreases |slots| - p
  {
    if p < |slots| {
      var i := At(h, p, |slots|);
      ReachedBy(slots, h, p, i);
      if slots[i].flags == 0 {
        EmptyEnds(slots, k, h, p);
      } else if Tombstoned(slots[i].flags) {
        PassOne(slots, k, h, p);
        assert FreeOnPath(slots, h, i);
        ChooseMeans(slots, k, h, p + 1, if tomb.Some? then tomb else Some(i));
      } else if !Matches(slots[i], k, h) {
        PassOne(slots, k, h, p);
        ChooseMeans(slots, k, h, p + 1, tomb);
      }
    }
  }

  /** Full is refused only when every slot of the table is live. */
  lemma {:induction false} ChooseFull(slots: seq<Slot>, k: Key, h: nat, p: nat, tomb: Option<nat>)
    requires slots != [] && p <= |slots| && Choose(slots, k, h, p, tomb).Full?
    ensures tomb.None? && forall q: nat :: p <= q < |slots| ==>
      slots[At(h, q, |slots|)].flags != 0 && !Tombstoned(slots[At(h, q, |slots|)].flags)
    decreases |slots| - p
  {
    if p < |slots| {
      var i := At(h, p, |slots|);
      ChooseFull(slots, k, h, p + 1, if Tombstoned(slots[i].flags) && tomb.None? then Some(i) else tomb);
    }
  }

  /** Every slot is some probe's. */
  lemma AtCovers(h: nat, j: nat, n: nat)
    requires j < n
    ensures exists p: nat :: p < n && At(h, p, n) == j
  {
    var home := h % n;
    var p := if j >= home then j - home else j - home + n;
    WrapsOnce(home + p, n);
    assert At(h, p, n) == j;
  }

  lemma WrapsOnce(x: nat, n: nat)
    requires 0 < n && x < 2 * n
    ensures x % n == if x < n then x else x - n
  {
    if x >= n {
      assert x == n * 1 + (x - n);
      assert x / n == 1;
    }
  }

  lemma FullIsFull(slots: seq<Slot>, k: Key, h: nat, j: nat)
    requires slots != [] && j < |slots| && Choose(slots, k, h, 0, None).Full?
    ensures slots[j].flags != 0 && !Tombstoned(slots[j].flags)
  {
    ChooseFull(slots, k, h, 0, None);
    AtCovers(h, j, |slots|);
  }

  // ---- what a write to one slot keeps ----

  /** Slots only become non-empty. */
  lemma ReachableStays(slots: seq<Slot>, i: nat, s: Slot, h: nat, j: nat)
    requires slots != [] && i < |slots| && s.flags != 0 && Reachable(slots, h, j)
    ensures Reachable(slots[i := s], h, j)
  {
    var p: nat :| p < |slots| && At(h, p, |slots|) == j && PathFull(slots, h, p);
    var n := slots[i := s];
    assert PathFull(n, h, p) by {
      forall q: nat | q < p ensures n[At(h, q, |n|)].flags != 0 { assert slots[At(h, q, |slots|)].flags != 0; }
    }
  }

  /** A key the table answers for is found, so an unfound key is nowhere. */
  lemma UnfoundIsAbsent(slots: seq<Slot>, hash: Key -> nat, k: Key, j: nat)
    requires WellFormed(slots, hash) && Unfound(slots, k, hash(k))
    ensures !Holds(slots, j, k, hash)
  {
    if Holds(slots, j, k, hash) {
      var h := hash(k);
      assert Reachable(slots, h, j);
      var p: nat :| p < |slots| && At(h, p, |slots|) == j && PathFull(slots, h, p);
      assert FoundAt(slots, k, h, p);
    }
  }

  ghost predicate KeyFree(slots: seq<Slot>, k: Key, i: nat, hash: Key -> nat) {
    forall j: nat :: j != i ==> !Holds(slots, j, k, hash)
  }

  /** A write of a slot that answers for a key nobody else answers for, or for none. */
  lemma WriteKeeps(slots: seq<Slot>, hash: Key -> nat, i: nat, s: Slot)
    requires WellFormed(slots, hash) && i < |slots| && s.flags != 0
    requires Answers(s, hash) ==> Reachable(slots, s.hash, i) && KeyFree(slots, KeyOf(s), i, hash)
    ensures WellFormed(slots[i := s], hash)
  {
    var n := slots[i := s];
    assert UniqueKeys(n, hash) by { WriteKeepsUnique(slots, hash, i, s); }
    forall j: nat | j < |n| && Answers(n[j], hash) ensures Reachable(n, n[j].hash, j) {
      ReachableStays(slots, i, s, n[j].hash, j);
    }
  }

  lemma WriteKeepsUnique(slots: seq<Slot>, hash: Key -> nat, i: nat, s: Slot)
    requires UniqueKeys(slots, hash) && i < |slots|
    requires Answers(s, hash) ==> KeyFree(slots, KeyOf(s), i, hash)
    ensures UniqueKeys(slots[i := s], hash)
  {
    var n := slots[i := s];
    forall a: nat, b: nat | a < b < |n| && Answers(n[a], hash) && Answers(n[b], hash)
      ensures KeyOf(n[a]) != KeyOf(n[b]) {
      if a == i {
        assert !Holds(slots, b, KeyOf(s), hash);
      } else if b == i {
        assert !Holds(slots, a, KeyOf(s), hash);
      }
    }
  }

  function Chosen(c: Choice): Option<nat> {
    match c
    case Overwrite(i) => Some(i)
    case Fill(i) => Some(i)
    case Full => None
  }

  /** An upsert: the new table, or none when there is no room. */
  function Upserted(slots: seq<Slot>, k: Key, h: nat, ilk: seq<Byte>): Option<seq<Slot>>
    requires slots != []
  {
    var c := Choose(slots, k, h, 0, None);
    if Chosen(c).Some? && Chosen(c).value < |slots| then Some(slots[Chosen(c).value := Written(k, h, ilk)]) else None
  }

  lemma ChosenFree(slots: seq<Slot>, hash: Key -> nat, k: Key)
    requires WellFormed(slots, hash) && !Choose(slots, k, hash(k), 0, None).Full?
    ensures
      var i := Chosen(Choose(slots, k, hash(k), 0, None)).value;
      && i < |slots| && Reachable(slots, hash(k), i) && KeyFree(slots, k, i, hash)
      && (Live(slots[i]) ==> Matches(slots[i], k, hash(k)))
  {
    var h := hash(k);
    var c := Choose(slots, k, h, 0, None);
    ChooseMeans(slots, k, h, 0, None);
    var i := Chosen(c).value;
    forall j: nat | j != i ensures !Holds(slots, j, k, hash) {
      if c.Fill? {
        UnfoundIsAbsent(slots, hash, k, j);
      } else if Holds(slots, j, k, hash) {
        OneHolder(slots, i, j, k, hash);
      }
    }
  }

  /** What a scan finds after one slot is written, when the slot answered for no other key before. */
  lemma ScanWritten(slots: seq<Slot>, i: nat, s: Slot, k: Key, x: Key, hash: Key -> nat)
    requires i < |slots| && UniqueKeys(slots, hash) && UniqueKeys(slots[i := s], hash)
    requires Answers(s, hash) ==> KeyOf(s) == k
    requires Answers(slots[i], hash) ==> KeyOf(slots[i]) == k && Answers(s, hash)
    ensures Scan(slots[i := s], x, hash) == if Answers(s, hash) && x == k then Some(s.ilk) else Scan(slots, x, hash)
  {
    var n := slots[i := s];
    if Answers(s, hash) && x == k {
      assert Holds(n, i, k, hash);
      ScanIs(n, i, k, hash);
    } else {
      assert forall j: nat :: Holds(n, j, x, hash) <==> Holds(slots, j, x, hash);
      if exists j: nat :: Holds(slots, j, x, hash) {
        var j: nat :| Holds(slots, j, x, hash);
        ScanIs(slots, j, x, hash);
        ScanIs(n, j, x, hash);
      }
    }
  }

  /** A key with a NUL is stored as another one; that slot answers for nobody unless the two share their hash. */
  predicate Harmless(k: Key, hash: Key -> nat) { Fits(k) || hash(Stored(k)) != hash(k) }

  lemma UpsertFull(slots: seq<Slot>, hash: Key -> nat, k: Key)
    requires WellFormed(slots, hash) && Choose(slots, k, hash(k), 0, None).Full?
    ensures Scan(slots, k, hash) == None
    ensures forall j: nat :: j < |slots| ==> slots[j].flags != 0 && !Tombstoned(slots[j].flags)
  {
    var h := hash(k);
    ChooseMeans(slots, k, h, 0, None);
    forall j: nat | j < |slots| ensures slots[j].flags != 0 && !Tombstoned(slots[j].flags) {
      FullIsFull(slots, k, h, j);
    }
    forall j: nat ensures !Holds(slots, j, k, hash) { UnfoundIsAbsent(slots, hash, k, j); }
  }

  /** n is well formed, and stands for what slots stands for with k set, or for the same if k has a NUL. */
  ghost predicate OneKeySet(slots: seq<Slot>, n: seq<Slot>, k: Key, ilk: seq<Byte>, hash: Key -> nat) {
    && WellFormed(n, hash)
    && forall x :: Scan(n, x, hash) == if Fits(k) && x == k then Some(ilk) else Scan(slots, x, hash)
  }

  lemma HarmlessSets(slots: seq<Slot>, hash: Key -> nat, k: Key, ilk: seq<Byte>)
    requires WellFormed(slots, hash) && LengthsOk(k) && Harmless(k, hash) && Upserted(slots, k, hash(k), ilk).Some?
    ensures OneKeySet(slots, Upserted(slots, k, hash(k), ilk).value, k, ilk, hash)
  {
    var n := Upserted(slots, k, hash(k), ilk).value;
    HarmlessKeeps(slots, hash, k, ilk);
    forall x ensures Scan(n, x, hash) == if Fits(k) && x == k then Some(ilk) else Scan(slots, x, hash) {
      HarmlessScan(slots, hash, k, ilk, x);
    }
  }

  lemma HarmlessKeeps(slots: seq<Slot>, hash: Key -> nat, k: Key, ilk: seq<Byte>)
    requires WellFormed(slots, hash) && LengthsOk(k) && Harmless(k, hash) && Upserted(slots, k, hash(k), ilk).Some?
    ensures WellFormed(Upserted(slots, k, hash(k), ilk).value, hash)
  {
    var h := hash(k);
    ChosenFree(slots, hash, k);
    WrittenHolds(k, h, ilk);
    WriteKeeps(slots, hash, Chosen(Choose(slots, k, h, 0, None)).value, Written(k, h, ilk));
  }

  lemma HarmlessScan(slots: seq<Slot>, hash: Key -> nat, k: Key, ilk: seq<Byte>, x: Key)
    requires WellFormed(slots, hash) && LengthsOk(k) && Harmless(k, hash) && Upserted(slots, k, hash(k), ilk).Some?
    requires WellFormed(Upserted(slots, k, hash(k), ilk).value, hash)
    ensures
      Scan(Upserted(slots, k, hash(k), ilk).value, x, hash) ==
      if Fits(k) && x == k then Some(ilk) else Scan(slots, x, hash)
  {
    var h := hash(k);
    var i, s := Chosen(Choose(slots, k, h, 0, None)).value, Written(k, h, ilk);
    ChosenFree(slots, hash, k);
    WrittenHolds(k, h, ilk);
    assert Answers(s, hash) <==> Fits(k);
    if Live(slots[i]) { NulNeverMatches(slots[i], k, h); }
    ScanWritten(slots, i, s, k, x, hash);
  }

  /** Where a key with a NUL goes: a slot that was not live. */
  lemma NulTakesFree(slots: seq<Slot>, k: Key, h: nat, ilk: seq<Byte>)
    requires slots != [] && LengthsOk(k) && !Fits(k) && Upserted(slots, k, h, ilk).Some?
    ensures
      var i := Chosen(Choose(slots, k, h, 0, None)).value;
      Choose(slots, k, h, 0, None).Fill? && FreeOnPath(slots, h, i) &&
      Upserted(slots, k, h, ilk).value == slots[i := Written(k, h, ilk)]
  {
    var c := Choose(slots, k, h, 0, None);
    ChooseMeans(slots, k, h, 0, None);
    if c.Overwrite? { NulNeverMatches(slots[c.i], k, h); }
  }

  lemma HarmfulBreaks(slots: seq<Slot>, hash: Key -> nat, k: Key, ilk: seq<Byte>)
    requires WellFormed(slots, hash) && LengthsOk(k) && !Harmless(k, hash) && Upserted(slots, k, hash(k), ilk).Some?
    ensures !OneKeySet(slots, Upserted(slots, k, hash(k), ilk).value, k, ilk, hash)
  {
    var h, n, y := hash(k), Upserted(slots, k, hash(k), ilk).value, Stored(k);
    var i := Chosen(Choose(slots, k, h, 0, None)).value;
    NulTakesFree(slots, k, h, ilk);
    WrittenHolds(k, h, ilk);
    assert Holds(n, i, y, hash) && y != k;
    if j: nat :| Holds(slots, j, y, hash) {
      assert j != i && Holds(n, j, y, hash);
      assert !UniqueKeys(n, hash);
    } else {
      assert Scan(slots, y, hash) == None && Scan(n, y, hash).Some?;
    }
  }

  /** On a well-formed table an accepted upsert keeps it well formed and changes one key of the map it stands for, or
      none for a key with a NUL, if and only if the key is harmless; it is refused only when every slot is live under
      another key. */
  lemma UpsertRefines(slots: seq<Slot>, hash: Key -> nat, k: Key, ilk: seq<Byte>)
    requires WellFormed(slots, hash) && LengthsOk(k)
    ensures
      match Upserted(slots, k, hash(k), ilk)
      case Some(n) => OneKeySet(slots, n, k, ilk, hash) <==> Harmless(k, hash)
      case None =>
        Scan(slots, k, hash) == None &&
        forall j: nat :: j < |slots| ==> slots[j].flags != 0 && !Tombstoned(slots[j].flags)
  {
    if Upserted(slots, k, hash(k), ilk).Some? {
      if Harmless(k, hash) { HarmlessSets(slots, hash, k, ilk); } else { HarmfulBreaks(slots, hash, k, ilk); }
    } else {
      if !Choose(slots, k, hash(k), 0, None).Full? { ChosenFree(slots, hash, k); }
      UpsertFull(slots, hash, k);
    }
  }

  /** What was put is found again exactly when its strings hold no NUL. */
  lemma PutFoundIff(slots: seq<Slot>, hash: Key -> nat, k: Key, ilk: seq<Byte>)
    requires WellFormed(slots, hash) && LengthsOk(k) && Upserted(slots, k, hash(k), ilk).Some?
    ensures Lookup(Upserted(slots, k, hash(k), ilk).value, k, hash(k)) == Some(ilk) <==> Fits(k)
  {
    var n, h := Upserted(slots, k, hash(k), ilk).value, hash(k);
    if Fits(k) {
      HarmlessSets(slots, hash, k, ilk);
      LookupIsScan(n, hash, k);
    } else {
      NulNeverFound(n, k, h);
    }
  }

  lemma NulNeverFound(slots: seq<Slot>, k: Key, h: nat)
    requires slots != [] && LengthsOk(k) && !Fits(k)
    ensures Lookup(slots, k, h) == None
  {
    ProbeExact(slots, k, h, 0);
    if q: nat :| FoundAt(slots, k, h, q) { NulNeverMatches(slots[At(h, q, |slots|)], k, h); }
  }

  // ---- what a harmful key does to lookups ----

  lemma AtDistinct(h: nat, p: nat, q: nat, n: nat)
    requires q < p < n
    ensures At(h, q, n) != At(h, p, n)
  {
    WrapsOnce(h % n + q, n);
    WrapsOnce(h % n + p, n);
  }

  /** The first p probes meet slots that are neither empty nor tombstones. */
  ghost predicate Taken(slots: seq<Slot>, h: nat, p: nat)
    requires slots != []
  {
    forall q: nat :: q < p ==>
      slots[At(h, q, |slots|)].flags != 0 && !Tombstoned(slots[At(h, q, |slots|)].flags)
  }

  /** Probe p is the first on the path whose slot is empty or a tombstone. */
  ghost predicate FirstFree(slots: seq<Slot>, h: nat, p: nat)
    requires slots != []
  {
    && p < |slots| && Taken(slots, h, p)
    && (slots[At(h, p, |slots|)].flags == 0 || Tombstoned(slots[At(h, p, |slots|)].flags))
  }

  lemma {:induction false} FillsFirstFree(slots: seq<Slot>, k: Key, h: nat, p: nat, tomb: Option<nat>, t: nat)
    requires slots != [] && p <= |slots| && Choose(slots, k, h, p, tomb).Fill?
    requires if tomb.Some? then FirstFree(slots, h, t) && At(h, t, |slots|) == tomb.value else Taken(slots, h, p)
    ensures exists f: nat :: FirstFree(slots, h, f) && At(h, f, |slots|) == Choose(slots, k, h, p, tomb).i
    decreases |slots| - p
  {
    if p < |slots| {
      var i := At(h, p, |slots|);
      if slots[i].flags == 0 {
        if tomb.None? { assert FirstFree(slots, h, p); }
      } else if Tombstoned(slots[i].flags) {
        if tomb.None? { assert FirstFree(slots, h, p); }
        FillsFirstFree(slots, k, h, p + 1, if tomb.Some? then tomb else Some(i), if tomb.Some? then t else p);
      } else if !Matches(slots[i], k, h) {
        FillsFirstFree(slots, k, h, p + 1, tomb, t);
      }
    }
  }

  /** A slot that stores the key lies on the path before every empty slot and tombstone. */
  ghost predicate MetFirst(slots: seq<Slot>, k: Key, h: nat)
    requires slots != []
  {
    exists q: nat :: q < |slots| && Matches(slots[At(h, q, |slots|)], k, h) && Taken(slots, h, q)
  }

  lemma {:induction false} ProbeFront(slots: seq<Slot>, n: seq<Slot>, y: Key, h: nat, f: nat, p: nat)
    requires slots != [] && |n| == |slots| && f < |slots| && p <= f && Taken(slots, h, f)
    requires forall q: nat :: q < f ==> n[At(h, q, |n|)] == slots[At(h, q, |slots|)]
    requires exists q: nat :: p <= q < f && Matches(slots[At(h, q, |slots|)], y, h)
    ensures Probe(n, y, h, p) == Probe(slots, y, h, p)
    decreases f - p
  {
    if !Matches(slots[At(h, p, |slots|)], y, h) { ProbeFront(slots, n, y, h, f, p + 1); }
  }

  lemma {:induction false} ProbeReaches(n: seq<Slot>, y: Key, h: nat, f: nat, p: nat)
    requires n != [] && f < |n| && p <= f && PathFull(n, h, f) && Matches(n[At(h, f, |n|)], y, h)
    requires forall q: nat :: p <= q < f ==> !Matches(n[At(h, q, |n|)], y, h)
    ensures Probe(n, y, h, p) == Some(n[At(h, f, |n|)].ilk)
    decreases f - p
  {
    if p < f { ProbeReaches(n, y, h, f, p + 1); }
  }

  /** What a lookup of y finds once a slot that answers for y is put into the first free place of its path. */
  lemma PutAtFirstFree(slots: seq<Slot>, h: nat, f: nat, s: Slot, y: Key)
    requires slots != [] && FirstFree(slots, h, f) && Matches(s, y, h)
    ensures
      var n := slots[At(h, f, |slots|) := s];
      Lookup(n, y, h) == if MetFirst(slots, y, h) then Lookup(slots, y, h) else Some(s.ilk)
  {
    var i := At(h, f, |slots|);
    var n := slots[i := s];
    forall q: nat | q < f ensures n[At(h, q, |n|)] == slots[At(h, q, |slots|)] { AtDistinct(h, f, q, |slots|); }
    if MetFirst(slots, y, h) {
      var q: nat :| q < |slots| && Matches(slots[At(h, q, |slots|)], y, h) && Taken(slots, h, q);
      assert q < f;
      ProbeFront(slots, n, y, h, f, 0);
    } else {
      forall q: nat | q < f ensures !Matches(n[At(h, q, |n|)], y, h) { assert Taken(slots, h, q); }
      ProbeReaches(n, y, h, f, 0);
    }
  }

  /** Lookups of the other keys are not touched. */
  lemma OthersFound(slots: seq<Slot>, hash: Key -> nat, i: nat, s: Slot, x: Key)
    requires WellFormed(slots, hash) && i < |slots| && !Live(slots[i]) && s.flags != 0
    requires !Matches(s, x, hash(x))
    ensures Lookup(slots[i := s], x, hash(x)) == Lookup(slots, x, hash(x))
  {
    var n, h := slots[i := s], hash(x);
    LookupIsScan(slots, hash, x);
    ProbeExact(n, x, h, 0);
    if Lookup(n, x, h).Some? {
      var q: nat :| FoundAt(n, x, h, q) && n[At(h, q, |n|)].ilk == Lookup(n, x, h).value;
      ScanIs(slots, At(h, q, |n|), x, hash);
    } else if j: nat :| Holds(slots, j, x, hash) {
      ReachableStays(slots, i, s, h, j);
      var p: nat :| p < |n| && At(h, p, |n|) == j && PathFull(n, h, p);
      assert FoundAt(n, x, h, p);
      assert false;
    }
  }

  /** On every well-formed table, a key with a NUL changes no lookup exactly when it does not share its hash with the
      key that is stored for it, or that key is met on the path before the first free slot, or has this ILK already. */
  lemma NulHarmlessIff(slots: seq<Slot>, hash: Key -> nat, k: Key, ilk: seq<Byte>)
    requires WellFormed(slots, hash) && LengthsOk(k) && !Fits(k) && Upserted(slots, k, hash(k), ilk).Some?
    ensures
      var n, y := Upserted(slots, k, hash(k), ilk).value, Stored(k);
      (forall x :: Lookup(n, x, hash(x)) == Lookup(slots, x, hash(x))) <==>
        Harmless(k, hash) || MetFirst(slots, y, hash(k)) || Lookup(slots, y, hash(k)) == Some(ilk)
  {
    var n, h, y := Upserted(slots, k, hash(k), ilk).value, hash(k), Stored(k);
    var i, s := Chosen(Choose(slots, k, h, 0, None)).value, Written(k, h, ilk);
    NulTakesFree(slots, k, h, ilk);
    WrittenHolds(k, h, ilk);
    forall x | x != y || Harmless(k, hash) ensures Lookup(n, x, hash(x)) == Lookup(slots, x, hash(x)) {
      OthersFound(slots, hash, i, s, x);
    }
    if !Harmless(k, hash) {
      FillsFirstFree(slots, k, h, 0, None, 0);
      var f: nat :| FirstFree(slots, h, f) && At(h, f, |slots|) == i;
      PutAtFirstFree(slots, h, f, s, y);
    }
  }

  // ---- removing ----

  /** The slot a removal writes. */
  function Seek(slots: seq<Slot>, k: Key, h: nat, p: nat): (r: Option<nat>)
    requires slots != [] && p <= |slots|
    ensures r.Some? ==> r.value < |slots|
    decreases |slots| - p
  {
    if p == |slots| then None
    else
      var i := At(h, p, |slots|);
      if slots[i].flags == 0 then None
      else if Matches(slots[i], k, h) then Some(i)
      else Seek(slots, k, h, p + 1)
  }

  function Buried(h: nat): Slot { Slot(TOMBSTONE, h, Zeros(CHANNEL_SIZE), Zeros(ADDRESS_SIZE), Zeros(16), Zeros(16)) }

  function Removed(slots: seq<Slot>, k: Key, h: nat): seq<Slot>
    requires slots != []
  {
    var i := Seek(slots, k, h, 0);
    if i.Some? then slots[i.value := Buried(h)] else slots
  }

  lemma {:induction false} SeekMeans(slots: seq<Slot>, k: Key, h: nat, p: nat)
    requires slots != [] && p <= |slots| && Passed(slots, k, h, p)
    ensures
      match Seek(slots, k, h, p)
      case Some(i) => Matches(slots[i], k, h)
      case None => Unfound(slots, k, h)
    decreases |slots| - p
  {
    if p < |slots| {
      var i := At(h, p, |slots|);
      if slots[i].flags == 0 {
        EmptyEnds(slots, k, h, p);
      } else if !Matches(slots[i], k, h) {
        PassOne(slots, k, h, p);
        SeekMeans(slots, k, h, p + 1);
      }
    }
  }

  /** A removal keeps the table well formed and takes one key out of the map it stands for. */
  lemma RemoveRefines(slots: seq<Slot>, hash: Key -> nat, k: Key, x: Key)
    requires WellFormed(slots, hash)
    ensures WellFormed(Removed(slots, k, hash(k)), hash)
    ensures Scan(Removed(slots, k, hash(k)), x, hash) == if x == k then None else Scan(slots, x, hash)
    ensures Seek(slots, k, hash(k), 0).Some? <==> Scan(slots, k, hash).Some?
  {
    var h := hash(k);
    SeekMeans(slots, k, h, 0);
    match Seek(slots, k, h, 0) {
      case None =>
        forall j: nat ensures !Holds(slots, j, k, hash) { UnfoundIsAbsent(slots, hash, k, j); }
      case Some(i) =>
        assert Holds(slots, i, k, hash);
        WriteKeeps(slots, hash, i, Buried(h));
        ScanBuried(slots, i, h, k, x, hash);
    }
  }

  lemma ScanBuried(slots: seq<Slot>, i: nat, h: nat, k: Key, x: Key, hash: Key -> nat)
    requires Holds(slots, i, k, hash) && UniqueKeys(slots, hash) && UniqueKeys(slots[i := Buried(h)], hash)
    ensures Scan(slots[i := Buried(h)], x, hash) == if x == k then None else Scan(slots, x, hash)
  {
    var n := slots[i := Buried(h)];
    assert forall j: nat :: Holds(n, j, x, hash) <==> Holds(slots, j, x, hash) && j != i;
    if x == k {
      forall j: nat ensures !Holds(n, j, x, hash) {
        if Holds(slots, j, k, hash) { OneHolder(slots, i, j, k, hash); }
      }
    } else if exists j: nat :: Holds(slots, j, x, hash) {
      var j: nat :| Holds(slots, j, x, hash);
      ScanIs(slots, j, x, hash);
      ScanIs(n, j, x, hash);
    }
  }

  // ---- clearing an ILK's mappings ----

  const Blank := Slot(0, 0, Zeros(CHANNEL_SIZE), Zeros(ADDRESS_SIZE), Zeros(16), Zeros(16))

  predicate Cleared(s: Slot, ilk: seq<Byte>) { s.flags % 2 == 1 && s.ilk == ilk }

  function Clear(slots: seq<Slot>, ilk: seq<Byte>): seq<Slot> {
    seq(|slots|, i requires 0 <= i < |slots| => if Cleared(slots[i], ilk) then Blank else slots[i])
  }

  lemma ClearAt(slots: seq<Slot>, ilk: seq<Byte>, i: nat)
    requires i < |slots|
    ensures |Clear(slots, ilk)| == |slots| && Clear(slots, ilk)[i] == if Cleared(slots[i], ilk) then Blank else slots[i]
  {
  }

  /** Slot j is reached by p probes over slots that are neither empty nor blanked. */
  ghost predicate KeptPath(slots: seq<Slot>, ilk: seq<Byte>, j: nat, p: nat)
    requires slots != [] && j < |slots|
  {
    var h := slots[j].hash;
    && p < |slots| && At(h, p, |slots|) == j
    && forall q: nat :: q < p ==> slots[At(h, q, |slots|)].flags != 0 && !Cleared(slots[At(h, q, |slots|)], ilk)
  }

  /** No slot that is blanked lies on the path of one that stays. */
  ghost predicate NoHole(slots: seq<Slot>, ilk: seq<Byte>, hash: Key -> nat)
    requires slots != []
  {
    forall j: nat :: j < |slots| && Answers(slots[j], hash) && !Cleared(slots[j], ilk) ==>
      exists p: nat :: KeptPath(slots, ilk, j, p)
  }

  lemma KeptPathFull(slots: seq<Slot>, ilk: seq<Byte>, j: nat, p: nat)
    requires slots != [] && j < |slots|
    ensures KeptPath(slots, ilk, j, p) <==>
      p < |slots| && At(slots[j].hash, p, |slots|) == j && PathFull(Clear(slots, ilk), slots[j].hash, p)
  {
    var n, h := Clear(slots, ilk), slots[j].hash;
    forall q: nat
      ensures n[At(h, q, |n|)].flags != 0 <==>
        slots[At(h, q, |slots|)].flags != 0 && !Cleared(slots[At(h, q, |slots|)], ilk)
    {
      ClearAt(slots, ilk, At(h, q, |slots|));
    }
    assert |n| == |slots|;
  }

  lemma ClearKeepsKeys(slots: seq<Slot>, hash: Key -> nat, ilk: seq<Byte>)
    requires UniqueKeys(slots, hash)
    ensures UniqueKeys(Clear(slots, ilk), hash)
  {
    var n := Clear(slots, ilk);
    forall j: nat | j < |n| ensures Live(n[j]) ==> n[j] == slots[j] { ClearAt(slots, ilk, j); }
  }

  lemma ClearKeeps(slots: seq<Slot>, hash: Key -> nat, ilk: seq<Byte>)
    requires WellFormed(slots, hash) && NoHole(slots, ilk, hash)
    ensures WellFormed(Clear(slots, ilk), hash)
  {
    var n := Clear(slots, ilk);
    ClearKeepsKeys(slots, hash, ilk);
    forall j: nat | j < |n| && Answers(n[j], hash) ensures Reachable(n, n[j].hash, j) {
      ClearAt(slots, ilk, j);
      var p: nat :| KeptPath(slots, ilk, j, p);
      KeptPathFull(slots, ilk, j, p);
    }
  }

  /** Lookups agree with the scan, for every key. */
  ghost predicate Agrees(slots: seq<Slot>, hash: Key -> nat)
    requires slots != []
  {
    forall k :: Lookup(slots, k, hash(k)) == Scan(slots, k, hash)
  }

  /** After a clear, lookups agree with the scan for every key exactly when no blanked slot lies on the path of one
      that stays. */
  lemma ClearAgreesIff(slots: seq<Slot>, hash: Key -> nat, ilk: seq<Byte>)
    requires WellFormed(slots, hash)
    ensures Agrees(Clear(slots, ilk), hash) <==> NoHole(slots, ilk, hash)
  {
    var n := Clear(slots, ilk);
    if NoHole(slots, ilk, hash) {
      ClearKeeps(slots, hash, ilk);
      forall k ensures Lookup(n, k, hash(k)) == Scan(n, k, hash) { LookupIsScan(n, hash, k); }
    }
    if Agrees(n, hash) {
      forall j: nat | j < |slots| && Answers(slots[j], hash) && !Cleared(slots[j], ilk)
        ensures exists p: nat :: KeptPath(slots, ilk, j, p)
      {
        assert Lookup(n, KeyOf(slots[j]), hash(KeyOf(slots[j]))) == Scan(n, KeyOf(slots[j]), hash);
        StillFound(slots, hash, ilk, j);
      }
    }
  }

  lemma StillFound(slots: seq<Slot>, hash: Key -> nat, ilk: seq<Byte>, j: nat)
    requires WellFormed(slots, hash) && j < |slots| && Answers(slots[j], hash) && !Cleared(slots[j], ilk)
    requires
      var n, k := Clear(slots, ilk), KeyOf(slots[j]);
      Lookup(n, k, hash(k)) == Scan(n, k, hash)
    ensures exists p: nat :: KeptPath(slots, ilk, j, p)
  {
    var n, k, h := Clear(slots, ilk), KeyOf(slots[j]), slots[j].hash;
    ClearAt(slots, ilk, j);
    assert Holds(n, j, k, hash);
    ProbeExact(n, k, h, 0);
    var p: nat :| FoundAt(n, k, h, p);
    var i := At(h, p, |n|);
    ClearAt(slots, ilk, i);
    OneHolder(slots, i, j, k, hash);
    KeptPathFull(slots, ilk, j, p);
  }

  /** What a clear takes out of the table: exactly the mappings of that ILK. */
  lemma ClearScan(slots: seq<Slot>, hash: Key -> nat, ilk: seq<Byte>, x: Key)
    requires WellFormed(slots, hash)
    ensures Scan(Clear(slots, ilk), x, hash) ==
      if Scan(slots, x, hash) == Some(ilk) then None else Scan(slots, x, hash)
  {
    var n := Clear(slots, ilk);
    ClearKeepsKeys(slots, hash, ilk);
    forall j: nat | j < |slots| ensures Holds(n, j, x, hash) <==> Holds(slots, j, x, hash) && slots[j].ilk != ilk {
      ClearAt(slots, ilk, j);
    }
    if j: nat :| Holds(slots, j, x, hash) {
      ScanIs(slots, j, x, hash);
      ClearAt(slots, ilk, j);
      if slots[j].ilk != ilk {
        ScanIs(n, j, x, hash);
      } else {
        forall i: nat ensures !Holds(n, i, x, hash) {
          if i < |slots| && Holds(slots, i, x, hash) { OneHolder(slots, i, j, x, hash); }
        }
      }
    } else {
      forall i: nat ensures !Holds(n, i, x, hash) { }
    }
  }

  /** Two keys with one home in a table of two: clearing the first one's ILK hides the second, which stays in the
      table. */
  lemma ClearHidesNeighbour(hash: Key -> nat, a: Key, b: Key, x: seq<Byte>, y: seq<Byte>)
    requires Fits(a) && Fits(b) && a != b && hash(a) % 2 == 0 && hash(b) % 2 == 0 && x != y
    ensures
      var slots := [Written(a, hash(a), x), Written(b, hash(b), y)];
      && WellFormed(slots, hash)
      && Scan(Clear(slots, x), b, hash) == Some(y) && Lookup(Clear(slots, x), b, hash(b)) == None
  {
    var s, t := Written(a, hash(a), x), Written(b, hash(b), y);
    WrittenHolds(a, hash(a), x);
    WrittenHolds(b, hash(b), y);
    TwoSlots(hash, s, t);
    var slots := [s, t];
    ClearAt(slots, x, 0);
    ClearAt(slots, x, 1);
    ClearKeepsKeys(slots, hash, x);
    HiddenByBlank(Clear(slots, x), t, b, hash);
  }

  lemma TwoSlots(hash: Key -> nat, s: Slot, t: Slot)
    requires Answers(s, hash) && Answers(t, hash) && KeyOf(s) != KeyOf(t) && s.hash % 2 == 0 && t.hash % 2 == 0
    ensures WellFormed([s, t], hash)
  {
    var slots := [s, t];
    assert UniqueKeys(slots, hash);
    assert PathsFull(slots, hash) by { TwoPaths(slots, hash); }
  }

  lemma FirstTwo(h: nat, n: nat)
    requires n == 2 && h % 2 == 0
    ensures At(h, 0, n) == 0 && At(h, 1, n) == 1
  {
  }

  lemma TwoPaths(slots: seq<Slot>, hash: Key -> nat)
    requires |slots| == 2 && slots[0].flags != 0 && slots[0].hash % 2 == 0 && slots[1].hash % 2 == 0
    ensures PathsFull(slots, hash)
  {
    FirstTwo(slots[0].hash, |slots|);
    FirstTwo(slots[1].hash, |slots|);
    ReachedBy(slots, slots[0].hash, 0, 0);
    ReachedBy(slots, slots[1].hash, 1, 1);
    forall j: nat | j < |slots| ensures Reachable(slots, slots[j].hash, j) {
      assert j == 0 || j == 1;
    }
  }

  lemma HiddenByBlank(n: seq<Slot>, t: Slot, b: Key, hash: Key -> nat)
    requires |n| == 2 && n[0].flags == 0 && n[1] == t && Answers(t, hash) && KeyOf(t) == b && UniqueKeys(n, hash)
    requires hash(b) % 2 == 0
    ensures Scan(n, b, hash) == Some(t.ilk) && Lookup(n, b, hash(b)) == None
  {
    assert Holds(n, 1, b, hash);
    ScanIs(n, 1, b, hash);
    FirstTwo(hash(b), 2);
  }

  // ---- every run of the writer ----

  datatype Op = Put(k: Key, ilk: seq<Byte>) | Drop(k: Key)

  /** Too long a key, or no room. */
  predicate Refused(slots: seq<Slot>, op: Op, hash: Key -> nat)
    requires slots != []
  {
    op.Put? && (!LengthsOk(op.k) || Upserted(slots, op.k, hash(op.k), op.ilk).None?)
  }

  function Apply(slots: seq<Slot>, op: Op, hash: Key -> nat): (n: seq<Slot>)
    requires slots != []
    ensures n != []
  {
    if Refused(slots, op, hash) then slots
    else
      match op
      case Put(k, ilk) => Upserted(slots, k, hash(k), ilk).value
      case Drop(k) => Removed(slots, k, hash(k))
  }

  /** The same on a map; a key with a NUL is never found again. */
  function ApplyMap(m: map<Key, seq<Byte>>, op: Op, refused: bool): map<Key, seq<Byte>> {
    match op
    case Put(k, ilk) => if refused || !Fits(k) then m else m[k := ilk]
    case Drop(k) => m - {k}
  }

  function Run(slots: seq<Slot>, ops: seq<Op>, hash: Key -> nat): (n: seq<Slot>)
    requires slots != []
    ensures n != []
    decreases |ops|
  {
    if ops == [] then slots else Run(Apply(slots, ops[0], hash), ops[1..], hash)
  }

  function RunMap(slots: seq<Slot>, m: map<Key, seq<Byte>>, ops: seq<Op>, hash: Key -> nat): map<Key, seq<Byte>>
    requires slots != []
    decreases |ops|
  {
    if ops == [] then m
    else RunMap(Apply(slots, ops[0], hash), ApplyMap(m, ops[0], Refused(slots, ops[0], hash)), ops[1..], hash)
  }

  function In(m: map<Key, seq<Byte>>, k: Key): Option<seq<Byte>> { if k in m then Some(m[k]) else None }

  ghost predicate StandsFor(slots: seq<Slot>, m: map<Key, seq<Byte>>, hash: Key -> nat) {
    WellFormed(slots, hash) && forall k :: Scan(slots, k, hash) == In(m, k)
  }

  /** An accepted put is of a harmless key. */
  predicate OpOk(slots: seq<Slot>, op: Op, hash: Key -> nat)
    requires slots != []
  {
    op.Put? && !Refused(slots, op, hash) ==> Harmless(op.k, hash)
  }

  lemma ApplyStandsForIff(slots: seq<Slot>, m: map<Key, seq<Byte>>, op: Op, hash: Key -> nat)
    requires StandsFor(slots, m, hash)
    ensures
      StandsFor(Apply(slots, op, hash), ApplyMap(m, op, Refused(slots, op, hash)), hash) <==> OpOk(slots, op, hash)
  {
    var n, m' := Apply(slots, op, hash), ApplyMap(m, op, Refused(slots, op, hash));
    if op.Drop? {
      RemoveRefines(slots, hash, op.k, op.k);
      forall x ensures Scan(n, x, hash) == In(m', x) { RemoveRefines(slots, hash, op.k, x); }
    } else if !Refused(slots, op, hash) {
      UpsertRefines(slots, hash, op.k, op.ilk);
      assert forall x :: In(m', x) == if Fits(op.k) && x == op.k then Some(op.ilk) else Scan(slots, x, hash);
    }
  }

  ghost predicate AllHarmless(slots: seq<Slot>, ops: seq<Op>, hash: Key -> nat)
    requires slots != []
    decreases |ops|
  {
    ops == [] || (OpOk(slots, ops[0], hash) && AllHarmless(Apply(slots, ops[0], hash), ops[1..], hash))
  }

  /** After each operation the table stands for the map. */
  ghost predicate AlwaysStandsFor(slots: seq<Slot>, m: map<Key, seq<Byte>>, ops: seq<Op>, hash: Key -> nat)
    decreases |ops|
  {
    && StandsFor(slots, m, hash)
    && (ops == [] || AlwaysStandsFor(Apply(slots, ops[0], hash),
                                     ApplyMap(m, ops[0], Refused(slots, ops[0], hash)), ops[1..], hash))
  }

  /** From a table that stands for a map, every run of upserts and removals of any keys leaves, after each of them, a
      table that stands for the map, if and only if no accepted put is of a harmful key; lookups are then the map's. */
  lemma {:induction false} RunStandsFor(slots: seq<Slot>, m: map<Key, seq<Byte>>, ops: seq<Op>, hash: Key -> nat)
    requires StandsFor(slots, m, hash)
    ensures AlwaysStandsFor(slots, m, ops, hash) <==> AllHarmless(slots, ops, hash)
    ensures AllHarmless(slots, ops, hash) ==>
      forall k :: Lookup(Run(slots, ops, hash), k, hash(k)) == In(RunMap(slots, m, ops, hash), k)
    decreases |ops|
  {
    if ops == [] {
      forall k ensures Lookup(slots, k, hash(k)) == In(m, k) { LookupIsScan(slots, hash, k); }
    } else {
      var n, m' := Apply(slots, ops[0], hash), ApplyMap(m, ops[0], Refused(slots, ops[0], hash));
      ApplyStandsForIff(slots, m, ops[0], hash);
      if StandsFor(n, m', hash) { RunStandsFor(n, m', ops[1..], hash); }
    }
  }

  lemma BlankStandsFor(slots: seq<Slot>, hash: Key -> nat)
    requires slots != [] && forall i :: 0 <= i < |slots| ==> slots[i] == Blank
    ensures StandsFor(slots, map[], hash)
  {
    forall j: nat | j < |slots| ensures !Live(slots[j]) { assert slots[j] == Blank; }
  }

  // ---- the hash ----

  const FNV_BASIS: bv64 := 0xcbf29ce484222325
  const FNV_PRIME: bv64 := 0x100000001b3

  function Mix(h: bv64, b: Byte): bv64 { (h ^ (b as bv64)) * FNV_PRIME }

  function Fold<T>(mix: (T, Byte) -> T, h: T, bs: seq<Byte>): T {
    if bs == [] then h else mix(Fold(mix, h, bs[..|bs| - 1]), bs[|bs| - 1])
  }

  /** The byte string that is hashed: each part ends at a byte no UTF-8 text holds. */
  function Framed(k: Key): seq<Byte> { k.channel + [0xff] + k.address + [0xfe] + k.tenant }

  /** Distinct keys are distinct byte strings: the separators leave no ambiguity. */
  lemma FramedInjective(a: Key, b: Key)
    requires 0xff !in a.channel && 0xff !in b.channel && |a.tenant| == |b.tenant|
    ensures Framed(a) == Framed(b) <==> a == b
  {
    if Framed(a) == Framed(b) {
      var f, n, m := Framed(a), |a.channel|, |b.channel|;
      assert f[n] == 0xff && f[m] == 0xff;
      assert n == m;
      assert a.channel == f[..n] && b.channel == f[..m];
      assert a.address == f[n + 1..n + 1 + |a.address|] && b.address == f[m + 1..m + 1 + |b.address|];
      assert a.tenant == f[n + |a.address| + 2..] && b.tenant == f[m + |b.address| + 2..];
    }
  }

  lemma FoldSnoc<T>(mix: (T, Byte) -> T, h: T, bs: seq<Byte>, b: Byte)
    ensures Fold(mix, h, bs + [b]) == mix(Fold(mix, h, bs), b)
  {
    assert (bs + [b])[..|bs|] == bs;
  }

  method MixAll<T>(mix: (T, Byte) -> T, h: T, bs: seq<Byte>, ghost start: T, ghost before: seq<Byte>) returns (r: T)
    requires h == Fold(mix, start, before)
    ensures r == Fold(mix, start, before + bs)
  {
    r := h;
    assert before + bs[..0] == before;
    for i := 0 to |bs|
      invariant r == Fold(mix, start, before + bs[..i])
    {
      FoldSnoc(mix, start, before + bs[..i], bs[i]);
      assert before + bs[..i + 1] == before + bs[..i] + [bs[i]];
      r := mix(r, bs[i]);
    }
    assert bs[..|bs|] == bs;
  }

  method HashKey<T>(mix: (T, Byte) -> T, start: T, k: Key) returns (h: T)
    ensures h == Fold(mix, start, Framed(k))
  {
    h := MixAll(mix, start, k.channel, start, []);
    ghost var done := [] + k.channel;
    FoldSnoc(mix, start, done, 0xff);
    h := mix(h, 0xff);
    h := MixAll(mix, h, k.address, start, done + [0xff]);
    done := done + [0xff] + k.address;
    FoldSnoc(mix, start, done, 0xfe);
    h := mix(h, 0xfe);
    h := MixAll(mix, h, k.tenant, start, done + [0xfe]);
    assert done + [0xfe] + k.tenant == Framed(k);
  }

  /** FNV-1a over the framed key. */
  method IchHash(k: Key) returns (h: bv64)
    ensures h == Fold(Mix, FNV_BASIS, Framed(k))
  {
    h := HashKey(Mix, FNV_BASIS, k);
  }

  /** A published test value of the 64-bit FNV-1a hash: that of the one byte "a". */
  lemma HashOfOneByte()
    ensures Fold(Mix, FNV_BASIS, [0x61]) == 0xaf63dc4c8601ec8c
  {
    assert [0x61][..0] == [];
    assert Fold(Mix, FNV_BASIS, [0x61]) == Mix(FNV_BASIS, 0x61);
  }

  // ---- the reader on raw bytes ----

  function Little(bs: seq<Byte>): nat { if bs == [] then 0 else bs[0] + 256 * Little(bs[1..]) }

  /** Slot i of a region of entries of 384 bytes. */
  function SlotAt(table: seq<Byte>, i: nat): Slot
    requires (i + 1) * ENTRY_SIZE <= |table|
  {
    var at := i * ENTRY_SIZE;
    Slot(Little(table[at + 344..at + 346]), Little(table[at..at + 8]), table[at + 8..at + 40], table[at + 40..at + 296],
         table[at + 312..at + 328], table[at + 328..at + 344])
  }

  function Slots(table: seq<Byte>, n: nat): seq<Slot>
    requires n * ENTRY_SIZE <= |table|
  {
    seq(n, i requires 0 <= i < n => SlotAt(table, i))
  }

  /** n in this many bytes, the lowest first. */
  function InBytes(n: nat, size: nat): (bs: seq<Byte>)
    ensures |bs| == size
    decreases size
  {
    if size == 0 then [] else [n % 256] + InBytes(n / 256, size - 1)
  }

  function Pow256(size: nat): nat { if size == 0 then 1 else 256 * Pow256(size - 1) }

  lemma {:induction false} LittleReadsBack(n: nat, size: nat)
    requires n < Pow256(size)
    ensures Little(InBytes(n, size)) == n
    decreases size
  {
    if size > 0 {
      assert n / 256 < Pow256(size - 1);
      LittleReadsBack(n / 256, size - 1);
      assert InBytes(n, size)[1..] == InBytes(n / 256, size - 1);
    }
  }

  /** An entry as the writer's record lays it out: the hash, the two strings, the ids of the ICH, the ILK and the
      tenant, the flags, and what is reserved. */
  function EntryBytes(s: Slot, ich: seq<Byte>, reserved: seq<Byte>): seq<Byte> {
    InBytes(s.hash, 8) + s.channel + s.address + ich + s.ilk + s.tenant + InBytes(s.flags, 2) + reserved
  }

  predicate Sized(s: Slot, ich: seq<Byte>, reserved: seq<Byte>) {
    && s.hash < 0x1_0000_0000_0000_0000 && s.flags < 0x1_0000 && |s.channel| == 32 && |s.address| == 256
    && |ich| == 16 && |s.ilk| == 16 && |s.tenant| == 16 && |reserved| == 38
  }

  /** The reader's offsets are the writer's: every entry, wherever it lies in the region, is read back. */
  lemma LayoutReadsBack(s: Slot, ich: seq<Byte>, reserved: seq<Byte>, table: seq<Byte>, i: nat)
    requires Sized(s, ich, reserved) && (i + 1) * 384 <= |table|
    requires table[i * 384..(i + 1) * 384] == EntryBytes(s, ich, reserved)
    ensures SlotAt(table, i) == s
  {
    var e, at := EntryBytes(s, ich, reserved), i * 384;
    EntryParts(s, ich, reserved);
    PartOf(table, e, at, 0, 8);
    PartOf(table, e, at, 8, 40);
    PartOf(table, e, at, 40, 296);
    PartOf(table, e, at, 312, 328);
    PartOf(table, e, at, 328, 344);
    PartOf(table, e, at, 344, 346);
    assert Pow256(8) == 0x1_0000_0000_0000_0000 && Pow256(2) == 0x1_0000 by { Powers(); }
    LittleReadsBack(s.hash, 8);
    LittleReadsBack(s.flags, 2);
  }

  lemma Powers()
    ensures Pow256(2) == 0x1_0000 && Pow256(8) == 0x1_0000_0000_0000_0000
  {
    assert Pow256(3) == 0x100_0000 && Pow256(4) == 0x1_0000_0000 && Pow256(5) == 0x100_0000_0000;
    assert Pow256(6) == 0x1_0000_0000_0000 && Pow256(7) == 0x100_0000_0000_0000;
  }

  lemma EntryParts(s: Slot, ich: seq<Byte>, reserved: seq<Byte>)
    requires Sized(s, ich, reserved)
    ensures
      var e := EntryBytes(s, ich, reserved);
      && |e| == 384 && e[0..8] == InBytes(s.hash, 8) && e[8..40] == s.channel && e[40..296] == s.address
      && e[312..328] == s.ilk && e[328..344] == s.tenant && e[344..346] == InBytes(s.flags, 2)
  {
  }

  lemma PartOf(table: seq<Byte>, e: seq<Byte>, at: nat, a: nat, b: nat)
    requires a <= b <= 384 && at + 384 <= |table| && table[at..at + 384] == e
    ensures table[at + a..at + b] == e[a..b]
  {
    var x, y := table[at + a..at + b], e[a..b];
    assert |x| == |y| && forall j :: 0 <= j < |x| ==> x[j] == y[j];
  }

  /** The probe over the mapped bytes; a region too short holds nothing. */
  method SearchMappings(table: seq<Byte>, n: nat, h: nat, k: Key) returns (ilk: Option<seq<Byte>>)
    requires n > 0
    ensures ilk == if |table| < n * ENTRY_SIZE then None else Lookup(Slots(table, n), k, h)
  {
    if |table| < n * ENTRY_SIZE {
      return None;
    }
    ghost var slots := Slots(table, n);
    var probe := 0;
    while probe < n
      invariant 0 <= probe <= n && Probe(slots, k, h, 0) == Probe(slots, k, h, probe)
    {
      var hit := SearchOne(table, n, h, k, At(h, probe, n));
      if hit.Stop? {
        return hit.ilk;
      }
      probe := probe + 1;
    }
    return None;
  }

  datatype Hit = Stop(ilk: Option<seq<Byte>>) | PassOn

  method SearchOne(table: seq<Byte>, n: nat, h: nat, k: Key, i: nat) returns (hit: Hit)
    requires n * ENTRY_SIZE <= |table| && i < n
    ensures
      var s := Slots(table, n)[i];
      hit == if s.flags == 0 then Stop(None) else if Matches(s, k, h) then Stop(Some(s.ilk)) else PassOn
  {
    var s := SlotAt(table, i);
    assert s == Slots(table, n)[i];
    if s.flags == 0 {
      return Stop(None);
    }
    if Tombstoned(s.flags) {
      return PassOn;
    }
    if s.flags % 2 == 0 {
      return PassOn;
    }
    if s.hash != h {
      return PassOn;
    }
    var same := FixedStrMatches(s.channel, k.channel);
    if !same {
      return PassOn;
    }
    same := FixedStrMatches(s.address, k.address);
    if !same {
      return PassOn;
    }
    if s.tenant != k.tenant {
      return PassOn;
    }
    return Stop(Some(s.ilk));
  }

  // ---- the writer's loops ----

  function LiveCount(slots: seq<Slot>): nat {
    if slots == [] then 0 else (if Live(slots[0]) then 1 else 0) + LiveCount(slots[1..])
  }

  lemma {:induction false} LiveCountUpdate(slots: seq<Slot>, i: nat, s: Slot)
    requires i < |slots|
    ensures
      LiveCount(slots[i := s]) + (if Live(slots[i]) then 1 else 0) == LiveCount(slots) + (if Live(s) then 1 else 0)
  {
    if i == 0 {
      assert slots[i := s][1..] == slots[1..];
    } else {
      assert slots[i := s][1..] == slots[1..][i - 1 := s];
      LiveCountUpdate(slots[1..], i - 1, s);
    }
  }

  /** Only the three kinds of slot the writer makes. */
  ghost predicate Kinds(slots: seq<Slot>) {
    forall i :: 0 <= i < |slots| ==> slots[i].flags == 0 || slots[i].flags == OCCUPIED || slots[i].flags == TOMBSTONE
  }

  // ---- keys with a NUL use up the table ----

  lemma {:induction false} LiveCountMost(slots: seq<Slot>)
    ensures LiveCount(slots) <= |slots|
    ensures LiveCount(slots) == |slots| <==> forall i :: 0 <= i < |slots| ==> Live(slots[i])
  {
    if slots != [] {
      LiveCountMost(slots[1..]);
      if forall i :: 0 <= i < |slots| ==> Live(slots[i]) {
        forall i | 0 <= i < |slots| - 1 ensures Live(slots[1..][i]) { assert Live(slots[i + 1]); }
      }
      if LiveCount(slots) == |slots| {
        forall i | 0 <= i < |slots| ensures Live(slots[i]) { if i > 0 { assert Live(slots[1..][i - 1]); } }
      }
    }
  }

  /** An accepted put of a key with a NUL takes one more slot, also when the same key was put before, and no removal of
      the key gives one back. */
  lemma NulPutLeaks(slots: seq<Slot>, k: Key, h: nat, ilk: seq<Byte>)
    requires slots != [] && LengthsOk(k) && !Fits(k)
    ensures Removed(slots, k, h) == slots
    ensures Upserted(slots, k, h, ilk).Some? ==> LiveCount(Upserted(slots, k, h, ilk).value) == LiveCount(slots) + 1
  {
    SeekMeans(slots, k, h, 0);
    var r := Seek(slots, k, h, 0);
    if r.Some? { NulNeverMatches(slots[r.value], k, h); }
    if Upserted(slots, k, h, ilk).Some? {
      NulTakesFree(slots, k, h, ilk);
      WrittenHolds(k, h, ilk);
      LiveCountUpdate(slots, Chosen(Choose(slots, k, h, 0, None)).value, Written(k, h, ilk));
    }
  }

  lemma NulPutKinds(slots: seq<Slot>, k: Key, h: nat, ilk: seq<Byte>)
    requires slots != [] && Kinds(slots) && LengthsOk(k) && !Fits(k)
    ensures
      match Upserted(slots, k, h, ilk)
      case Some(n) => Kinds(n) && |n| == |slots|
      case None => LiveCount(slots) == |slots|
  {
    if Upserted(slots, k, h, ilk).Some? {
      NulTakesFree(slots, k, h, ilk);
    } else {
      ChooseMeans(slots, k, h, 0, None);
      assert Choose(slots, k, h, 0, None).Full?;
      forall j | 0 <= j < |slots| ensures Live(slots[j]) { FullIsFull(slots, k, h, j); }
      LiveCountMost(slots);
    }
  }

  function Puts(k: Key, ilk: seq<Byte>, n: nat): seq<Op> { seq(n, _ => Put(k, ilk)) }

  /** One key with a NUL, put often enough, fills the whole table. */
  lemma {:induction false} NulPutsFill(slots: seq<Slot>, hash: Key -> nat, k: Key, ilk: seq<Byte>, n: nat)
    requires slots != [] && Kinds(slots) && LengthsOk(k) && !Fits(k)
    ensures
      var filled := LiveCount(slots) + n;
      LiveCount(Run(slots, Puts(k, ilk, n), hash)) == if filled <= |slots| then filled else |slots|
    decreases n
  {
    LiveCountMost(slots);
    if n > 0 {
      var ops := Puts(k, ilk, n);
      assert ops[1..] == Puts(k, ilk, n - 1) && ops[0] == Put(k, ilk);
      NulPutLeaks(slots, k, hash(k), ilk);
      NulPutKinds(slots, k, hash(k), ilk);
      NulPutsFill(Apply(slots, ops[0], hash), hash, k, ilk, n - 1);
    }
  }

  datatype Outcome = Inserted | Updated | SlotFull | TooLong

  class Mappings {
    const slots: array<Slot>
    var count: nat

    /** The header's count is the number of live slots. */
    ghost predicate Valid()
      reads this, slots
    {
      Kinds(slots[..]) && count == LiveCount(slots[..])
    }

    constructor (n: nat)
      ensures Valid() && fresh(slots) && slots.Length == n && forall i :: 0 <= i < n ==> slots[i] == Blank
    {
      slots := new Slot[n](_ => Blank);
      count := 0;
      new;
      NoneLive(slots[..]);
    }

    method Put(i: nat, s: Slot)
      requires Kinds(slots[..]) && i < slots.Length && (s.flags == OCCUPIED || s.flags == TOMBSTONE || s.flags == 0)
      modifies slots
      ensures slots[..] == old(slots[..])[i := s] && Kinds(slots[..])
      ensures
        LiveCount(slots[..]) + (if Live(old(slots[i])) then 1 else 0) ==
        LiveCount(old(slots[..])) + (if Live(s) then 1 else 0)
    {
      LiveCountUpdate(slots[..], i, s);
      slots[i] := s;
      assert slots[..] == old(slots[..])[i := s];
    }

    /** The slot an upsert writes, and whether it holds the key already. */
    method Locate(k: Key, h: nat) returns (c: Choice)
      requires slots.Length > 0
      ensures c == Choose(slots[..], k, h, 0, None)
      ensures Chosen(c).Some? ==> Chosen(c).value < slots.Length && (c.Overwrite? <==> Live(slots[Chosen(c).value]))
    {
      var n := slots.Length;
      var tomb: Option<nat> := None;
      var probe := 0;
      while probe < n
        invariant 0 <= probe <= n && (tomb.Some? ==> tomb.value < n && !Live(slots[tomb.value]))
        invariant Choose(slots[..], k, h, 0, None) == Choose(slots[..], k, h, probe, tomb)
      {
        var idx := At(h, probe, n);
        var s := slots[idx];
        if s.flags == 0 {
          return Fill(if tomb.Some? then tomb.value else idx);
        }
        if Tombstoned(s.flags) {
          if tomb.None? { tomb := Some(idx); }
        } else if Matches(s, k, h) {
          return Overwrite(idx);
        }
        probe := probe + 1;
      }
      if tomb.Some? {
        return Fill(tomb.value);
      }
      return Full;
    }

    method Upsert(k: Key, h: nat, ilk: seq<Byte>) returns (o: Outcome)
      requires Valid()
      modifies this, slots
      ensures Valid()
      ensures o.TooLong? <==> !LengthsOk(k)
      ensures o.TooLong? || slots.Length == 0 ==> slots[..] == old(slots[..])
      ensures !o.TooLong? && slots.Length == 0 ==> o.SlotFull?
      ensures !o.TooLong? && slots.Length > 0 ==>
        var r := Upserted(old(slots[..]), k, h, ilk);
        && (o.SlotFull? <==> r.None?) && slots[..] == (if r.Some? then r.value else old(slots[..]))
        && (o.Inserted? <==> Choose(old(slots[..]), k, h, 0, None).Fill?)
    {
      if !LengthsOk(k) {
        return TooLong;
      }
      if slots.Length == 0 {
        return SlotFull;
      }
      var c := Locate(k, h);
      match c {
        case Full =>
          return SlotFull;
        case Fill(i) =>
          Put(i, Written(k, h, ilk));
          count := count + 1;
          return Inserted;
        case Overwrite(i) =>
          Put(i, Written(k, h, ilk));
          return Updated;
      }
    }

    method Find(k: Key, h: nat) returns (r: Option<nat>)
      requires slots.Length > 0
      ensures r == Seek(slots[..], k, h, 0) && (r.Some? ==> Live(slots[r.value]))
    {
      var n := slots.Length;
      var probe := 0;
      while probe < n
        invariant 0 <= probe <= n && Seek(slots[..], k, h, 0) == Seek(slots[..], k, h, probe)
      {
        var idx := At(h, probe, n);
        var s := slots[idx];
        if s.flags == 0 {
          return None;
        }
        if Matches(s, k, h) {
          return Some(idx);
        }
        probe := probe + 1;
      }
      return None;
    }

    method Remove(k: Key, h: nat) returns (removed: bool)
      requires Valid()
      modifies this, slots
      ensures Valid() && (slots.Length == 0 ==> !removed && slots[..] == old(slots[..]))
      ensures slots.Length > 0 ==>
        slots[..] == Removed(old(slots[..]), k, h) && (removed <==> Seek(old(slots[..]), k, h, 0).Some?)
    {
      if slots.Length == 0 {
        return false;
      }
      var i := Find(k, h);
      if i.None? {
        return false;
      }
      Put(i.value, Buried(h));
      count := count - 1;
      return true;
    }

    method ClearForIlk(ilk: seq<Byte>) returns (removed: nat)
      requires Valid()
      modifies this, slots
      ensures Valid() && slots[..] == Clear(old(slots[..]), ilk) && removed == old(count) - count
    {
      ghost var table := slots[..];
      removed := 0;
      for i := 0 to slots.Length
        invariant Kinds(slots[..]) && count == old(count) == LiveCount(slots[..]) + removed
        invariant forall j :: 0 <= j < i ==> slots[j] == Clear(table, ilk)[j]
        invariant forall j :: i <= j < slots.Length ==> slots[j] == table[j]
      {
        ClearAt(table, ilk, i);
        if Cleared(slots[i], ilk) {
          Put(i, Blank);
          removed := removed + 1;
        }
      }
      count := count - removed;
    }
  }

  lemma {:induction false} NoneLive(slots: seq<Slot>)
    requires forall i :: 0 <= i < |slots| ==> slots[i] == Blank
    ensures LiveCount(slots) == 0
  {
    if slots != [] {
      assert !Live(slots[0]);
      NoneLive(slots[1..]);
    }
  }
}
