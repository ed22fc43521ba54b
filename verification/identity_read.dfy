/**
 The lookup under the seqlock: a reader probes the mapped bytes load by load while a writer changes them, and keeps
 its answer only if the counter stood still. What it then returns is the lookup in one published generation.
 */
module IdentityRead {
  import opened Basics
  import opened IdentityTable
  import L = Seqlock

  // A slot takes ENTRY_SIZE, that is 384 bytes.

  /** The region: each cell is one byte. */
  function AsBytes(cells: seq<int>): (bs: seq<Byte>)
    ensures |bs| == |cells| && forall i :: 0 <= i < |cells| && 0 <= cells[i] < 256 ==> bs[i] == cells[i]
  {
    seq(|cells|, i requires 0 <= i < |cells| => (cells[i] % 256) as Byte)
  }

  // ---- loading block by block ----

  /** A whole block was just loaded, and the reader stops at it. */
  predicate Stops(got: seq<int>, stop: seq<int> -> bool) {
    |got| >= 384 && |got| % 384 == 0 && stop(got[|got| - 384..])
  }

  /** The loads of a reader that goes along a path of blocks, each byte by byte, until one stops it. */
  function Loads(path: nat -> nat, stop: seq<int> -> bool): L.Chooser {
    (got: seq<int>) =>
      if Stops(got, stop) then None else Some(path(|got| / 384) * 384 + |got| % 384)
  }

  ghost predicate Within(path: nat -> nat, n: nat) { forall p: nat :: p < n ==> path(p) < n }

  function Block(cells: seq<int>, i: nat): seq<int>
    requires (i + 1) * 384 <= |cells|
  {
    cells[i * 384..(i + 1) * 384]
  }

  /** The first block from place p of the path on that stops the reader. */
  ghost function FirstStop(cells: seq<int>, path: nat -> nat, stop: seq<int> -> bool, n: nat, p: nat): (i: Option<nat>)
    requires Within(path, n) && n * 384 <= |cells| && p <= n
    ensures i.Some? ==> i.value < n
    decreases n - p
  {
    if p == n then None
    else if stop(Block(cells, path(p))) then Some(path(p))
    else FirstStop(cells, path, stop, n, p + 1)
  }

  lemma InBlock(p: nat, b: nat)
    requires b < 384
    ensures (p * 384 + b) / 384 == p && (p * 384 + b) % 384 == b
  {
  }

  lemma Room(i: nat, b: nat, n: nat)
    requires i < n && b < 384
    ensures i * 384 + b < n * 384
  {
  }

  lemma ScanStep(cells: seq<int>, next: L.Chooser, got: seq<int>, max: nat)
    requires |got| < max && next(got).Some? && next(got).value < |cells|
    ensures L.Scan(cells, next, got, max) == L.Scan(cells, next, got + [cells[next(got).value]], max)
  {
  }

  lemma ScanEnd(cells: seq<int>, next: L.Chooser, got: seq<int>, max: nat)
    requires |got| <= max && (|got| == max || next(got).None?)
    ensures L.Scan(cells, next, got, max) == got
  {
  }

  /** Byte b of the block at place p. */
  lemma LoadOne(cells: seq<int>, path: nat -> nat, stop: seq<int> -> bool, n: nat, got: seq<int>, p: nat, b: nat)
    requires Within(path, n) && n * 384 <= |cells| && p < n && b < 384
    requires |got| == p * 384 + b && |got| / 384 == p && |got| % 384 == b && !Stops(got, stop)
    ensures path(p) * 384 + b < |cells|
    ensures L.Scan(cells, Loads(path, stop), got, n * 384) ==
            L.Scan(cells, Loads(path, stop), got + [cells[path(p) * 384 + b]], n * 384)
  {
    Room(p, b, n);
    Room(path(p), b, n);
    NextLoad(path, stop, got, p, b);
    ScanStep(cells, Loads(path, stop), got, n * 384);
  }

  lemma NextLoad(path: nat -> nat, stop: seq<int> -> bool, got: seq<int>, p: nat, b: nat)
    requires |got| / 384 == p && |got| % 384 == b && !Stops(got, stop)
    ensures Loads(path, stop)(got) == Some(path(p) * 384 + b)
  {
  }

  lemma TakeNext(block: seq<int>, before: seq<int>, b: nat)
    requires b < |block|
    ensures before + block[..b] + [block[b]] == before + block[..b + 1]
  {
  }

  /** The block at place p, from byte b on. */
  lemma {:induction false} LoadRest(
      cells: seq<int>, path: nat -> nat, stop: seq<int> -> bool, n: nat, before: seq<int>, p: nat, b: nat)
    requires Within(path, n) && n * 384 <= |cells| && p < n && b <= 384
    requires |before| == p * 384 && !Stops(before, stop)
    ensures
      var block := Block(cells, path(p));
      L.Scan(cells, Loads(path, stop), before + block[..b], n * 384) ==
      L.Scan(cells, Loads(path, stop), before + block, n * 384)
    decreases 384 - b
  {
    var block := Block(cells, path(p));
    if b == 384 {
      assert block[..b] == block;
    } else {
      var got := before + block[..b];
      InBlock(p, b);
      if b == 0 { assert got == before; }
      LoadOne(cells, path, stop, n, got, p, b);
      TakeNext(block, before, b);
      LoadRest(cells, path, stop, n, before, p, b + 1);
    }
  }

  lemma LoadBlock(cells: seq<int>, path: nat -> nat, stop: seq<int> -> bool, n: nat, got: seq<int>, p: nat)
    requires Within(path, n) && n * 384 <= |cells| && p < n && |got| == p * 384 && !Stops(got, stop)
    ensures
      var more := got + Block(cells, path(p));
      && |more| == (p + 1) * 384
      && L.Scan(cells, Loads(path, stop), got, n * 384) == L.Scan(cells, Loads(path, stop), more, n * 384)
      && more[|more| - 384..] == Block(cells, path(p))
      && (Stops(more, stop) <==> stop(Block(cells, path(p))))
  {
    assert got + Block(cells, path(p))[..0] == got;
    LoadRest(cells, path, stop, n, got, p, 0);
    InBlock(p + 1, 0);
  }

  lemma StoppedScan(cells: seq<int>, path: nat -> nat, stop: seq<int> -> bool, n: nat, got: seq<int>)
    requires |got| <= n * 384 && (|got| == n * 384 || Stops(got, stop))
    ensures L.Scan(cells, Loads(path, stop), got, n * 384) == got
  {
    ScanEnd(cells, Loads(path, stop), got, n * 384);
  }

  /** The loads ended with block i, which stopped the reader, or were never stopped. */
  ghost predicate EndedAt(cells: seq<int>, stop: seq<int> -> bool, end: seq<int>, at: Option<nat>) {
    match at
    case Some(i) => (i + 1) * 384 <= |cells| && Stops(end, stop) && end[|end| - 384..] == Block(cells, i)
    case None => !Stops(end, stop)
  }

  lemma StopStep(cells: seq<int>, path: nat -> nat, stop: seq<int> -> bool, n: nat, p: nat)
    requires Within(path, n) && n * 384 <= |cells| && p < n
    ensures FirstStop(cells, path, stop, n, p) ==
      if stop(Block(cells, path(p))) then Some(path(p)) else FirstStop(cells, path, stop, n, p + 1)
  {
  }

  /** Undisturbed, the reader ends with the first block that stops it, or with none. */
  lemma {:induction false} ScanBlocks(
      cells: seq<int>, path: nat -> nat, stop: seq<int> -> bool, n: nat, got: seq<int>, p: nat)
    requires Within(path, n) && n * 384 <= |cells| && p <= n && |got| == p * 384 && !Stops(got, stop)
    ensures EndedAt(cells, stop, L.Scan(cells, Loads(path, stop), got, n * 384), FirstStop(cells, path, stop, n, p))
    decreases n - p
  {
    if p == n {
      StoppedScan(cells, path, stop, n, got);
    } else {
      var more := got + Block(cells, path(p));
      LoadBlock(cells, path, stop, n, got, p);
      StopStep(cells, path, stop, n, p);
      if stop(Block(cells, path(p))) {
        StoppedScan(cells, path, stop, n, more);
      } else {
        ScanBlocks(cells, path, stop, n, more, p + 1);
      }
    }
  }

  // ---- the probe ----

  /** The slot in a block of bytes. */
  function SlotIn(block: seq<int>): Slot
    requires |block| == 384
  {
    SlotAt(AsBytes(block), 0)
  }

  /** The probe ends at an empty slot and at a match. */
  function EndsProbe(k: Key, h: nat): seq<int> -> bool {
    (block: seq<int>) => |block| == 384 && (SlotIn(block).flags == 0 || Matches(SlotIn(block), k, h))
  }

  function Path(h: nat, n: nat): nat -> nat
    requires n > 0
  {
    (p: nat) => At(h, p, n)
  }

  function Probing(n: nat, k: Key, h: nat): L.Chooser
    requires n > 0
  {
    Loads(Path(h, n), EndsProbe(k, h))
  }

  function FoundIn(block: seq<int>): Option<seq<Byte>>
    requires |block| == 384
  {
    if SlotIn(block).flags == 0 then None else Some(SlotIn(block).ilk)
  }

  /** What the reader makes of its loads. */
  function Found(got: seq<int>, k: Key, h: nat): Option<seq<Byte>> {
    if Stops(got, EndsProbe(k, h)) then FoundIn(got[|got| - 384..]) else None
  }

  lemma SlotOfBlock(cells: seq<int>, n: nat, i: nat)
    requires i < n && n * 384 <= |cells|
    ensures SlotIn(Block(cells, i)) == Slots(AsBytes(cells), n)[i]
  {
    SameSlot(AsBytes(Block(cells, i)), AsBytes(cells), i, i * 384);
  }

  lemma SliceOfSlice(all: seq<Byte>, at: nat, end: nat, a: nat, b: nat)
    requires a <= b && at + b <= end <= |all|
    ensures all[at..end][a..b] == all[at + a..at + b]
  {
    var x, y := all[at..end][a..b], all[at + a..at + b];
    assert |x| == |y| && forall i :: 0 <= i < |x| ==> x[i] == y[i];
  }

  lemma SameSlot(part: seq<Byte>, all: seq<Byte>, i: nat, at: nat)
    requires at == i * 384 && at + 384 <= |all| && part == all[at..at + 384]
    ensures SlotAt(part, 0) == SlotAt(all, i)
  {
    var end := at + 384;
    SliceOfSlice(all, at, end, 344, 346);
    SliceOfSlice(all, at, end, 0, 8);
    SliceOfSlice(all, at, end, 8, 40);
    SliceOfSlice(all, at, end, 40, 296);
    SliceOfSlice(all, at, end, 312, 328);
    SliceOfSlice(all, at, end, 328, 344);
  }

  lemma EndsAtSlot(cells: seq<int>, n: nat, k: Key, h: nat, i: nat)
    requires i < n && n * 384 <= |cells|
    ensures
      var s := Slots(AsBytes(cells), n)[i];
      && (EndsProbe(k, h)(Block(cells, i)) <==> s.flags == 0 || Matches(s, k, h))
      && FoundIn(Block(cells, i)) == if s.flags == 0 then None else Some(s.ilk)
  {
    SlotOfBlock(cells, n, i);
  }

  /** The reader stops where the probe does. */
  ghost predicate StopsLike(cells: seq<int>, stop: seq<int> -> bool, slots: seq<Slot>, k: Key, h: nat)
    requires |slots| * 384 <= |cells|
  {
    forall i: nat :: i < |slots| ==> (stop(Block(cells, i)) <==> slots[i].flags == 0 || Matches(slots[i], k, h))
  }

  lemma {:induction false} StopIsProbe(
      cells: seq<int>, path: nat -> nat, stop: seq<int> -> bool, slots: seq<Slot>, k: Key, h: nat, p: nat)
    requires slots != [] && |slots| * 384 <= |cells| && p <= |slots| && StopsLike(cells, stop, slots, k, h)
    requires Within(path, |slots|) && forall q: nat :: q < |slots| ==> path(q) == At(h, q, |slots|)
    ensures Probe(slots, k, h, p) ==
      match FirstStop(cells, path, stop, |slots|, p)
      case Some(i) => if slots[i].flags == 0 then None else Some(slots[i].ilk)
      case None => None
    decreases |slots| - p
  {
    if p < |slots| {
      assert stop(Block(cells, path(p))) <==> slots[path(p)].flags == 0 || Matches(slots[path(p)], k, h);
      StopIsProbe(cells, path, stop, slots, k, h, p + 1);
    }
  }

  lemma ProbingStopsLike(cells: seq<int>, n: nat, k: Key, h: nat)
    requires n * 384 <= |cells|
    ensures |Slots(AsBytes(cells), n)| == n && StopsLike(cells, EndsProbe(k, h), Slots(AsBytes(cells), n), k, h)
  {
    forall i: nat | i < n
      ensures
        var s := Slots(AsBytes(cells), n)[i];
        EndsProbe(k, h)(Block(cells, i)) <==> s.flags == 0 || Matches(s, k, h)
    {
      EndsAtSlot(cells, n, k, h, i);
    }
  }

  lemma FoundAtStop(cells: seq<int>, n: nat, k: Key, h: nat, end: seq<int>, stop: Option<nat>)
    requires n * 384 <= |cells| && (stop.Some? ==> stop.value < n) && EndedAt(cells, EndsProbe(k, h), end, stop)
    ensures Found(end, k, h) ==
      match stop
      case Some(i) => var s := Slots(AsBytes(cells), n)[i]; if s.flags == 0 then None else Some(s.ilk)
      case None => None
  {
    if stop.Some? { EndsAtSlot(cells, n, k, h, stop.value); }
  }

  /** The loads of an undisturbed probe find what the lookup finds. */
  lemma ScanIsLookup(cells: seq<int>, n: nat, k: Key, h: nat, path: nat -> nat, stop: seq<int> -> bool)
    requires n > 0 && n * 384 <= |cells| && path == Path(h, n) && stop == EndsProbe(k, h)
    ensures
      Found(L.Scan(cells, Loads(path, stop), [], n * 384), k, h) == Lookup(Slots(AsBytes(cells), n), k, h)
  {
    ScanBlocks(cells, path, stop, n, [], 0);
    ProbingStopsLike(cells, n, k, h);
    StopIsProbe(cells, path, stop, Slots(AsBytes(cells), n), k, h, 0);
    FoundAtStop(cells, n, k, h, L.Scan(cells, Loads(path, stop), [], n * 384), FirstStop(cells, path, stop, n, 0));
  }

  // ---- the reader ----

  /** The table of a generation: the region after these whole sessions. */
  ghost function Generation(start: seq<int>, jobs: seq<L.Job>, n: nat): seq<Slot>
    requires L.AllInRange(jobs, |start|) && n * 384 <= |start|
  {
    Slots(AsBytes(L.ApplyAll(start, jobs)), n)
  }

  /** Whatever the writers do between its loads, an answer is the lookup in one generation that was published while the
      reader read; if that table is well formed, it is what a scan of all of it finds. */
  method LookupIch(run: seq<L.Shared>, at: nat -> nat, n: nat, k: Key, h: nat, tries: nat, ghost hash: Key -> nat)
    returns (answer: Option<Option<seq<Byte>>>, ghost seen: nat)
    requires n > 0 && h == hash(k)
    requires L.IsRun(run) && n * 384 <= |run[0].cells|
    requires L.Sampled(run, at) && L.NoLap(run, at, n * 384)
    ensures answer.Some? ==>
      && at(0) <= seen < |run| && (exists j: nat :: seen == at(j))
      && L.AllInRange(run[seen].ended, |run[0].cells|)
      && (var slots := Generation(run[0].cells, run[seen].ended, n);
          answer.value == Lookup(slots, k, h) && (WellFormed(slots, hash) ==> answer.value == Scan(slots, k, hash)))
    ensures tries > 0 && L.Quiet(run, at, n * 384) ==> answer.Some?
    ensures forall k0: nat :: k0 < tries && L.SettledFrom(run, at, k0) ==> answer.Some?
  {
    var got;
    got, seen := L.Read(run, at, Probing(n, k, h), n * 384, tries);
    if got.None? {
      return None, seen;
    }
    ghost var cells := L.ApplyAll(run[0].cells, run[seen].ended);
    ScanIsLookup(cells, n, k, h, Path(h, n), EndsProbe(k, h));
    if WellFormed(Slots(AsBytes(cells), n), hash) { LookupIsScan(Slots(AsBytes(cells), n), hash, k); }
    return Some(Found(got.value, k, h)), seen;
  }

  // ---- writers that upsert and remove ----

  /** Session i of the writers performs operation i on the table. */
  ghost predicate Performs(start: seq<int>, jobs: seq<L.Job>, ops: seq<Op>, n: nat, hash: Key -> nat)
    requires n > 0 && n * 384 <= |start|
  {
    && |jobs| == |ops| && L.AllInRange(jobs, |start|)
    && forall i: nat :: i < |ops| ==> PerformsOne(start, jobs, ops, n, hash, i)
  }

  ghost predicate PerformsOne(start: seq<int>, jobs: seq<L.Job>, ops: seq<Op>, n: nat, hash: Key -> nat, i: nat)
    requires n > 0 && n * 384 <= |start| && L.AllInRange(jobs, |start|) && i < |jobs| && i < |ops|
  {
    Generation(start, jobs[..i + 1], n) == Apply(Generation(start, jobs[..i], n), ops[i], hash)
  }

  lemma {:induction false} RunSnoc(slots: seq<Slot>, ops: seq<Op>, op: Op, hash: Key -> nat)
    requires slots != []
    ensures Run(slots, ops + [op], hash) == Apply(Run(slots, ops, hash), op, hash)
    decreases |ops|
  {
    if ops == [] {
      assert ops + [op] == [op] && [op][1..] == [];
      assert Run(slots, [op], hash) == Run(Apply(slots, op, hash), [], hash);
    } else {
      assert (ops + [op])[1..] == ops[1..] + [op];
      RunSnoc(Apply(slots, ops[0], hash), ops[1..], op, hash);
    }
  }

  lemma RunTake(slots: seq<Slot>, ops: seq<Op>, j: nat, hash: Key -> nat)
    requires slots != [] && j < |ops|
    ensures Run(slots, ops[..j + 1], hash) == Apply(Run(slots, ops[..j], hash), ops[j], hash)
  {
    assert ops[..j + 1] == ops[..j] + [ops[j]];
    RunSnoc(slots, ops[..j], ops[j], hash);
  }

  lemma {:induction false} GenerationIsRun(
      start: seq<int>, jobs: seq<L.Job>, ops: seq<Op>, n: nat, hash: Key -> nat, i: nat)
    requires n > 0 && n * 384 <= |start| && Performs(start, jobs, ops, n, hash) && i <= |ops|
    ensures Generation(start, jobs[..i], n) == Run(Slots(AsBytes(start), n), ops[..i], hash)
    decreases i
  {
    if i == 0 {
      assert jobs[..0] == [] && ops[..0] == [];
    } else {
      var j: nat := i - 1;
      GenerationIsRun(start, jobs, ops, n, hash, j);
      assert PerformsOne(start, jobs, ops, n, hash, j) && jobs[..j + 1] == jobs[..i];
      RunTake(Slots(AsBytes(start), n), ops, j, hash);
    }
  }

  /** From a blank region on, with sessions that upsert and remove harmless keys: the lookup in every generation is the
      lookup in the map that those operations leave. */
  lemma GenerationAnswersMap(start: seq<int>, jobs: seq<L.Job>, ops: seq<Op>, n: nat, hash: Key -> nat, k: Key)
    requires n > 0 && n * 384 <= |start| && Performs(start, jobs, ops, n, hash)
    requires
      var slots := Slots(AsBytes(start), n);
      (forall i :: 0 <= i < n ==> slots[i] == Blank) && AllHarmless(slots, ops, hash)
    ensures
      Lookup(Generation(start, jobs, n), k, hash(k)) == In(RunMap(Slots(AsBytes(start), n), map[], ops, hash), k)
  {
    var slots := Slots(AsBytes(start), n);
    assert jobs[..|jobs|] == jobs && ops[..|ops|] == ops;
    GenerationIsRun(start, jobs, ops, n, hash, |ops|);
    BlankStandsFor(slots, hash);
    RunStandsFor(slots, map[], ops, hash);
  }
}
