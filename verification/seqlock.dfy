/**
 The seqlock over a shared region. Writers serialize on a mutex, bump a counter, write cell by cell and bump it
 again; readers take an even counter, read cell by cell, and keep what they read only if the counter is the same.
 A run is any interleaving of the writers' single steps; a reader samples it at any non-decreasing times.
 */
module Seqlock {
  import opened Basics

  /** One session of writes: which cells, which values, in order. */
  type Job = seq<(nat, int)>

  datatype Phase = Away | Locked(job: Job) | Writing(job: Job, rest: Job) | Written(job: Job)

  datatype Shared = Shared(
    cells: seq<int>,
    count: nat,                    // the counter before its 64-bit wrap-around
    mutex: Option<nat>,
    writers: map<nat, Phase>,
    ended: seq<Job>)               // the sessions completed so far

  const U64 := 0x1_0000_0000_0000_0000

  /** The word a reader loads. */
  function Word(s: Shared): nat { s.count % U64 }

  function PhaseOf(s: Shared, w: nat): Phase { if w in s.writers then s.writers[w] else Away }

  datatype Step = Lock(w: nat, job: Job) | Open(w: nat) | Put(w: nat) | Close(w: nat) | Unlock(w: nat)

  predicate InRange(job: Job, n: nat) { forall i :: 0 <= i < |job| ==> job[i].0 < n }

  predicate Enabled(s: Shared, a: Step) {
    var p := PhaseOf(s, a.w);
    match a
    case Lock(_, job) => p.Away? && s.mutex.None? && InRange(job, |s.cells|)
    case Open(_) => p.Locked?
    case Put(_) => p.Writing? && p.rest != [] && p.rest[0].0 < |s.cells|
    case Close(_) => p.Writing? && p.rest == []
    case Unlock(_) => p.Written?
  }

  function Do(s: Shared, a: Step): Shared
    requires Enabled(s, a)
  {
    var p := PhaseOf(s, a.w);
    match a
    case Lock(w, job) => s.(mutex := Some(w), writers := s.writers[w := Locked(job)])
    case Open(w) => s.(count := s.count + 1, writers := s.writers[w := Writing(p.job, p.job)])
    case Put(w) =>
      s.(cells := s.cells[p.rest[0].0 := p.rest[0].1], writers := s.writers[w := Writing(p.job, p.rest[1..])])
    case Close(w) => s.(count := s.count + 1, writers := s.writers[w := Written(p.job)], ended := s.ended + [p.job])
    case Unlock(w) => s.(mutex := None, writers := s.writers[w := Away])
  }

  ghost predicate Next(s: Shared, s': Shared) { exists a :: Enabled(s, a) && s' == Do(s, a) }

  ghost predicate Start(s: Shared) { s.count % 2 == 0 && s.mutex.None? && s.writers == map[] && s.ended == [] }

  ghost predicate IsRun(run: seq<Shared>) {
    run != [] && Start(run[0]) && forall i :: 0 <= i < |run| - 1 ==> Next(run[i], run[i + 1])
  }

  // ---- whole sessions only ----

  function Apply(cells: seq<int>, job: Job): seq<int>
    requires InRange(job, |cells|)
    ensures |Apply(cells, job)| == |cells|
    decreases |job|
  {
    if job == [] then cells else Apply(cells[job[0].0 := job[0].1], job[1..])
  }

  ghost predicate AllInRange(jobs: seq<Job>, n: nat) { forall i :: 0 <= i < |jobs| ==> InRange(jobs[i], n) }

  /** The cells after these sessions, one after the other. */
  ghost function ApplyAll(cells: seq<int>, jobs: seq<Job>): seq<int>
    requires AllInRange(jobs, |cells|)
    ensures |ApplyAll(cells, jobs)| == |cells|
  {
    if jobs == [] then cells else Apply(ApplyAll(cells, jobs[..|jobs| - 1]), jobs[|jobs| - 1])
  }

  /** Only the holder of the mutex is under way; the counter is odd exactly while it writes; what it has still
      to write completes its session on top of the sessions that ended. */
  ghost predicate Inv(s: Shared, start: seq<int>) {
    && |s.cells| == |start| && AllInRange(s.ended, |start|)
    && (forall w :: w in s.writers && !s.writers[w].Away? ==> s.mutex == Some(w))
    && (s.mutex.Some? ==> !PhaseOf(s, s.mutex.value).Away?)
    && (var base := ApplyAll(start, s.ended);
        if s.mutex.Some? && PhaseOf(s, s.mutex.value).Writing? then
          var p := PhaseOf(s, s.mutex.value);
          s.count % 2 == 1 && InRange(p.job, |start|) && InRange(p.rest, |start|) &&
            Apply(s.cells, p.rest) == Apply(base, p.job)
        else s.count % 2 == 0 && s.cells == base)
    && (s.mutex.Some? && PhaseOf(s, s.mutex.value).Locked? ==> InRange(PhaseOf(s, s.mutex.value).job, |start|))
  }

  lemma ApplyAllSnoc(start: seq<int>, jobs: seq<Job>, job: Job)
    requires AllInRange(jobs, |start|) && InRange(job, |start|)
    ensures AllInRange(jobs + [job], |start|) && ApplyAll(start, jobs + [job]) == Apply(ApplyAll(start, jobs), job)
  {
    assert (jobs + [job])[..|jobs|] == jobs;
  }

  lemma StepInv(s: Shared, a: Step, start: seq<int>)
    requires Inv(s, start) && Enabled(s, a)
    ensures Inv(Do(s, a), start)
  {
    var p := PhaseOf(s, a.w);
    if a.Close? { ApplyAllSnoc(start, s.ended, p.job); }
  }

  lemma {:induction false} RunInv(run: seq<Shared>, i: nat)
    requires IsRun(run) && i < |run|
    ensures Inv(run[i], run[0].cells)
  {
    if i > 0 {
      RunInv(run, i - 1);
      assert Next(run[i - 1], run[i - 1 + 1]);
      var a :| Enabled(run[i - 1], a) && run[i] == Do(run[i - 1], a);
      StepInv(run[i - 1], a, run[0].cells);
    }
  }

  /** What an even counter shows: the start, changed by whole sessions only. */
  lemma EvenIsPublished(run: seq<Shared>, i: nat)
    requires IsRun(run) && i < |run| && run[i].count % 2 == 0
    ensures AllInRange(run[i].ended, |run[0].cells|) && run[i].cells == ApplyAll(run[0].cells, run[i].ended)
  {
    RunInv(run, i);
  }

  lemma {:induction false} CountGrows(run: seq<Shared>, i: nat, j: nat)
    requires IsRun(run) && i <= j < |run|
    ensures run[i].count <= run[j].count
    decreases j
  {
    if i < j {
      CountGrows(run, i, j - 1);
      assert Next(run[j - 1], run[j - 1 + 1]);
    }
  }

  /** While an even counter stands still, so do the cells. */
  lemma {:induction false} Stable(run: seq<Shared>, i: nat, k: nat, j: nat)
    requires IsRun(run) && i <= k <= j < |run| && run[i].count == run[j].count && run[i].count % 2 == 0
    ensures run[k].cells == run[i].cells && run[k].count == run[i].count
    decreases k
  {
    CountGrows(run, i, k);
    CountGrows(run, k, j);
    if i < k {
      CountGrows(run, k - 1, j);
      Stable(run, i, k - 1, j);
      RunInv(run, k - 1);
      assert Next(run[k - 1], run[k - 1 + 1]);
    }
  }

  // ---- readers ----

  /** A reader chooses each cell from what it has read so far, and stops. */
  type Chooser = seq<int> -> Option<nat>

  /** The same choices made at one instant. */
  function Scan(cells: seq<int>, next: Chooser, got: seq<int>, max: nat): seq<int>
    requires |got| <= max
    decreases max - |got|
  {
    if |got| < max && next(got).Some? && next(got).value < |cells|
    then Scan(cells, next, got + [cells[next(got).value]], max) else got
  }

  /** Sample times: the k-th load of the reader happens at state at(k) of the run. */
  ghost predicate Sampled(run: seq<Shared>, at: nat -> nat) {
    && (forall k: nat :: at(k) < |run|)
    && (forall j: nat, k: nat :: j <= k ==> at(j) <= at(k))
  }

  /** Between the loads of one attempt the counter is bumped fewer than 2^64 times. */
  ghost predicate NoLap(run: seq<Shared>, at: nat -> nat, loads: nat)
    requires Sampled(run, at)
  {
    forall j: nat, k: nat :: j <= k <= j + loads + 1 ==> run[at(k)].count < run[at(j)].count + U64
  }

  lemma SameWord(a: nat, b: nat)
    requires a <= b < a + U64 && a % U64 == b % U64
    ensures a == b
  {
    assert a == U64 * (a / U64) + a % U64 && b == U64 * (b / U64) + b % U64;
  }

  /** An attempt that found the same even word at both ends saw one generation throughout. */
  lemma AttemptStable(run: seq<Shared>, at: nat -> nat, max: nat, k: nat, n: nat)
    requires IsRun(run) && Sampled(run, at) && NoLap(run, at, max) && n <= max
    requires Word(run[at(k)]) % 2 == 0 && Word(run[at(k + n + 1)]) == Word(run[at(k)])
    ensures run[at(k)].count % 2 == 0
    ensures forall j: nat :: k <= j <= k + n + 1 ==> run[at(j)].cells == run[at(k)].cells
  {
    var s, e := run[at(k)], run[at(k + n + 1)];
    CountGrows(run, at(k), at(k + n + 1));
    SameWord(s.count, e.count);
    EvenWord(s.count);
    forall j: nat | k <= j <= k + n + 1 ensures run[at(j)].cells == s.cells {
      Stable(run, at(k), at(j), at(k + n + 1));
    }
  }

  lemma EvenWord(a: nat)
    ensures a % U64 % 2 == a % 2
  {
    assert a == U64 * (a / U64) + a % U64;
    assert U64 * (a / U64) == 2 * (0x8000_0000_0000_0000 * (a / U64));
  }

  lemma SameSize(run: seq<Shared>)
    requires IsRun(run)
    ensures forall i :: 0 <= i < |run| ==> |run[i].cells| == |run[0].cells|
  {
    forall i | 0 <= i < |run| ensures |run[i].cells| == |run[0].cells| { RunInv(run, i); }
  }

  /** Loads k to k + n all see these cells. */
  ghost predicate Sees(run: seq<Shared>, at: nat -> nat, k: nat, n: nat, cells: seq<int>)
    requires Sampled(run, at)
  {
    forall j: nat :: k <= j < k + n ==> run[at(j)].cells == cells
  }

  /** The loads of one attempt, from load k on. */
  method Copy(run: seq<Shared>, at: nat -> nat, next: Chooser, max: nat, k: nat) returns (got: seq<int>)
    requires IsRun(run) && Sampled(run, at)
    ensures |got| <= max
    ensures forall cells :: |cells| == |run[0].cells| && Sees(run, at, k, |got|, cells) ==>
      got == Scan(cells, next, [], max)
  {
    SameSize(run);
    got := [];
    while |got| < max && next(got).Some? && next(got).value < |run[0].cells|
      invariant |got| <= max
      invariant forall cells :: |cells| == |run[0].cells| && Sees(run, at, k, |got|, cells) ==>
                  Scan(cells, next, [], max) == Scan(cells, next, got, max)
      decreases max - |got|
    {
      var load := k + |got|;
      var more := got + [run[at(load)].cells[next(got).value]];
      forall cells | |cells| == |run[0].cells| && Sees(run, at, k, |more|, cells)
        ensures Scan(cells, next, [], max) == Scan(cells, next, more, max)
      {
        assert Sees(run, at, k, |got|, cells) && run[at(load)].cells == cells;
      }
      got := more;
    }
  }

  /** The counter was even and stood still for the whole of a first attempt. */
  ghost predicate Quiet(run: seq<Shared>, at: nat -> nat, max: nat)
    requires Sampled(run, at)
  {
    run[at(0)].count % 2 == 0 && forall k: nat :: k <= max + 1 ==> run[at(k)].count == run[at(0)].count
  }

  /** From load k0 on the counter is even and stands still. */
  ghost predicate SettledFrom(run: seq<Shared>, at: nat -> nat, k0: nat)
    requires Sampled(run, at)
  {
    run[at(k0)].count % 2 == 0 && forall k: nat :: k0 <= k ==> run[at(k)].count == run[at(k0)].count
  }

  /** The retry loop: an answer is what one uninterrupted scan of a generation gives that was published when one of the
      loads was made. There is an answer if there was no bump during the first attempt, and if the counter settles
      before the loads run out that the attempts make at least. */
  method Read(run: seq<Shared>, at: nat -> nat, next: Chooser, max: nat, tries: nat)
    returns (answer: Option<seq<int>>, ghost seen: nat)
    requires IsRun(run) && Sampled(run, at) && NoLap(run, at, max)
    ensures answer.Some? ==>
      && seen < |run| && AllInRange(run[seen].ended, |run[0].cells|)
      && answer.value == Scan(ApplyAll(run[0].cells, run[seen].ended), next, [], max)
    ensures answer.Some? ==> at(0) <= seen && exists k: nat :: seen == at(k)
    ensures tries > 0 && Quiet(run, at, max) ==> answer.Some?
    ensures forall k0: nat :: k0 < tries && SettledFrom(run, at, k0) ==> answer.Some?
  {
    var k: nat, left := 0, tries;
    seen := 0;
    while left > 0
      invariant left <= tries && (left < tries ==> !Quiet(run, at, max)) && (left == tries ==> k == 0)
      invariant k >= tries - left && forall k0: nat :: k0 < tries - left ==> !SettledFrom(run, at, k0)
    {
      left := left - 1;
      EvenWord(run[at(k)].count);
      var s1 := Word(run[at(k)]);
      if s1 % 2 != 0 {
        Unsettled(run, at, k, k);
        k := k + 1;
        continue;
      }
      var got := Copy(run, at, next, max, k + 1);
      var end := k + |got| + 1;
      if Word(run[at(end)]) == s1 {
        AttemptStable(run, at, max, k, |got|);
        EvenIsPublished(run, at(k));
        assert Sees(run, at, k + 1, |got|, run[at(k)].cells);
        seen := at(k);
        return Some(got), seen;
      }
      assert run[at(end)].count != run[at(k)].count;
      Unsettled(run, at, k, end);
      k := end + 1;
    }
    return None, seen;
  }

  /** An attempt from load k to load end that met an odd counter or a bump shows that nothing had settled by k. */
  lemma Unsettled(run: seq<Shared>, at: nat -> nat, k: nat, end: nat)
    requires Sampled(run, at) && k <= end
    requires run[at(k)].count % 2 != 0 || run[at(end)].count != run[at(k)].count
    ensures forall k0: nat :: k0 <= k ==> !SettledFrom(run, at, k0)
  {
  }

  /** A router's policy version and load status, read in at most 100 attempts: both of one generation. */
  method ReadRouterStatus(run: seq<Shared>, at: nat -> nat, policy: nat, status: nat)
    returns (answer: Option<(int, int)>, ghost seen: nat)
    requires IsRun(run) && Sampled(run, at) && NoLap(run, at, 2)
    requires policy < |run[0].cells| && status < |run[0].cells|
    ensures answer.Some? ==>
      && seen < |run| && AllInRange(run[seen].ended, |run[0].cells|)
      && answer.value == (ApplyAll(run[0].cells, run[seen].ended)[policy],
                          ApplyAll(run[0].cells, run[seen].ended)[status])
    ensures answer.Some? ==> at(0) <= seen && exists k: nat :: seen == at(k)
    ensures Quiet(run, at, 2) ==> answer.Some?
    ensures forall k0: nat :: k0 < 100 && SettledFrom(run, at, k0) ==> answer.Some?
  {
    var next := (got: seq<int>) => if |got| == 0 then Some(policy) else Some(status);
    var fields;
    fields, seen := Read(run, at, next, 2, 100);
    if fields.None? {
      return None, seen;
    }
    ghost var cells := ApplyAll(run[0].cells, run[seen].ended);
    assert Scan(cells, next, [], 2) == Scan(cells, next, [cells[policy]], 2) == [cells[policy], cells[status]];
    return Some((fields.value[0], fields.value[1])), seen;
  }
}
