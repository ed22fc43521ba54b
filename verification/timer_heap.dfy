/** The scheduler's min-heap of entries, a slice ordered as a binary heap by fire time. */
module TimerHeaps {
  import opened Basics
  import opened TimerModel

  predicate Less(items: seq<Entry>, i: nat, j: nat)
    requires i < |items| && j < |items|
  {
    items[i].at < items[j].at
  }

  function Swap(items: seq<Entry>, i: nat, j: nat): seq<Entry>
    requires i < |items| && j < |items|
  {
    items[i := items[j]][j := items[i]]
  }

  function Parent(k: nat): nat { if k == 0 then 0 else (k - 1) / 2 }

  /** No child among the first n is before its parent, except where the parent or the child is `but`. */
  predicate OrderedBut(items: seq<Entry>, n: nat, parent: int, child: int)
    requires n <= |items|
  {
    forall k :: 1 <= k < n && Parent(k) != parent && k != child ==> !Less(items, k, Parent(k))
  }

  predicate Ordered(items: seq<Entry>, n: nat)
    requires n <= |items|
  {
    OrderedBut(items, n, -1, -1)
  }

  lemma SwapMultiset(items: seq<Entry>, i: nat, j: nat)
    requires i < |items| && j < |items|
    ensures multiset(Swap(items, i, j)) == multiset(items)
  {
    assert items == items[..|items|];
  }

  /** The parent of i is not after any child of i. */
  predicate AboveChildren(items: seq<Entry>, n: nat, i: nat)
    requires n <= |items|
  {
    i > 0 ==> forall k :: 1 <= k < n && Parent(k) == i ==> items[Parent(i)].at <= items[k].at
  }

  lemma LeastChild(items: seq<Entry>, n: nat, i: nat, child: nat)
    requires n <= |items| && 2 * i + 1 < n
    requires child == if 2 * i + 2 < n && Less(items, 2 * i + 2, 2 * i + 1) then 2 * i + 2 else 2 * i + 1
    ensures Parent(child) == i && forall k :: 1 <= k < n && Parent(k) == i ==> items[child].at <= items[k].at
  {
  }

  lemma SwapTail(items: seq<Entry>, i: nat, j: nat, n: nat)
    requires i < n <= |items| && j < n
    ensures Swap(items, i, j)[n..] == items[n..]
  {
  }

  lemma DownStep(items: seq<Entry>, n: nat, i: nat, child: nat)
    requires n <= |items| && 1 <= child < n && Parent(child) == i
    requires OrderedBut(items, n, i, -1) && AboveChildren(items, n, i)
    requires forall k :: 1 <= k < n && Parent(k) == i ==> items[child].at <= items[k].at
    requires Less(items, child, i)
    ensures OrderedBut(Swap(items, i, child), n, child, -1) && AboveChildren(Swap(items, i, child), n, child)
  {
    var swapped := Swap(items, i, child);
    forall k | 1 <= k < n && Parent(k) != child ensures !Less(swapped, k, Parent(k)) {
      if k == i { assert Parent(i) < i && Parent(child) == i; }
      else if Parent(k) != i { assert !Less(items, k, Parent(k)); }
    }
    forall k | 1 <= k < n && Parent(k) == child ensures swapped[i].at <= swapped[k].at {
      assert !Less(items, k, child);
    }
  }

  /** The children of j are not before its parent. */
  predicate BelowParent(items: seq<Entry>, j: nat)
    requires j < |items|
  {
    forall k :: 1 <= k < |items| && Parent(k) == j ==> items[Parent(j)].at <= items[k].at
  }

  lemma UpStep(items: seq<Entry>, j: nat)
    requires 0 < j < |items| && OrderedBut(items, |items|, -1, j) && BelowParent(items, j) && Less(items, j, Parent(j))
    ensures
      var i := Parent(j);
      var swapped := Swap(items, i, j);
      OrderedBut(swapped, |swapped|, -1, i) && BelowParent(swapped, i)
  {
    var i := Parent(j);
    var swapped := Swap(items, i, j);
    forall k | 1 <= k < |swapped| && k != i ensures !Less(swapped, k, Parent(k)) {
      if k != j && Parent(k) != j { assert !Less(items, k, Parent(k)); }
    }
    forall k | 1 <= k < |swapped| && Parent(k) == i ensures swapped[Parent(i)].at <= swapped[k].at {
      UpStepChild(items, j, k);
    }
  }

  lemma UpStepChild(items: seq<Entry>, j: nat, k: nat)
    requires 0 < j < |items| && OrderedBut(items, |items|, -1, j) && Less(items, j, Parent(j))
    requires 1 <= k < |items| && Parent(k) == Parent(j)
    ensures
      var i := Parent(j);
      var swapped := Swap(items, i, j);
      i != k && (Parent(i) != i ==> swapped[Parent(i)].at <= swapped[k].at) &&
        (Parent(i) == i ==> swapped[i].at <= swapped[k].at)
  {
    var i := Parent(j);
    if i > 0 { assert !Less(items, i, Parent(i)); }
    if k != j { assert !Less(items, k, i); }
  }

  /** The last entry in the root's place: only the root may be out of order among the others. */
  lemma RootReplaced(items: seq<Entry>)
    requires items != [] && Ordered(items, |items|)
    ensures
      var last := |items| - 1;
      var swapped := Swap(items, 0, last);
      OrderedBut(swapped, last, 0, -1) && swapped[last] == items[0]
  {
    var last := |items| - 1;
    var swapped := Swap(items, 0, last);
    forall k | 1 <= k < last && Parent(k) != 0 ensures !Less(swapped, k, Parent(k)) {
      assert !Less(items, k, Parent(k));
    }
  }

  /** An entry at the end, dropped. */
  lemma LastDropped(items: seq<Entry>, e: Entry)
    requires items != [] && items[|items| - 1] == e && Ordered(items, |items| - 1)
    ensures
      var fewer := items[..|items| - 1];
      Ordered(fewer, |fewer|) && multiset(fewer) == multiset(items) - multiset{e}
  {
    var fewer := items[..|items| - 1];
    assert items == fewer + [e];
    forall k | 1 <= k < |fewer| ensures !Less(fewer, k, Parent(k)) { assert !Less(items, k, Parent(k)); }
  }

  lemma AllAfterRoot(items: seq<Entry>)
    requires items != [] && Ordered(items, |items|)
    ensures forall e :: e in items ==> items[0].at <= e.at
  {
    forall k | 0 <= k < |items| ensures items[0].at <= items[k].at { RootIsMin(items, k); }
  }

  /** The root is a minimum. */
  lemma {:induction false} RootIsMin(items: seq<Entry>, k: nat)
    requires Ordered(items, |items|) && k < |items|
    ensures items[0].at <= items[k].at
  {
    if k > 0 {
      RootIsMin(items, Parent(k));
      assert !Less(items, k, Parent(k));
    }
  }

  class TimerHeap {
    var items: seq<Entry>

    ghost predicate Valid()
      reads this
    {
      Ordered(items, |items|)
    }

    constructor ()
      ensures Valid() && items == []
    {
      items := [];
    }

    method Up(from: nat)
      requires from < |items| && OrderedBut(items, |items|, -1, from)
      requires BelowParent(items, from)
      modifies this
      ensures Valid() && multiset(items) == old(multiset(items))
    {
      var j: nat := from;
      while true
        invariant j < |items| && OrderedBut(items, |items|, -1, j)
        invariant BelowParent(items, j)
        invariant multiset(items) == old(multiset(items))
        decreases j
      {
        var i := Parent(j);
        if i == j || !Less(items, j, i) {
          break;
        }
        UpStep(items, j);
        SwapMultiset(items, i, j);
        items := Swap(items, i, j);
        j := i;
      }
    }

    /** Sifts the root down among the first n. */
    method Down(n: nat)
      requires n <= |items| && OrderedBut(items, n, 0, -1)
      modifies this
      ensures |items| == old(|items|) && items[n..] == old(items[n..])
      ensures Ordered(items, n) && multiset(items) == old(multiset(items))
    {
      var i: nat := 0;
      while true
        invariant |items| == old(|items|) && items[n..] == old(items[n..])
        invariant OrderedBut(items, n, i, -1)
        invariant AboveChildren(items, n, i)
        invariant multiset(items) == old(multiset(items))
        decreases n - i
      {
        var child := 2 * i + 1;
        if child >= n {
          break;
        }
        if child + 1 < n && Less(items, child + 1, child) {
          child := child + 1;
        }
        LeastChild(items, n, i, child);
        if !Less(items, child, i) {
          break;
        }
        DownStep(items, n, i, child);
        SwapMultiset(items, i, child);
        SwapTail(items, i, child, n);
        items := Swap(items, i, child);
        i := child;
      }
    }

    method Push(e: Entry)
      requires Valid()
      modifies this
      ensures Valid() && multiset(items) == old(multiset(items)) + multiset{e}
    {
      items := items + [e];
      Up(|items| - 1);
    }

    /** The earliest entry, if it is due. */
    method PopDue(now: int) returns (entry: Option<Entry>)
      requires Valid()
      modifies this
      ensures Valid()
      ensures entry.None? ==> items == old(items) && forall e :: e in items ==> e.at > now
      ensures entry.Some? ==>
        && entry.value in old(items) && entry.value.at <= now
        && (forall e :: e in old(items) ==> entry.value.at <= e.at)
        && multiset(items) == old(multiset(items)) - multiset{entry.value}
    {
      if |items| == 0 {
        return None;
      }
      AllAfterRoot(items);
      if items[0].at > now {
        return None;
      }
      entry := Some(items[0]);
      RemoveRoot();
    }

    /** The root goes: swapped to the end, the others sifted, the end dropped. */
    method RemoveRoot()
      requires Valid() && items != []
      modifies this
      ensures Valid() && multiset(items) == old(multiset(items)) - multiset{old(items)[0]}
    {
      ghost var root, before := items[0], multiset(items);
      var last := |items| - 1;
      RootReplaced(items);
      SwapMultiset(items, 0, last);
      items := Swap(items, 0, last);
      ghost var end := items[last..];
      assert end[0] == root;
      Down(last);
      assert items[last] == items[last..][0] == root && multiset(items) == before;
      LastDropped(items, root);
      items := items[..last];
    }
  }
}
