/** The scheduler's event records and the binary min-heap that orders them.

    The source keeps its pending events in a Python list driven by `heapq`
    (heappush, heappop, remove + heapify). The list is modelled as a
    `seq<Event>` in heap order. Events compare like the source's
    `(time, id, ...)` tuples: by due time, then by id. Because ids are unique
    in the queue, the comparison never reaches the callback or its arguments.
 */
module EventQueue {

  /** Event ids: the source draws them from uuid4; here they are abstract,
      totally ordered tokens. */
  type Id = nat

  /** The callable and the arguments of a task are opaque to the scheduler:
      it only passes them through to the call. */
  datatype Target = Target(name: string)

  /** One scheduled event; `frequency` 0 means one-shot. Times are integer
      ticks (milliseconds) of virtual time. */
  datatype Event = Event(time: int, id: Id, target: Target, frequency: int,
                         args: seq<string>, kwargs: map<string, string>)

  /** Strict tuple order: earlier due time first, ties broken by id. */
  predicate Before(a: Event, b: Event)
  {
    a.time < b.time || (a.time == b.time && a.id < b.id)
  }

  /** The reflexive counterpart of Before. */
  predicate NotAfter(a: Event, b: Event)
  {
    a.time < b.time || (a.time == b.time && a.id <= b.id)
  }

  function Parent(i: nat): nat
    requires i > 0
  {
    (i - 1) / 2
  }

  /** The heap order holds between every child and its parent, for the
      parents at positions `lo` and above. */
  ghost predicate HeapFrom(q: seq<Event>, lo: nat)
  {
    forall j :: 0 < j < |q| && lo <= Parent(j) ==> NotAfter(q[Parent(j)], q[j])
  }

  ghost predicate IsHeap(q: seq<Event>)
  {
    HeapFrom(q, 0)
  }

  /** The root of a heap is the least element. */
  lemma {:induction false} HeapRootIsLeast(q: seq<Event>, i: nat)
    requires IsHeap(q) && i < |q|
    ensures NotAfter(q[0], q[i])
    decreases i
  {
    if i > 0 {
      HeapRootIsLeast(q, Parent(i));
    }
  }

  /** Heap order everywhere except between `k` and its parent, and the
      parent of `k` is not after the children of `k`: the state of a sift-up. */
  ghost predicate HoleUp(q: seq<Event>, k: nat)
  {
    && (forall j :: 0 < j < |q| && j != k ==> NotAfter(q[Parent(j)], q[j]))
    && (forall j :: 0 < j < |q| && 0 < k && Parent(j) == k ==> NotAfter(q[Parent(k)], q[j]))
  }

  /** Heap order for every parent at `lo` or above except `k`, and the parent
      of `k` is not after the children of `k`: the state of a sift-down. */
  ghost predicate HoleDown(q: seq<Event>, lo: nat, k: nat)
  {
    && (forall j :: 0 < j < |q| && lo <= Parent(j) && Parent(j) != k ==> NotAfter(q[Parent(j)], q[j]))
    && (forall j :: 0 < j < |q| && lo < k && Parent(j) == k ==> NotAfter(q[Parent(k)], q[j]))
  }

  lemma SwapMultiset(q: seq<Event>, a: nat, b: nat)
    requires a < |q| && b < |q|
    ensures multiset(q[a := q[b]][b := q[a]]) == multiset(q)
  {
  }

  /** One exchange of a sift-up keeps HoleUp, one level higher. */
  lemma SiftUpStep(q: seq<Event>, k: nat)
    requires 0 < k < |q| && HoleUp(q, k) && Before(q[k], q[Parent(k)])
    ensures HoleUp(q[k := q[Parent(k)]][Parent(k) := q[k]], Parent(k))
  {
    var p := Parent(k);
    var r := q[k := q[p]][p := q[k]];
    forall j | 0 < j < |r| && j != p
      ensures NotAfter(r[Parent(j)], r[j])
    {
      if j == k {
      } else if Parent(j) == k {
        assert r[j] == q[j];
      } else if Parent(j) == p {
        assert NotAfter(q[p], q[j]);
      } else {
        assert r[j] == q[j] && r[Parent(j)] == q[Parent(j)];
      }
    }
    forall j | 0 < j < |r| && 0 < p && Parent(j) == p
      ensures NotAfter(r[Parent(p)], r[j])
    {
      assert r[Parent(p)] == q[Parent(p)];
      assert NotAfter(q[Parent(p)], q[p]);
      if j != k {
        assert NotAfter(q[p], q[j]);
      }
    }
  }

  /** Moves the element at `k0` up until its parent is not after it
      (the source's `heapq._siftdown`). Everything else is already in heap
      order, and the parent of `k0` is not after the children of `k0`. */
  method SiftUp(q0: seq<Event>, k0: nat) returns (q: seq<Event>)
    requires k0 < |q0|
    requires HoleUp(q0, k0)
    ensures |q| == |q0| && multiset(q) == multiset(q0)
    ensures IsHeap(q)
  {
    q := q0;
    var k: nat := k0;
    while k > 0 && Before(q[k], q[Parent(k)])
      invariant k < |q| == |q0|
      invariant multiset(q) == multiset(q0)
      invariant HoleUp(q, k)
      decreases k
    {
      var p := Parent(k);
      SiftUpStep(q, k);
      SwapMultiset(q, k, p);
      q := q[k := q[p]][p := q[k]];
      k := p;
    }
    forall j | 0 < j < |q|
      ensures NotAfter(q[Parent(j)], q[j])
    {
      if j == k {
        assert !Before(q[k], q[Parent(k)]);
      }
    }
  }

  /** One exchange of a sift-down keeps HoleDown, one level lower. */
  lemma SiftDownStep(q: seq<Event>, lo: nat, k: nat, c: nat)
    requires lo <= k && 0 < c < |q| && Parent(c) == k && HoleDown(q, lo, k)
    requires forall j :: 0 < j < |q| && Parent(j) == k ==> NotAfter(q[c], q[j])
    requires Before(q[c], q[k])
    ensures HoleDown(q[k := q[c]][c := q[k]], lo, c)
  {
    var r := q[k := q[c]][c := q[k]];
    forall j | 0 < j < |r| && lo <= Parent(j) && Parent(j) != c
      ensures NotAfter(r[Parent(j)], r[j])
    {
      if Parent(j) == k {
        if j != c {
          assert r[j] == q[j];
        }
      } else if j == k {
        assert NotAfter(q[Parent(k)], q[c]);
      } else {
        assert r[j] == q[j] && r[Parent(j)] == q[Parent(j)];
      }
    }
    forall j | 0 < j < |r| && lo < c && Parent(j) == c
      ensures NotAfter(r[Parent(c)], r[j])
    {
      assert r[j] == q[j];
      assert NotAfter(q[c], q[j]);
    }
  }

  /** A sift-down whose hole has no children is finished. */
  lemma HoleAtLeaf(q: seq<Event>, lo: nat, k: nat)
    requires 2 * k + 1 >= |q| && HoleDown(q, lo, k)
    ensures HeapFrom(q, lo)
  {
    assert forall j :: 0 < j < |q| ==> Parent(j) != k;
  }

  /** The child a sift-down picks is not after any child of `k`. */
  lemma LeastChild(q: seq<Event>, k: nat, c: nat)
    requires c < |q| && (c == 2 * k + 1 || c == 2 * k + 2)
    requires c == 2 * k + 1 ==> !(c + 1 < |q| && Before(q[c + 1], q[c]))
    requires c == 2 * k + 2 ==> Before(q[c], q[c - 1])
    ensures Parent(c) == k
    ensures forall j :: 0 < j < |q| && Parent(j) == k ==> NotAfter(q[c], q[j])
  {
    assert forall j :: 0 < j < |q| && Parent(j) == k ==> j == 2 * k + 1 || j == 2 * k + 2;
  }

  /** A sift-down whose hole is not after its least child is finished. */
  lemma HoleSettled(q: seq<Event>, lo: nat, k: nat, c: nat)
    requires c < |q| && k < |q| && HoleDown(q, lo, k) && !Before(q[c], q[k])
    requires forall j :: 0 < j < |q| && Parent(j) == k ==> NotAfter(q[c], q[j])
    ensures HeapFrom(q, lo)
  {
    forall j | 0 < j < |q| && lo <= Parent(j)
      ensures NotAfter(q[Parent(j)], q[j])
    {
      if Parent(j) == k {
        assert NotAfter(q[c], q[j]);
      }
    }
  }

  /** Moves the element at `i` down below its smaller children (the source's
      `heapq._siftup`), given heap order for every parent below `i`. */
  method SiftDown(q0: seq<Event>, i: nat) returns (q: seq<Event>)
    requires i < |q0|
    requires HeapFrom(q0, i + 1)
    ensures |q| == |q0| && multiset(q) == multiset(q0)
    ensures HeapFrom(q, i)
  {
    q := q0;
    var k: nat := i;
    while true
      invariant i <= k < |q| == |q0|
      invariant multiset(q) == multiset(q0)
      invariant HoleDown(q, i, k)
      decreases |q| - k
    {
      var c := 2 * k + 1;
      if c >= |q| {
        HoleAtLeaf(q, i, k);
        return;
      }
      if c + 1 < |q| && Before(q[c + 1], q[c]) {
        c := c + 1;
      }
      LeastChild(q, k, c);
      if !Before(q[c], q[k]) {
        HoleSettled(q, i, k, c);
        return;
      }
      SiftDownStep(q, i, k, c);
      SwapMultiset(q, k, c);
      q := q[k := q[c]][c := q[k]];
      k := c;
    }
  }

  /** `heapq.heappush`: append, then restore the order. */
  method HeapPush(q0: seq<Event>, e: Event) returns (q: seq<Event>)
    requires IsHeap(q0)
    ensures IsHeap(q)
    ensures multiset(q) == multiset(q0) + multiset{e}
  {
    var r := q0 + [e];
    assert forall j :: 0 < j < |r| ==> Parent(j) != |q0|;
    q := SiftUp(r, |q0|);
  }

  /** `heapq.heappop`: remove and return the least event. */
  method HeapPop(q0: seq<Event>) returns (e: Event, q: seq<Event>)
    requires IsHeap(q0) && |q0| > 0
    ensures e == q0[0]
    ensures forall x :: x in q0 ==> NotAfter(e, x)
    ensures IsHeap(q)
    ensures multiset(q) + multiset{e} == multiset(q0)
  {
    forall x | x in q0
      ensures NotAfter(q0[0], x)
    {
      var i :| 0 <= i < |q0| && q0[i] == x;
      HeapRootIsLeast(q0, i);
    }
    var n := |q0|;
    var last := q0[n - 1];
    assert q0 == q0[..n - 1] + [last];
    q := q0[..n - 1];
    if |q| > 0 {
      e := q[0];
      q := q[0 := last];
      q := SiftDown(q, 0);
    } else {
      e := last;
    }
  }

  /** `heapq.heapify`: bottom-up construction of the heap order. */
  method Heapify(q0: seq<Event>) returns (q: seq<Event>)
    ensures IsHeap(q)
    ensures multiset(q) == multiset(q0)
  {
    q := q0;
    var i: nat := |q| / 2;
    while i > 0
      invariant i <= |q| / 2 && |q| == |q0|
      invariant multiset(q) == multiset(q0)
      invariant HeapFrom(q, i)
    {
      i := i - 1;
      q := SiftDown(q, i);
    }
  }

  /** `list.remove`: drop the first occurrence of `e`. */
  method RemoveFirst(q0: seq<Event>, e: Event) returns (q: seq<Event>)
    requires e in q0
    ensures multiset(q) == multiset(q0) - multiset{e}
  {
    var i := 0;
    assert q0[..|q0|] == q0;
    while i < |q0| && q0[i] != e
      invariant 0 <= i <= |q0|
      invariant e !in q0[..i]
    {
      assert q0[..i + 1] == q0[..i] + [q0[i]];
      i := i + 1;
    }
    assert q0 == q0[..i] + [e] + q0[i + 1..];
    q := q0[..i] + q0[i + 1..];
  }
}
