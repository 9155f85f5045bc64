/**
 * The binary min-heap priority queue of the shortest-path engine.
 * The heap is held as a sequence of entries; the parent of index `i` is
 * `(i - 1) / 2`, its children are `2 * i + 1` and `2 * i + 2`.
 */
module PriorityQueues {
  import opened Wrappers

  /** A queued node with the priority it was queued at. */
  datatype Entry = Entry(node: nat, distance: nat)

  /** Index of the parent of `i`. Dafny's `/` rounds towards minus infinity
      here exactly as `Math.floor` does, so the parent of 0 is -1. */
  function Parent(i: int): int {
    (i - 1) / 2
  }

  /** `Parent` is the floor of `(i - 1) / 2`: -1 for the root, an earlier
      index for every other position. */
  lemma ParentIsFloor(i: int)
    ensures 2 * Parent(i) <= i - 1 < 2 * Parent(i) + 2
    ensures i == 0 ==> Parent(i) == -1
    ensures i > 0 ==> 0 <= Parent(i) < i
  {
  }

  /** Heap order: no entry has a smaller priority than its parent. */
  ghost predicate IsHeap(h: seq<Entry>) {
    forall i :: 0 < i < |h| ==> h[Parent(i)].distance <= h[i].distance
  }

  /** Heap order everywhere except between `k` and its parent, while `k`'s
      parent is still no larger than `k`'s children: what sifting up needs. */
  ghost predicate HeapExceptUp(h: seq<Entry>, k: int) {
    && (forall i :: 0 < i < |h| && i != k ==> h[Parent(i)].distance <= h[i].distance)
    && (0 < k < |h| ==>
          forall c :: 0 < c < |h| && Parent(c) == k ==> h[Parent(k)].distance <= h[c].distance)
  }

  /** Heap order everywhere except between `k` and its children, while `k`'s
      parent is no larger than `k`'s children: what sifting down needs. */
  ghost predicate HeapExceptDown(h: seq<Entry>, k: int) {
    && (forall i :: 0 < i < |h| && Parent(i) != k ==> h[Parent(i)].distance <= h[i].distance)
    && (0 < k < |h| ==>
          forall c :: 0 < c < |h| && Parent(c) == k ==> h[Parent(k)].distance <= h[c].distance)
  }

  /** The root of a heap has a priority no larger than that of any entry. */
  lemma {:induction false} RootIsMinimal(h: seq<Entry>, i: int)
    requires IsHeap(h) && 0 <= i < |h|
    ensures h[0].distance <= h[i].distance
    decreases i
  {
    if i > 0 {
      RootIsMinimal(h, Parent(i));
    }
  }

  /** The root of a heap is minimal among the entries it holds. */
  lemma RootIsMinimalEntry(h: seq<Entry>)
    requires IsHeap(h) && |h| > 0
    ensures forall e :: e in h ==> h[0].distance <= e.distance
  {
    forall e | e in h ensures h[0].distance <= e.distance {
      var i :| 0 <= i < |h| && h[i] == e;
      RootIsMinimal(h, i);
    }
  }

  /** Swapping two positions of a sequence keeps its multiset of elements. */
  lemma SwapKeepsMultiset(h: seq<Entry>, i: int, j: int)
    requires 0 <= i < |h| && 0 <= j < |h|
    ensures multiset(h[i := h[j]][j := h[i]]) == multiset(h)
  {
    if i != j {
      var g := h[i := h[j]];
      assert multiset(g) == multiset(h) - multiset{h[i]} + multiset{h[j]};
      assert multiset(g[j := h[i]]) == multiset(g) - multiset{g[j]} + multiset{h[i]};
    }
  }

  /** The parents of `2 * k + 1` and `2 * k + 2` are `k`, and no other index has parent `k`. */
  lemma ChildrenOf(k: int, c: int)
    requires 0 <= k && 0 < c
    ensures Parent(c) == k <==> c == 2 * k + 1 || c == 2 * k + 2
  {
  }

  /** Swapping `k` with its smaller child `m`, when `m` is strictly smaller,
      moves the single fault of heap order from `k` down to `m`. */
  lemma SiftDownStep(h: seq<Entry>, k: int, m: int)
    requires 0 <= k < m < |h| && Parent(m) == k
    requires HeapExceptDown(h, k)
    requires h[m].distance < h[k].distance
    requires forall c :: 0 < c < |h| && Parent(c) == k ==> h[m].distance <= h[c].distance
    ensures HeapExceptDown(h[k := h[m]][m := h[k]], m)
  {
    var g := h[k := h[m]][m := h[k]];
    forall i | 0 < i < |g| && Parent(i) != m
      ensures g[Parent(i)].distance <= g[i].distance
    {
      if i == m {
      } else if i == k {
        assert g[Parent(k)] == h[Parent(k)];
      } else if Parent(i) == k {
      } else {
        assert g[Parent(i)] == h[Parent(i)] && g[i] == h[i];
      }
    }
    forall c | 0 < c < |g| && Parent(c) == m
      ensures g[Parent(m)].distance <= g[c].distance
    {
      ChildrenOf(m, c);
      assert g[c] == h[c];
    }
  }

  /** `m` is the one of `k` and its children with the smallest priority. When it
      is `k` itself the heap is in order; otherwise it was out of order at `m`. */
  lemma SmallestOfFamily(h: seq<Entry>, k: int, m: int)
    requires 0 <= k < |h| && HeapExceptDown(h, k)
    requires m == k || (m < |h| && (m == 2 * k + 1 || m == 2 * k + 2))
    requires m != k ==> h[m].distance < h[k].distance
    requires 2 * k + 1 < |h| ==> h[m].distance <= h[2 * k + 1].distance
    requires 2 * k + 2 < |h| ==> h[m].distance <= h[2 * k + 2].distance
    ensures m != k ==> Parent(m) == k && !IsHeap(h)
    ensures forall c :: 0 < c < |h| && Parent(c) == k ==> h[m].distance <= h[c].distance
    ensures m == k ==> IsHeap(h)
  {
    forall c | 0 < c < |h| && Parent(c) == k
      ensures h[m].distance <= h[c].distance
    {
      ChildrenOf(k, c);
    }
    if m != k {
      assert Parent(m) == k;
    }
  }

  class PriorityQueue {
    /** The entries, in heap order; stale duplicates of a node may remain. */
    var heap: seq<Entry>

    ghost predicate Valid()
      reads this
    {
      IsHeap(heap)
    }

    constructor ()
      ensures Valid() && heap == []
    {
      heap := [];
    }

    /** True exactly when the queue holds no entry. */
    predicate IsEmpty()
      reads this
      ensures IsEmpty() <==> multiset(heap) == multiset{}
    {
      |heap| == 0
    }

    /** Adds one entry and sifts it up. */
    method Enqueue(node: nat, distance: nat)
      requires Valid()
      modifies this
      ensures Valid()
      ensures |heap| == |old(heap)| + 1
      ensures multiset(heap) == multiset(old(heap)) + multiset{Entry(node, distance)}
    {
      heap := heap + [Entry(node, distance)];
      HeapifyUp(|heap| - 1);
    }

    /** Removes and returns an entry of smallest priority, or `None` when empty. */
    method Dequeue() returns (r: Option<Entry>)
      requires Valid()
      modifies this
      ensures Valid()
      ensures old(heap) == [] ==> r == None && heap == old(heap)
      ensures old(heap) != [] ==>
        && r == Some(old(heap)[0])
        && (forall e :: e in old(heap) ==> r.value.distance <= e.distance)
        && |heap| == |old(heap)| - 1
        && multiset(heap) == multiset(old(heap)) - multiset{r.value}
    {
      if |heap| == 0 {
        return None;
      }
      RootIsMinimalEntry(heap);
      var min := heap[0];
      var last := heap[|heap| - 1];
      ghost var before := heap;
      heap := heap[..|heap| - 1];
      assert before == heap + [last];
      if |heap| > 0 {
        ghost var popped := heap;
        heap := heap[0 := last];
        assert multiset(heap) == multiset(popped) - multiset{min} + multiset{last};
        HeapifyDown(0);
      }
      return Some(min);
    }

    /** Sifts the entry at `index` up, swapping with its parent while the
        parent's priority is strictly greater. */
    method HeapifyUp(index: int)
      requires 0 <= index < |heap|
      requires HeapExceptUp(heap, index)
      modifies this
      ensures IsHeap(heap)
      ensures |heap| == |old(heap)| && multiset(heap) == multiset(old(heap))
      ensures IsHeap(old(heap)) ==> heap == old(heap)
      decreases index
    {
      var parentIndex := Parent(index);
      if parentIndex >= 0 && heap[parentIndex].distance > heap[index].distance {
        SwapKeepsMultiset(heap, parentIndex, index);
        heap := heap[parentIndex := heap[index]][index := heap[parentIndex]];
        HeapifyUp(parentIndex);
      }
    }

    /** Sifts the entry at `index` down, swapping with its smaller child while
        that child's priority is strictly smaller. */
    method HeapifyDown(index: int)
      requires 0 <= index < |heap|
      requires HeapExceptDown(heap, index)
      modifies this
      ensures IsHeap(heap)
      ensures |heap| == |old(heap)| && multiset(heap) == multiset(old(heap))
      ensures IsHeap(old(heap)) ==> heap == old(heap)
      decreases |heap| - index
    {
      var leftChild := 2 * index + 1;
      var rightChild := 2 * index + 2;
      var smallest := index;
      if leftChild < |heap| && heap[leftChild].distance < heap[smallest].distance {
        smallest := leftChild;
      }
      if rightChild < |heap| && heap[rightChild].distance < heap[smallest].distance {
        smallest := rightChild;
      }
      SmallestOfFamily(heap, index, smallest);
      if smallest != index {
        SiftDownStep(heap, index, smallest);
        SwapKeepsMultiset(heap, index, smallest);
        heap := heap[index := heap[smallest]][smallest := heap[index]];
        HeapifyDown(smallest);
      }
    }
  }
}
