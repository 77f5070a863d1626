/** The binary heap operations `push_heap` and `pop_heap` on the range they are given
    (sections 25.4.6.1 and 25.4.6.2 of ISO/IEC 14882:2011), ordered so that the entry that
    expires first is at the front. */
module Heap {

  datatype Entry = Entry(timer: int, expired: int)

  function Parent(k: int): int
    requires k >= 1
  {
    (k - 1) / 2
  }

  predicate Ordered(h: seq<Entry>, k: int)
    requires 1 <= k < |h|
  {
    h[Parent(k)].expired <= h[k].expired
  }

  predicate IsHeap(h: seq<Entry>) {
    forall k | 1 <= k < |h| :: Ordered(h, k)
  }

  function Swap(h: seq<Entry>, i: int, j: int): (r: seq<Entry>)
    requires 0 <= i < |h| && 0 <= j < |h|
    ensures |r| == |h|
  {
    h[i := h[j]][j := h[i]]
  }

  function SmallerChild(h: seq<Entry>, i: int): int
    requires 0 <= i && 2 * i + 1 < |h|
  {
    if 2 * i + 2 < |h| && h[2 * i + 2].expired < h[2 * i + 1].expired then 2 * i + 2 else 2 * i + 1
  }

  function SiftDown(h: seq<Entry>, i: int): (r: seq<Entry>)
    requires 0 <= i < |h|
    ensures |r| == |h|
    decreases |h| - i
  {
    if 2 * i + 1 >= |h| then h
    else
      var c := SmallerChild(h, i);
      if h[i].expired <= h[c].expired then h else SiftDown(Swap(h, i, c), c)
  }

  function SiftUp(h: seq<Entry>, i: int): (r: seq<Entry>)
    requires 0 <= i < |h|
    ensures |r| == |h|
    decreases i
  {
    if i == 0 || Ordered(h, i) then h else SiftUp(Swap(h, i, Parent(i)), Parent(i))
  }

  lemma {:induction false} SiftDownPermutes(h: seq<Entry>, i: int)
    requires 0 <= i < |h|
    ensures multiset(SiftDown(h, i)) == multiset(h)
    decreases |h| - i
  {
    if 2 * i + 1 < |h| && h[i].expired > h[SmallerChild(h, i)].expired {
      SiftDownPermutes(Swap(h, i, SmallerChild(h, i)), SmallerChild(h, i));
    }
  }

  /** A sift touches its start and slots below it, hence nothing else up to twice the start. */
  lemma {:induction false} SiftDownFrame(h: seq<Entry>, i: int)
    requires 0 <= i < |h|
    ensures forall k | 0 <= k < |h| && k != i && k <= 2 * i :: SiftDown(h, i)[k] == h[k]
    decreases |h| - i
  {
    if 2 * i + 1 < |h| && h[i].expired > h[SmallerChild(h, i)].expired {
      SiftDownFrame(Swap(h, i, SmallerChild(h, i)), SmallerChild(h, i));
    }
  }

  lemma {:induction false} SiftUpPermutes(h: seq<Entry>, i: int)
    requires 0 <= i < |h|
    ensures multiset(SiftUp(h, i)) == multiset(h)
    decreases i
  {
    if i != 0 && !Ordered(h, i) {
      SiftUpPermutes(Swap(h, i, Parent(i)), Parent(i));
    }
  }

  /** `push_heap` on a range whose last entry is the new one. */
  function PushHeap(h: seq<Entry>): seq<Entry>
    requires h != []
  {
    SiftUp(h, |h| - 1)
  }

  /** `pop_heap`: the front entry goes to the end, the others are sifted into a heap. */
  function PopHeap(h: seq<Entry>): (r: seq<Entry>)
    requires h != []
    ensures |r| == |h|
  {
    var w := Swap(h, 0, |h| - 1);
    if |h| == 1 then h else SiftDown(w[..|h| - 1], 0) + [w[|h| - 1]]
  }

  lemma PopHeapMoves(h: seq<Entry>)
    requires h != []
    ensures PopHeap(h)[|h| - 1] == h[0]
    ensures multiset(PopHeap(h)) == multiset(h)
  {
    var n := |h| - 1;
    var w := Swap(h, 0, n);
    if n > 0 {
      SiftDownPermutes(w[..n], 0);
      SamePieces(SiftDown(w[..n], 0), w[..n], w[n]);
      assert w == w[..n] + [w[n]];
    }
  }

  lemma SamePieces(r: seq<Entry>, s: seq<Entry>, e: Entry)
    requires multiset(r) == multiset(s)
    ensures multiset(r + [e]) == multiset(s + [e])
  {
  }

  /** A heap except that entry `i` may be too late for its place; its parent still bounds
      its children. */
  predicate HeapBelow(h: seq<Entry>, i: int) {
    && 0 <= i < |h|
    && (forall k | 1 <= k < |h| && Parent(k) != i :: Ordered(h, k))
    && (forall k | 1 <= k < |h| && Parent(k) == i && i >= 1 :: h[Parent(i)].expired <= h[k].expired)
  }

  lemma SwapBelow(h: seq<Entry>, i: int)
    requires HeapBelow(h, i) && 2 * i + 1 < |h| && h[i].expired > h[SmallerChild(h, i)].expired
    ensures HeapBelow(Swap(h, i, SmallerChild(h, i)), SmallerChild(h, i))
  {
    var c := SmallerChild(h, i);
    var w := Swap(h, i, c);
    forall k | 1 <= k < |h| && Parent(k) != c ensures Ordered(w, k) {
      assert Parent(k) != i ==> Ordered(h, k);
    }
    forall k | 1 <= k < |h| && Parent(k) == c ensures w[Parent(c)].expired <= w[k].expired {
      assert Ordered(h, k);
    }
  }

  lemma {:induction false} SiftDownHeap(h: seq<Entry>, i: int)
    requires HeapBelow(h, i)
    ensures IsHeap(SiftDown(h, i))
    decreases |h| - i
  {
    if 2 * i + 1 < |h| {
      var c := SmallerChild(h, i);
      if h[i].expired > h[c].expired {
        SwapBelow(h, i);
        SiftDownHeap(Swap(h, i, c), c);
      } else {
        forall k | 1 <= k < |h| ensures Ordered(h, k) {
        }
      }
    }
  }

  /** A heap except that entry `i` may be too early for its place; its parent still bounds
      its children. */
  predicate HeapAbove(h: seq<Entry>, i: int) {
    && 0 <= i < |h|
    && (forall k | 1 <= k < |h| && k != i :: Ordered(h, k))
    && (forall k | 1 <= k < |h| && Parent(k) == i && i >= 1 :: h[Parent(i)].expired <= h[k].expired)
  }

  lemma {:induction false} SiftUpHeap(h: seq<Entry>, i: int)
    requires HeapAbove(h, i)
    ensures IsHeap(SiftUp(h, i))
    decreases i
  {
    if i != 0 && !Ordered(h, i) {
      var p := Parent(i);
      var w := Swap(h, i, p);
      forall k | 1 <= k < |h| && k != p ensures Ordered(w, k) {
        assert k != i ==> Ordered(h, k);
      }
      forall k | 1 <= k < |h| && Parent(k) == p && p >= 1
        ensures w[Parent(p)].expired <= w[k].expired
      {
        assert Ordered(h, p) && (k != i ==> Ordered(h, k));
      }
      SiftUpHeap(w, p);
    }
  }

  lemma PushHeapKeeps(h: seq<Entry>)
    requires h != [] && IsHeap(h[..|h| - 1])
    ensures IsHeap(PushHeap(h)) && multiset(PushHeap(h)) == multiset(h)
  {
    forall k | 1 <= k < |h| - 1 ensures Ordered(h, k) {
      assert Ordered(h[..|h| - 1], k);
    }
    SiftUpHeap(h, |h| - 1);
    SiftUpPermutes(h, |h| - 1);
  }

  lemma PopHeapKeeps(h: seq<Entry>)
    requires h != [] && IsHeap(h)
    ensures IsHeap(PopHeap(h)[..|h| - 1])
  {
    if |h| > 1 {
      var w := Swap(h, 0, |h| - 1)[..|h| - 1];
      forall k | 1 <= k < |w| && Parent(k) != 0 ensures Ordered(w, k) {
        assert Ordered(h, k);
      }
      SiftDownHeap(w, 0);
      assert PopHeap(h)[..|h| - 1] == SiftDown(w, 0);
    }
  }

  /** The front of a heap expires no later than any entry. */
  lemma {:induction false} FrontIsEarliest(h: seq<Entry>, k: int)
    requires IsHeap(h) && 0 <= k < |h|
    ensures h[0].expired <= h[k].expired
    decreases k
  {
    if k > 0 {
      FrontIsEarliest(h, Parent(k));
      assert Ordered(h, k);
    }
  }
}
