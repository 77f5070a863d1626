/** `disable_timer` calls `pop_heap` on a slice of the heap, and a slice of a heap is in general
    no heap. This module says exactly when the active entries are a heap afterwards. */
module DisableSlots {
  import opened Heap
  import opened Timers

  /** The slots of a heap of `n` entries whose removal never breaks it. */
  predicate SafeSlot(n: nat, pos: nat) {
    || pos == 0
    || pos == n - 1
    || (pos == n - 2 && pos % 2 == 1)
    || (pos == 1 && n <= 5)
    || (pos == 2 && n <= 6)
  }

  /** The entries that `pop_heap` sifts when it is given the slice from `pos` on. */
  function Sifted(h: seq<Entry>, pos: nat): (w: seq<Entry>)
    requires pos + 1 < |h|
    ensures |w| == |h| - 1 - pos && w[0] == h[|h| - 1]
    ensures forall i | 1 <= i < |w| :: w[i] == h[pos + i]
  {
    [h[|h| - 1]] + h[pos + 1..|h| - 1]
  }

  lemma CutIsSifted(h: seq<Entry>, pos: nat)
    requires pos + 1 < |h|
    ensures Cut(h, pos) == h[..pos] + SiftDown(Sifted(h, pos), 0)
  {
    var slice := h[pos..];
    assert Swap(slice, 0, |slice| - 1)[..|slice| - 1] == Sifted(h, pos);
  }

  lemma CutAt(h: seq<Entry>, pos: nat, k: nat)
    requires pos + 1 < |h| && k < |h| - 1
    ensures Cut(h, pos)[k] == if k < pos then h[k] else SiftDown(Sifted(h, pos), 0)[k - pos]
  {
    CutIsSifted(h, pos);
  }

  /** After a sift the front is no later than it was, nor than either of its children was. */
  lemma FrontAfter(w: seq<Entry>)
    requires w != []
    ensures var r := SiftDown(w, 0);
            forall i | 0 <= i < |w| && i <= 2 :: r[0].expired <= w[i].expired
  {
    if |w| > 1 {
      var c := SmallerChild(w, 0);
      SiftDownFrame(Swap(w, 0, c), c);
    }
  }

  // ----- the safe slots -----

  lemma LastSlot(h: seq<Entry>)
    requires h != [] && IsHeap(h)
    ensures IsHeap(Cut(h, |h| - 1))
  {
    var g := h[..|h| - 1];
    assert Cut(h, |h| - 1) == g;
    forall k | 1 <= k < |g| ensures Ordered(g, k) {
      assert Ordered(h, k);
    }
  }

  /** The last two entries are siblings: the one takes the place of the other. */
  lemma LeftOfTwo(h: seq<Entry>)
    requires |h| >= 3 && |h| % 2 == 1 && IsHeap(h)
    ensures IsHeap(Cut(h, |h| - 2))
  {
    var n := |h|;
    CutIsSifted(h, n - 2);
    var c := h[..n - 2] + [h[n - 1]];
    assert Cut(h, n - 2) == c;
    forall k | 1 <= k < n - 1 ensures Ordered(c, k) {
      assert Ordered(h, k) && Ordered(h, n - 1);
    }
  }

  /** A child left behind by a sift of three is still no earlier than `bound`. */
  lemma SiftThree(w: seq<Entry>)
    requires 1 <= |w| <= 3
    ensures var r := SiftDown(w, 0);
            forall i | 1 <= i < |w| :: r[0].expired <= r[i].expired && r[i].expired >= w[i].expired
  {
  }

  /** Fewer than six entries are left: front, slots 1 and 2, and at most two below slot 1. */
  lemma SmallHeap(h: seq<Entry>, pos: nat)
    requires IsHeap(h) && pos + 1 < |h|
    requires (pos == 1 && |h| <= 5) || (pos == 2 && |h| <= 6)
    ensures IsHeap(Cut(h, pos))
  {
    var w, c := Sifted(h, pos), Cut(h, pos);
    var r := SiftDown(w, 0);
    SiftThree(w);
    forall i | 0 <= i < |w| ensures h[0].expired <= w[i].expired {
      FrontIsEarliest(h, if i == 0 then |h| - 1 else pos + i);
    }
    SiftDownPermutes(w, 0);
    SameBound(h[0].expired, w, r);
    forall i | 1 <= i < |r| ensures h[pos + i].expired <= r[i].expired {
      assert w[i] == h[pos + i];
    }
    forall k | 0 <= k < |c| ensures c[k] == if k < pos then h[k] else r[k - pos] {
      CutAt(h, pos, k);
    }
    FiveEntries(h, pos, r, c);
  }

  lemma SameBound(bound: int, w: seq<Entry>, r: seq<Entry>)
    requires multiset(w) == multiset(r)
    requires forall i | 0 <= i < |w| :: bound <= w[i].expired
    ensures forall i | 0 <= i < |r| :: bound <= r[i].expired
  {
    forall i | 0 <= i < |r| ensures bound <= r[i].expired {
      assert r[i] in multiset(w);
    }
  }

  lemma FiveEntries(h: seq<Entry>, pos: nat, r: seq<Entry>, c: seq<Entry>)
    requires IsHeap(h) && |c| == |h| - 1 == pos + |r| <= 5
    requires (pos == 1 && |r| <= 3) || pos == 2
    requires forall k | 0 <= k < |c| :: c[k] == if k < pos then h[k] else r[k - pos]
    requires forall i | 0 <= i < |r| :: h[0].expired <= r[i].expired
    requires forall i | 1 <= i < |r| ::
               r[0].expired <= r[i].expired && h[pos + i].expired <= r[i].expired
    ensures IsHeap(c)
  {
    forall k | 1 <= k < |c| ensures Ordered(c, k) {
      assert Ordered(h, k);
    }
  }

  // ----- the unsafe slots -----

  /** Entry `k` is due before its parent, and nothing is due later than that parent. */
  predicate Inverted(h: seq<Entry>, k: nat) {
    && 1 <= k < |h| && h[k].expired < h[Parent(k)].expired
    && forall j | 0 <= j < |h| :: h[j].expired <= h[Parent(k)].expired
  }

  predicate Under(p: nat, j: nat)
    decreases j
  {
    j == p || (j > p && Under(p, Parent(j)))
  }

  /** Late timers in the subtree of `p`, early ones everywhere else. */
  function LateSubtree(n: nat, p: nat): (h: seq<Entry>)
    ensures |h| == n
  {
    seq(n, (j: nat) => Entry(j, if Under(p, j) then 3 else 0))
  }

  lemma LateSubtreeIsHeap(n: nat, p: nat)
    ensures IsHeap(LateSubtree(n, p))
  {
    forall k | 1 <= k < n ensures Ordered(LateSubtree(n, p), k) {
      assert Under(p, Parent(k)) ==> Parent(k) >= p;
    }
  }

  /** Outside the subtree of slot `pos`'s parent lies an entry that the sift brings forward. */
  lemma EarlyEntry(n: nat, pos: nat) returns (i: nat)
    requires 3 <= pos < n && !SafeSlot(n, pos)
    ensures i <= 2 && i < n - 1 - pos
    ensures Sifted(LateSubtree(n, Parent(pos)), pos)[i].expired == 0
  {
    var p := Parent(pos);
    assert !Under(p, p / 2);
    assert Parent(p + 1) == p / 2 && !Under(p, p + 1);
    var d := if pos % 2 == 0 then 1 else 2;
    assert Parent(pos + d) == p + 1 && !Under(p, pos + d);
    i := if pos + d < n - 1 then d else 0;
  }

  lemma CutBound(h: seq<Entry>, pos: nat, latest: int)
    requires pos < |h| && forall j | 0 <= j < |h| :: h[j].expired <= latest
    ensures forall j | 0 <= j < |h| - 1 :: Cut(h, pos)[j].expired <= latest
  {
    PopAtMoves(State(h, []), pos);
    var c := Cut(h, pos);
    forall j | 0 <= j < |c| ensures c[j].expired <= latest {
      assert c[j] in multiset(c);
      assert c[j] in multiset(h);
    }
  }

  lemma DeepSlotBreaks(n: nat, pos: nat)
    requires 3 <= pos < n && !SafeSlot(n, pos)
    ensures var h := LateSubtree(n, Parent(pos)); IsHeap(h) && Inverted(Cut(h, pos), pos)
  {
    var p := Parent(pos);
    var h := LateSubtree(n, p);
    LateSubtreeIsHeap(n, p);
    var i := EarlyEntry(n, pos);
    FrontAfter(Sifted(h, pos));
    CutAt(h, pos, pos);
    CutAt(h, pos, p);
    CutBound(h, pos, 3);
  }

  function Filled(n: nat, front: seq<int>, rest: int): (h: seq<Entry>)
    requires |front| <= n
    ensures |h| == n
  {
    seq(n, (j: nat) => Entry(j, if j < |front| then front[j] else rest))
  }

  lemma FilledIsHeap(n: nat, front: seq<int>, rest: int)
    requires |front| <= n
    requires forall k | 0 <= k < |front| :: front[k] <= rest
    requires forall k | 1 <= k < |front| :: front[Parent(k)] <= front[k]
    ensures IsHeap(Filled(n, front, rest))
  {
  }

  lemma SlotOneBreaks(n: nat)
    requires n >= 6
    ensures var h := Filled(n, [0, 1, 5, 5, 3], 5); IsHeap(h) && Inverted(Cut(h, 1), 4)
  {
    var h := Filled(n, [0, 1, 5, 5, 3], 5);
    FilledIsHeap(n, [0, 1, 5, 5, 3], 5);
    Unsifted(h, 1, 4, 5);
  }

  lemma SlotTwoBreaks(n: nat)
    requires n >= 7
    ensures var h := Filled(n, [0, 5, 1, 5, 5, 3], 5); IsHeap(h) && Inverted(Cut(h, 2), 5)
  {
    var h := Filled(n, [0, 5, 1, 5, 5, 3], 5);
    FilledIsHeap(n, [0, 5, 1, 5, 5, 3], 5);
    Unsifted(h, 2, 5, 5);
  }

  /** The last entry, as late as any, stays in slot `pos`, before an earlier entry `k`. */
  lemma Unsifted(h: seq<Entry>, pos: nat, k: nat, latest: int)
    requires 1 <= k && k + 1 < |h| && 1 <= pos == Parent(k) && pos + 2 <= k && h[k].expired < latest
    requires h[|h| - 1].expired == h[pos + 1].expired == h[pos + 2].expired == latest
    requires forall j | 0 <= j < |h| :: h[j].expired <= latest
    ensures Inverted(Cut(h, pos), k)
  {
    assert SiftDown(Sifted(h, pos), 0) == Sifted(h, pos);
    CutAt(h, pos, pos);
    CutAt(h, pos, k);
    CutBound(h, pos, latest);
  }

  lemma SafeSlotKeeps(h: seq<Entry>, pos: nat)
    requires pos < |h| && IsHeap(h) && SafeSlot(|h|, pos)
    ensures IsHeap(Cut(h, pos))
  {
    if pos == 0 {
      PopKeepsHeap(h);
    } else if pos == |h| - 1 {
      LastSlot(h);
    } else if pos == |h| - 2 && pos % 2 == 1 {
      LeftOfTwo(h);
    } else {
      SmallHeap(h, pos);
    }
  }

  /** For every other slot there is a heap after whose disable entry `k` is under a later one. */
  lemma UnsafeSlotBreaks(n: nat, pos: nat) returns (h: seq<Entry>, k: nat)
    requires pos < n && !SafeSlot(n, pos)
    ensures |h| == n && IsHeap(h) && Inverted(Cut(h, pos), k) && !IsHeap(Cut(h, pos))
    ensures forall j | 0 <= j < n :: h[j].timer == j && h[j].expired >= 0
  {
    if pos == 1 {
      SlotOneBreaks(n);
      h, k := Filled(n, [0, 1, 5, 5, 3], 5), 4;
    } else if pos == 2 {
      SlotTwoBreaks(n);
      h, k := Filled(n, [0, 5, 1, 5, 5, 3], 5), 5;
    } else {
      DeepSlotBreaks(n, pos);
      h, k := LateSubtree(n, Parent(pos)), pos;
    }
    assert !Ordered(Cut(h, pos), k);
  }

  /** The code keeps every heap of `n` active timers when it disables the one in slot `pos` if
      and only if the slot is a safe one. */
  lemma DisableKeepsHeapIff(n: nat, pos: nat)
    requires pos < n
    ensures (forall h: seq<Entry> | |h| == n && IsHeap(h) :: IsHeap(Cut(h, pos))) <==> SafeSlot(n, pos)
  {
    if SafeSlot(n, pos) {
      forall h: seq<Entry> | |h| == n && IsHeap(h) ensures IsHeap(Cut(h, pos)) {
        SafeSlotKeeps(h, pos);
      }
    } else {
      var h, _ := UnsafeSlotBreaks(n, pos);
    }
  }

  // ----- the removal that `disable_timer` stands for -----

  /** The last active entry takes the place of the removed one and is sifted either way. */
  function Removed(h: seq<Entry>, pos: nat): (r: seq<Entry>)
    requires pos < |h|
  {
    if pos == |h| - 1 then h[..pos]
    else SiftUp(SiftDown(h[..|h| - 1][pos := h[|h| - 1]], pos), pos)
  }

  /** `disable_timer` as it is written, or with the removal it stands for. */
  datatype Removal = AsWritten | Intended

  function RemoveAt(s: State, pos: nat): State
    requires pos < |s.heap|
  {
    State(Removed(s.heap, pos), [s.heap[pos]] + s.idle)
  }

  function DisableAs(how: Removal, s: State, timer: int): State {
    var pos := IndexOf(s.heap, timer);
    if how.AsWritten? || pos < 0 then Disable(s, timer) else RemoveAt(s, pos)
  }

  /** The timer is inactive or in a safe slot. */
  predicate Careful(s: State, timer: int) {
    var pos := IndexOf(s.heap, timer);
    pos >= 0 ==> SafeSlot(|s.heap|, pos)
  }

  lemma RemovedMoves(h: seq<Entry>, pos: nat)
    requires pos < |h|
    ensures multiset(Removed(h, pos)) == multiset(h) - multiset{h[pos]}
  {
    var n := |h| - 1;
    assert h == h[..n] + [h[n]];
    if pos < n {
      var g := h[..n][pos := h[n]];
      assert multiset(g) == multiset(h[..n]) - multiset{h[pos]} + multiset{h[n]};
      SiftDownPermutes(g, pos);
      SiftUpPermutes(SiftDown(g, pos), pos);
    }
  }

  /** Done that way, a removal keeps the heap whatever the slot. */
  lemma RemovedKeepsHeap(h: seq<Entry>, pos: nat)
    requires pos < |h| && IsHeap(h)
    ensures IsHeap(Removed(h, pos))
  {
    var n := |h| - 1;
    if pos == n {
      LastSlot(h);
      assert Cut(h, n) == h[..n];
    } else {
      RemovedHeap(h, pos, h[..n][pos := h[n]]);
    }
  }

  lemma RemovedHeap(h: seq<Entry>, pos: nat, g: seq<Entry>)
    requires IsHeap(h) && pos + 1 < |h| && g == h[..|h| - 1][pos := h[|h| - 1]]
    ensures IsHeap(SiftUp(SiftDown(g, pos), pos))
  {
    forall k | 1 <= k < |g| && k != pos && Parent(k) != pos ensures Ordered(g, k) {
      assert Ordered(h, k);
    }
    forall k | 1 <= k < |g| && Parent(k) == pos && pos >= 1
      ensures g[Parent(pos)].expired <= g[k].expired
    {
      assert Ordered(h, k) && Ordered(h, pos);
    }
    if pos == 0 || Ordered(g, pos) {
      SiftDownHeap(g, pos);
      var d := SiftDown(g, pos);
      assert pos >= 1 ==> Ordered(d, pos);
    } else {
      Undisturbed(g, pos);
      SiftUpHeap(g, pos);
    }
  }

  lemma Undisturbed(g: seq<Entry>, pos: nat)
    requires 1 <= pos < |g| && !Ordered(g, pos)
    requires forall k | 1 <= k < |g| && k != pos && Parent(k) != pos :: Ordered(g, k)
    requires forall k | 1 <= k < |g| && Parent(k) == pos :: g[Parent(pos)].expired <= g[k].expired
    ensures HeapAbove(g, pos) && SiftDown(g, pos) == g
  {
    forall k | 1 <= k < |g| && Parent(k) == pos ensures Ordered(g, k) {
    }
  }
}
