/** What a disable in an unsafe slot leads to: a pass that leaves a timer active although it has
    expired, behind one that is due later. */
module MissedTimers {
  import opened Heap
  import opened Timers
  import opened DisableSlots
  import opened TimerRuns

  /** A drain at this time pops every active timer that has expired. */
  ghost predicate OnTime(s: State, now: int) {
    forall e | e in multiset(Drain(s, now).0.heap) :: e.expired > now
  }

  // ----- an entry that no drain reaches -----

  /** Entry `k` has expired, but its parent has not, and the entries from `m` on are due when
      that parent is. */
  predicate Stuck(h: seq<Entry>, k: nat, m: nat, now: int) {
    && 1 <= k < m <= |h|
    && h[k].expired <= now < h[Parent(k)].expired
    && forall j | m <= j < |h| :: h[j].expired == h[Parent(k)].expired
  }

  /** A sifted entry never displaces one that is not earlier, nor what is below that. */
  lemma {:induction false} SiftAvoids(w: seq<Entry>, i: nat, p: nat, k: nat)
    requires i < |w| && k < |w| && k >= 1 && Parent(k) == p && p != i
    requires (i == 0 || Parent(i) != p) && w[i].expired <= w[p].expired
    ensures SiftDown(w, i)[p] == w[p] && SiftDown(w, i)[k] == w[k]
    decreases |w| - i
  {
    if 2 * i + 1 < |w| {
      var c := SmallerChild(w, i);
      if w[i].expired > w[c].expired {
        SiftAvoids(Swap(w, i, c), c, p, k);
      }
    }
  }

  /** Entries at the end that are due at the same time stay so. */
  lemma {:induction false} SiftKeepsEnd(w: seq<Entry>, i: nat, m: nat)
    requires i < |w| && forall j | m <= j < |w| :: w[j].expired == w[i].expired
    ensures forall j | m <= j < |w| :: SiftDown(w, i)[j].expired == w[i].expired
    decreases |w| - i
  {
    if 2 * i + 1 < |w| {
      var c := SmallerChild(w, i);
      if w[i].expired > w[c].expired {
        SiftKeepsEnd(Swap(w, i, c), c, m);
      }
    }
  }

  lemma StuckPop(h: seq<Entry>, k: nat, m: nat, now: int)
    requires Stuck(h, k, m, now) && m < |h| && h[0].expired <= now
    ensures Stuck(Cut(h, 0), k, m, now) && Cut(h, 0)[k] == h[k]
  {
    var w, c := Sifted(h, 0), Cut(h, 0);
    forall j | 0 <= j < |c| ensures c[j] == SiftDown(w, 0)[j] {
      CutAt(h, 0, j);
    }
    SiftAvoids(w, 0, Parent(k), k);
    SiftKeepsEnd(w, 0, m);
  }

  lemma {:induction false} StuckDrain(s: State, k: nat, m: nat, now: int)
    requires Stuck(s.heap, k, m, now) && m + |Drain(s, now).1| <= |s.heap|
    ensures s.heap[k] in multiset(Drain(s, now).0.heap)
    decreases |s.heap|
  {
    if Expired(s, now) {
      StuckPop(s.heap, k, m, now);
      StuckDrain(PopAt(s, 0), k, m, now);
    } else {
      assert Drain(s, now).0 == s;
    }
  }

  /** Heap or not, a drain takes only what has expired, and takes it from the active entries. */
  lemma {:induction false} DrainTakes(s: State, now: int)
    ensures var (t, batch) := Drain(s, now);
            && multiset(s.heap) == multiset(t.heap) + multiset(batch)
            && forall e | e in multiset(batch) :: e.expired <= now
    decreases |s.heap|
  {
    if Expired(s, now) {
      PopAtMoves(s, 0);
      DrainTakes(PopAt(s, 0), now);
      var (t, later) := Drain(PopAt(s, 0), now);
      assert s.heap[0] in multiset(s.heap);
      assert multiset([s.heap[0]] + later) == multiset{s.heap[0]} + multiset(later);
      Regrouped(multiset(s.heap), multiset(PopAt(s, 0).heap), multiset(t.heap), multiset(later), s.heap[0]);
    }
  }

  lemma BatchBound(s: State, m: nat, now: int)
    requires m <= |s.heap| && forall j | m <= j < |s.heap| :: s.heap[j].expired > now
    ensures |Drain(s, now).1| <= m
  {
    DrainTakes(s, now);
    Halves(s.heap, m, now);
    var front, back := multiset(s.heap[..m]), multiset(s.heap[m..]);
    FromFront(front, back, multiset(Drain(s, now).0.heap), multiset(Drain(s, now).1), now);
  }

  lemma Halves(h: seq<Entry>, m: nat, now: int)
    requires m <= |h| && forall j | m <= j < |h| :: h[j].expired > now
    ensures multiset(h) == multiset(h[..m]) + multiset(h[m..])
    ensures forall e | e in multiset(h[m..]) :: e.expired > now
  {
    assert h == h[..m] + h[m..];
  }

  lemma FromFront(front: multiset<Entry>, back: multiset<Entry>, left: multiset<Entry>, batch: multiset<Entry>, now: int)
    requires front + back == left + batch
    requires forall e | e in back :: e.expired > now
    requires forall e | e in batch :: e.expired <= now
    ensures |batch| <= |front|
  {
    forall e ensures batch[e] <= front[e] {
      assert (front + back)[e] == (left + batch)[e];
    }
    assert front == batch + (front - batch);
  }

  // ----- sequences of operations that lead there -----

  /** Adds and enables only. */
  predicate Grows(ops: seq<Op>) {
    forall i | 0 <= i < |ops| :: ops[i].AddOp? || ops[i].EnableOp?
  }

  /** Entries registered and enabled one after the other. */
  function Build(h: seq<Entry>): (ops: seq<Op>)
    ensures Grows(ops)
  {
    if h == [] then [] else [AddOp(h[0].timer), EnableOp(h[0].timer, h[0].expired)] + Build(h[1..])
  }

  ghost predicate Fresh(s: State, h: seq<Entry>) {
    && (forall i | 0 <= i < |h| :: PlaceOf(s, h[i].timer).Absent?)
    && (forall i, j | 0 <= i < j < |h| :: h[i].timer != h[j].timer)
  }

  lemma AddEnable(s: State, e: Entry)
    requires PlaceOf(s, e.timer).Absent?
    requires s.heap != [] ==> Ordered(s.heap + [e], |s.heap|)
    ensures var t := Enable(Add(s, e.timer), e.timer, e.expired);
            && t.heap == s.heap + [e] && multiset(t.idle) == multiset(s.idle)
  {
    var u := Add(s, e.timer);
    assert IndexOf(u.idle, e.timer) == |s.idle| by {
      assert u.idle[|s.idle|].timer == e.timer;
    }
    Overwritten(u.idle, |s.idle|);
    assert multiset(u.idle) == multiset(s.idle) + multiset{Entry(e.timer, 0)};
  }

  lemma StillFresh(s: State, h: seq<Entry>)
    requires Structure(s) && h != [] && Fresh(s, h)
    ensures var t := Enable(Add(s, h[0].timer), h[0].timer, h[0].expired);
            Structure(t) && Fresh(t, h[1..])
  {
    var e := h[0];
    AddKeeps(s, e.timer);
    EnableKeeps(Add(s, e.timer), e.timer, e.expired);
    forall i | 0 <= i < |h[1..]|
      ensures PlaceOf(Enable(Add(s, e.timer), e.timer, e.expired), h[1..][i].timer).Absent?
    {
      AddPlaces(s, e.timer, h[i + 1].timer);
      EnablePlaces(Add(s, e.timer), e.timer, e.expired, h[i + 1].timer);
    }
  }

  /** Every later entry is in order where it is appended. */
  predicate Appendable(h: seq<Entry>, more: seq<Entry>) {
    forall k | 1 <= k < |h + more| && k >= |h| :: Ordered(h + more, k)
  }

  lemma AppendableNext(h: seq<Entry>, more: seq<Entry>)
    requires more != [] && Appendable(h, more)
    ensures h != [] ==> Ordered(h + [more[0]], |h|)
    ensures h + [more[0]] + more[1..] == h + more && Appendable(h + [more[0]], more[1..])
  {
    assert h + [more[0]] + more[1..] == h + more;
    if h != [] {
      assert Ordered(h + more, |h|);
    }
  }

  /** Entries enabled in the order of a heap stay where they are pushed. */
  lemma {:induction false} BuildAppends(s: State, h: seq<Entry>)
    requires Structure(s) && Fresh(s, h) && Appendable(s.heap, h)
    ensures var t := DoAll(AsWritten, s, Build(h));
            t.heap == s.heap + h && multiset(t.idle) == multiset(s.idle)
    decreases |h|
  {
    if h == [] {
      assert s.heap + h == s.heap;
    } else {
      var e := h[0];
      AppendableNext(s.heap, h);
      AddEnable(s, e);
      StillFresh(s, h);
      BuildAppends(Enable(Add(s, e.timer), e.timer, e.expired), h[1..]);
      BuildFirst(s, h);
    }
  }

  lemma BuildFirst(s: State, h: seq<Entry>)
    requires h != []
    ensures DoAll(AsWritten, s, Build(h))
         == DoAll(AsWritten, Enable(Add(s, h[0].timer), h[0].timer, h[0].expired), Build(h[1..]))
  {
    var a, b, ops := AddOp(h[0].timer), EnableOp(h[0].timer, h[0].expired), Build(h[1..]);
    assert Build(h) == [a, b] + ops;
    assert ([a, b] + ops)[1..] == [b] + ops;
    assert ([b] + ops)[1..] == ops;
  }

  lemma {:induction false} DoAllConcat(how: Removal, s: State, a: seq<Op>, b: seq<Op>)
    ensures DoAll(how, s, a + b) == DoAll(how, DoAll(how, s, a), b)
    decreases |a|
  {
    if a == [] {
      assert a + b == b;
    } else {
      assert (a + b)[1..] == a[1..] + b;
      DoAllConcat(how, Do(how, s, a[0]), a[1..], b);
    }
  }

  const EMPTY := State([], [])

  /** Timers `n`, `n + 1` and so on, all due at `expired`. */
  function Later(n: nat, m: nat, expired: int): (h: seq<Entry>)
    ensures |h| == m
  {
    seq(m, (j: nat) => Entry(n + j, expired))
  }

  lemma EmptyAppendable(h: seq<Entry>)
    requires IsHeap(h)
    ensures Appendable([], h)
  {
    assert [] + h == h;
  }

  /** Every heap of distinct timers is what some adds and enables lead to. */
  lemma BuildReaches(h: seq<Entry>)
    requires IsHeap(h) && forall i, j | 0 <= i < j < |h| :: h[i].timer != h[j].timer
    ensures DoAll(AsWritten, EMPTY, Build(h)) == State(h, []) && Structure(State(h, []))
  {
    EmptyAppendable(h);
    BuildAppends(EMPTY, h);
    assert EMPTY.heap + h == h;
    RunKeeps(AsWritten, EMPTY, Build(h));
  }

  /** After these operations `n` timers are active and `timer` is the one in slot `pos`. */
  predicate InSlot(before: seq<Op>, timer: int, n: nat, pos: nat) {
    var h := DoAll(AsWritten, EMPTY, before).heap;
    |h| == n && IndexOf(h, timer) == pos
  }

  lemma LaterAppends(s: State, n: nat, m: nat, expired: int)
    requires Structure(s) && forall t | t >= n :: PlaceOf(s, t).Absent?
    requires forall j | 0 <= j < |s.heap| :: s.heap[j].expired <= expired
    ensures DoAll(AsWritten, s, Build(Later(n, m, expired))).heap == s.heap + Later(n, m, expired)
  {
    BuildAppends(s, Later(n, m, expired));
  }

  /** With enough later timers behind it, an inverted entry is never reached. */
  lemma InvertedIsMissed(c: seq<Entry>, u: State, k: nat, n: nat)
    requires Inverted(c, k) && |c| <= n && u.heap == c + Later(n, n, c[Parent(k)].expired)
    ensures !OnTime(u, c[k].expired)
  {
    var m, now := |c|, c[k].expired;
    forall j | m <= j < |u.heap| ensures u.heap[j].expired == c[Parent(k)].expired {
      assert u.heap[j] == Later(n, n, c[Parent(k)].expired)[j - m];
    }
    BatchBound(u, m, now);
    StuckDrain(u, k, m, now);
  }

  /** From the empty manager to a timer that is missed, by adds, enables and one disable, that of
      the timer in slot `pos` of `n` active ones. */
  lemma UnsafeSlotMisses(n: nat, pos: nat) returns (before: seq<Op>, timer: int, later: seq<Op>, now: int)
    requires pos < n && !SafeSlot(n, pos)
    ensures Grows(before) && Grows(later) && InSlot(before, timer, n, pos)
    ensures !OnTime(DoAll(AsWritten, EMPTY, before + [DisableOp(timer)] + later), now)
  {
    var h, k := UnsafeSlotBreaks(n, pos);
    before, timer := Build(h), pos;
    BuildReaches(h);
    assert IndexOf(h, pos) == pos;
    var t := PopAt(State(h, []), pos);
    var latest := t.heap[Parent(k)].expired;
    later, now := Build(Later(n, n, latest)), t.heap[k].expired;
    Absentees(h, pos);
    LaterAppends(t, n, n, latest);
    InvertedIsMissed(t.heap, DoAll(AsWritten, t, later), k, n);
    Sequenced(before, timer, later);
  }

  lemma Absentees(h: seq<Entry>, pos: nat)
    requires IsHeap(h) && pos < |h| && forall j | 0 <= j < |h| :: h[j].timer == j
    ensures var t := PopAt(State(h, []), pos);
            Structure(t) && forall x | x >= |h| :: PlaceOf(t, x).Absent?
  {
    BuildReaches(h);
    var s := State(h, []);
    var t := PopAt(s, pos);
    PopPlaces(s, pos, 0);
    forall x | x >= |h| ensures PlaceOf(t, x).Absent? {
      NotThere(h, x);
      PopPlaces(s, pos, x);
    }
  }

  lemma NotThere(h: seq<Entry>, timer: int)
    requires forall j | 0 <= j < |h| :: h[j].timer != timer
    ensures PlaceOf(State(h, []), timer).Absent?
  {
  }

  lemma Sequenced(before: seq<Op>, timer: int, later: seq<Op>)
    ensures DoAll(AsWritten, EMPTY, before + [DisableOp(timer)] + later)
         == DoAll(AsWritten, Disable(DoAll(AsWritten, EMPTY, before), timer), later)
  {
    DoAllConcat(AsWritten, EMPTY, before + [DisableOp(timer)], later);
    DoAllConcat(AsWritten, EMPTY, before, [DisableOp(timer)]);
  }

  lemma {:induction false} GrowsCareful(s: State, ops: seq<Op>)
    requires Grows(ops)
    ensures AllCareful(s, ops)
    decreases |ops|
  {
    if |ops| != 0 {
      GrowsCareful(Do(AsWritten, s, ops[0]), ops[1..]);
    }
  }

  lemma SafeSlotOnTime(n: nat, pos: nat, before: seq<Op>, timer: int, later: seq<Op>, now: int)
    requires pos < n && SafeSlot(n, pos) && Grows(before) && Grows(later) && InSlot(before, timer, n, pos)
    ensures OnTime(DoAll(AsWritten, EMPTY, before + [DisableOp(timer)] + later), now)
  {
    var s := DoAll(AsWritten, EMPTY, before);
    GrowsCareful(EMPTY, before);
    RunKeeps(AsWritten, EMPTY, before);
    var t := Disable(s, timer);
    DisablePlaces(AsWritten, s, timer, timer);
    DisableHeap(AsWritten, s, timer);
    GrowsCareful(t, later);
    RunKeeps(AsWritten, t, later);
    DrainExact(DoAll(AsWritten, t, later), now);
    Sequenced(before, timer, later);
  }

  /** Exactly the safe slots: however `n` timers became active, and whatever is enabled later,
      after the timer in slot `pos` has been disabled every drain pops all that has expired. */
  lemma DrainOnTimeIff(n: nat, pos: nat)
    requires pos < n
    ensures SafeSlot(n, pos) <==>
            forall before, timer, later, now | Grows(before) && Grows(later) && InSlot(before, timer, n, pos) ::
              OnTime(DoAll(AsWritten, EMPTY, before + [DisableOp(timer)] + later), now)
  {
    if SafeSlot(n, pos) {
      forall before, timer, later, now | Grows(before) && Grows(later) && InSlot(before, timer, n, pos)
        ensures OnTime(DoAll(AsWritten, EMPTY, before + [DisableOp(timer)] + later), now)
      {
        SafeSlotOnTime(n, pos, before, timer, later, now);
      }
    } else {
      var before, timer, later, now := UnsafeSlotMisses(n, pos);
    }
  }
}
