/** The timer vector of `TimerManager` as a value: the heap of active entries, which is its
    prefix, and the inactive entries behind it. The functions say what each locked section of
    the source does; the class `TimerManager` carries them out on the vector. */
module Timers {
  import opened Heap

  datatype State = State(heap: seq<Entry>, idle: seq<Entry>)
  {
    ghost function All(): multiset<Entry> {
      multiset(heap) + multiset(idle)
    }
  }

  /** No two entries belong to the same timer. */
  ghost predicate Distinct(m: multiset<Entry>) {
    && (forall e :: m[e] <= 1)
    && (forall e, f | e in m && f in m :: e.timer == f.timer ==> e == f)
  }

  ghost predicate Structure(s: State) {
    Distinct(s.All())
  }

  ghost predicate Has(m: multiset<Entry>, timer: int) {
    exists e :: e in m && e.timer == timer
  }

  /** The first position of a timer from `from` on, or -1. */
  function IndexOf(h: seq<Entry>, timer: int, from: nat := 0): (pos: int)
    requires from <= |h|
    ensures pos == -1 || (from <= pos < |h| && h[pos].timer == timer)
    ensures forall i | from <= i < |h| && (pos == -1 || i < pos) :: h[i].timer != timer
    decreases |h| - from
  {
    if from == |h| then -1
    else if h[from].timer == timer then from
    else IndexOf(h, timer, from + 1)
  }

  function Add(s: State, timer: int): State {
    if IndexOf(s.heap, timer) >= 0 || IndexOf(s.idle, timer) >= 0 then s
    else s.(idle := s.idle + [Entry(timer, 0)])
  }

  /** The inactive entry changes places with the first inactive one, which makes it the last
      of a prefix one longer, and is pushed. */
  function PushAt(s: State, pos: nat, expired: int): State
    requires pos < |s.idle|
  {
    State(PushHeap(s.heap + [Entry(s.idle[pos].timer, expired)]), s.idle[pos := s.idle[0]][1..])
  }

  function Enable(s: State, timer: int, expired: int): State {
    var pos := IndexOf(s.idle, timer);
    if pos < 0 then s else PushAt(s, pos, expired)
  }

  /** The active prefix after `pop_heap` on its slice from `pos` on, less the last entry. */
  function Cut(h: seq<Entry>, pos: nat): (r: seq<Entry>)
    requires pos < |h|
    ensures |r| == |h| - 1
  {
    h[..pos] + PopHeap(h[pos..])[..|h| - pos - 1]
  }

  function PopAt(s: State, pos: nat): State
    requires pos < |s.heap|
  {
    State(Cut(s.heap, pos), [PopHeap(s.heap[pos..])[|s.heap| - pos - 1]] + s.idle)
  }

  function Disable(s: State, timer: int): State {
    var pos := IndexOf(s.heap, timer);
    if pos < 0 then s else PopAt(s, pos)
  }

  function Erase(s: State, timer: int): State {
    var pos := IndexOf(s.idle, timer);
    if pos < 0 then s else s.(idle := s.idle[..pos] + s.idle[pos + 1..])
  }

  /** `remove_timer`, its two locked sections run one after the other. */
  function Remove(s: State, timer: int): State {
    Erase(Disable(s, timer), timer)
  }

  predicate Expired(s: State, now: int) {
    s.heap != [] && s.heap[0].expired <= now
  }

  /** The drain loop of one pass of `run`, and the batch of entries it pops. */
  function Drain(s: State, now: int): (State, seq<Entry>)
    decreases |s.heap|
  {
    if !Expired(s, now) then (s, [])
    else
      var (t, later) := Drain(PopAt(s, 0), now);
      (t, [s.heap[0]] + later)
  }

  // ----- what the operations do to the set of active timers -----

  lemma TakeOut(m: multiset<Entry>, rest: multiset<Entry>, x: Entry)
    requires Distinct(m + rest) && x in m
    ensures forall e :: e in m - multiset{x} <==> e in m && e.timer != x.timer
  {
    assert (m + rest)[x] <= 1;
    forall e ensures e in m - multiset{x} <==> e in m && e.timer != x.timer {
      assert e in m ==> e in m + rest;
    }
  }

  lemma DistinctReplace(m: multiset<Entry>, was: Entry, now: Entry)
    requires Distinct(m) && was in m && was.timer == now.timer
    ensures Distinct(m - multiset{was} + multiset{now})
  {
    TakeOut(m, multiset{}, was);
    assert m + multiset{} == m;
    var n := m - multiset{was};
    forall e ensures (n + multiset{now})[e] <= 1 {
      assert m[e] <= 1;
      assert now in n ==> now.timer != was.timer;
    }
    forall e, f | e in n + multiset{now} && f in n + multiset{now} && e.timer == f.timer
      ensures e == f
    {
      assert e in n ==> e in m;
      assert f in n ==> f in m;
    }
  }

  lemma DistinctAdd(m: multiset<Entry>, x: Entry)
    requires Distinct(m) && !Has(m, x.timer)
    ensures Distinct(m + multiset{x})
  {
    forall e ensures (m + multiset{x})[e] <= 1 {
      assert m[e] <= 1;
    }
  }

  lemma DistinctPart(m: multiset<Entry>, rest: multiset<Entry>)
    requires Distinct(m + rest)
    ensures Distinct(m)
  {
    forall e ensures m[e] <= 1 {
      assert (m + rest)[e] <= 1;
    }
    forall e, f | e in m && f in m && e.timer == f.timer ensures e == f {
      assert e in m + rest && f in m + rest;
    }
  }

  lemma Without(h: seq<Entry>, pos: nat)
    requires pos < |h|
    ensures multiset(h[..pos] + h[pos + 1..]) == multiset(h) - multiset{h[pos]}
  {
    assert h == h[..pos] + [h[pos]] + h[pos + 1..];
  }

  lemma Overwritten(h: seq<Entry>, pos: nat)
    requires pos < |h|
    ensures multiset(h[pos := h[0]][1..]) == multiset(h) - multiset{h[pos]}
  {
    if pos == 0 {
      assert h[pos := h[0]] == h;
      assert h == [h[0]] + h[1..];
    } else {
      assert h == [h[0]] + h[1..pos] + [h[pos]] + h[pos + 1..];
      assert h[pos := h[0]][1..] == h[1..pos] + [h[0]] + h[pos + 1..];
    }
  }

  lemma NotFound(h: seq<Entry>, timer: int)
    ensures IndexOf(h, timer) < 0 <==> !Has(multiset(h), timer)
  {
    var pos := IndexOf(h, timer);
    if pos >= 0 {
      assert h[pos] in multiset(h);
    }
  }

  lemma AddKeeps(s: State, timer: int)
    requires Structure(s)
    ensures var t := Add(s, timer);
            && Structure(t) && t.heap == s.heap
            && t.All() == s.All() + (if Has(s.All(), timer) then multiset{} else multiset{Entry(timer, 0)})
  {
    NotFound(s.heap, timer);
    NotFound(s.idle, timer);
    if Add(s, timer) == s {
      var e :| (e in multiset(s.heap) || e in multiset(s.idle)) && e.timer == timer;
      assert e in s.All();
    } else {
      DistinctAdd(s.All(), Entry(timer, 0));
      assert Add(s, timer).All() == s.All() + multiset{Entry(timer, 0)};
    }
  }

  lemma EnableKeeps(s: State, timer: int, expired: int)
    requires Structure(s)
    ensures var t := Enable(s, timer, expired);
            && Structure(t)
            && (IsHeap(s.heap) ==> IsHeap(t.heap))
            && multiset(t.heap) == multiset(s.heap)
                 + (if Has(multiset(s.idle), timer) then multiset{Entry(timer, expired)} else multiset{})
            && forall e :: e in multiset(t.idle) <==> e in multiset(s.idle) && e.timer != timer
  {
    NotFound(s.idle, timer);
    var pos := IndexOf(s.idle, timer);
    if pos >= 0 {
      PushAtMoves(s, pos, expired);
      assert s.idle[pos] in multiset(s.idle);
      Exchanged(s, PushAt(s, pos, expired), s.idle[pos], Entry(timer, expired));
    }
  }

  /** Whatever the position, exactly the entry at `pos` joins the active prefix. */
  lemma PushAtMoves(s: State, pos: nat, expired: int)
    requires pos < |s.idle|
    ensures var t, e := PushAt(s, pos, expired), Entry(s.idle[pos].timer, expired);
            && (IsHeap(s.heap) ==> IsHeap(t.heap))
            && multiset(t.heap) == multiset(s.heap) + multiset{e}
            && multiset(t.idle) == multiset(s.idle) - multiset{s.idle[pos]}
  {
    var h := s.heap + [Entry(s.idle[pos].timer, expired)];
    assert h[..|s.heap|] == s.heap;
    if IsHeap(s.heap) {
      PushHeapKeeps(h);
    }
    SiftUpPermutes(h, |s.heap|);
    Overwritten(s.idle, pos);
  }

  lemma Exchanged(s: State, t: State, was: Entry, e: Entry)
    requires Structure(s) && was in multiset(s.idle) && was.timer == e.timer
    requires multiset(t.heap) == multiset(s.heap) + multiset{e}
    requires multiset(t.idle) == multiset(s.idle) - multiset{was}
    ensures Structure(t)
    ensures forall x :: x in multiset(t.idle) <==> x in multiset(s.idle) && x.timer != e.timer
  {
    assert multiset(s.idle) + multiset(s.heap) == s.All();
    TakeOut(multiset(s.idle), multiset(s.heap), was);
    DistinctReplace(s.All(), was, e);
    AllExchanged(s, t, was, e);
  }

  lemma AllExchanged(s: State, t: State, was: Entry, e: Entry)
    requires was in multiset(s.idle)
    requires multiset(t.heap) == multiset(s.heap) + multiset{e}
    requires multiset(t.idle) == multiset(s.idle) - multiset{was}
    ensures was in s.All() && t.All() == s.All() - multiset{was} + multiset{e}
  {
  }

  /** Whatever the position, exactly the entry at `pos` leaves the active prefix. */
  lemma PopAtMoves(s: State, pos: nat)
    requires pos < |s.heap|
    ensures multiset(PopAt(s, pos).heap) == multiset(s.heap) - multiset{s.heap[pos]}
    ensures multiset(PopAt(s, pos).idle) == multiset(s.idle) + multiset{s.heap[pos]}
  {
    var slice := s.heap[pos..];
    var popped := PopHeap(slice);
    PopHeapMoves(slice);
    assert s.heap == s.heap[..pos] + slice;
    assert popped == popped[..|slice| - 1] + [popped[|slice| - 1]];
  }

  lemma MovedOut(s: State, t: State, x: Entry)
    requires Structure(s) && x in multiset(s.heap)
    requires multiset(t.heap) == multiset(s.heap) - multiset{x}
    requires multiset(t.idle) == multiset(s.idle) + multiset{x}
    ensures Structure(t) && t.All() == s.All()
    ensures forall e :: e in multiset(t.heap) <==> e in multiset(s.heap) && e.timer != x.timer
  {
    TakeOut(multiset(s.heap), multiset(s.idle), x);
    assert t.All() == s.All();
  }

  lemma MovedAway(s: State, t: State, x: Entry)
    requires Structure(s) && x in s.All() && t.All() == s.All() - multiset{x}
    ensures Structure(t)
    ensures forall e :: e in t.All() <==> e in s.All() && e.timer != x.timer
  {
    assert s.All() + multiset{} == s.All();
    TakeOut(s.All(), multiset{}, x);
    assert t.All() + multiset{x} == s.All();
    DistinctPart(t.All(), multiset{x});
  }

  lemma DisableKeeps(s: State, timer: int)
    requires Structure(s)
    ensures var t := Disable(s, timer);
            && Structure(t) && t.All() == s.All()
            && forall e :: e in multiset(t.heap) <==> e in multiset(s.heap) && e.timer != timer
  {
    NotFound(s.heap, timer);
    var pos := IndexOf(s.heap, timer);
    if pos >= 0 {
      PopAtMoves(s, pos);
      assert s.heap[pos] in multiset(s.heap);
      MovedOut(s, PopAt(s, pos), s.heap[pos]);
    }
  }

  lemma OneLess(h: multiset<Entry>, i: multiset<Entry>, x: Entry)
    requires x in i
    ensures x in h + i && h + (i - multiset{x}) == h + i - multiset{x}
  {
  }

  lemma ErasedOne(s: State, t: State, x: Entry)
    requires Structure(s) && x in multiset(s.idle)
    requires t.heap == s.heap && multiset(t.idle) == multiset(s.idle) - multiset{x}
    ensures Structure(t)
    ensures forall e :: e in multiset(t.idle) <==> e in multiset(s.idle) && e.timer != x.timer
    ensures forall e :: e in t.All() <==> e in s.All() && e.timer != x.timer
  {
    OneLess(multiset(s.heap), multiset(s.idle), x);
    MovedAway(s, t, x);
    assert multiset(s.idle) + multiset(s.heap) == s.All();
    TakeOut(multiset(s.idle), multiset(s.heap), x);
  }

  lemma EraseKeeps(s: State, timer: int)
    requires Structure(s) && !Has(multiset(s.heap), timer)
    ensures var t := Erase(s, timer);
            && Structure(t) && t.heap == s.heap
            && (forall e :: e in multiset(t.idle) <==> e in multiset(s.idle) && e.timer != timer)
            && (forall e :: e in t.All() <==> e in s.All() && e.timer != timer)
  {
    NotFound(s.idle, timer);
    var pos := IndexOf(s.idle, timer);
    if pos >= 0 {
      Without(s.idle, pos);
      ErasedOne(s, Erase(s, timer), s.idle[pos]);
    }
  }

  /** After the disable the erase finds the timer among the inactive entries only. */
  lemma RemoveKeeps(s: State, timer: int)
    requires Structure(s)
    ensures var t := Remove(s, timer);
            && Structure(t) && t.heap == Disable(s, timer).heap
            && forall e :: e in t.All() <==> e in s.All() && e.timer != timer
  {
    DisableKeeps(s, timer);
    EraseKeeps(Disable(s, timer), timer);
  }

  lemma PopKeepsHeap(h: seq<Entry>)
    requires h != [] && IsHeap(h)
    ensures IsHeap(Cut(h, 0))
  {
    assert h[0..] == h;
    PopHeapKeeps(h);
    assert Cut(h, 0) == PopHeap(h)[..|h| - 1];
  }

  // ----- the drain -----

  predicate NonDecreasing(b: seq<Entry>) {
    forall i, j | 0 <= i < j < |b| :: b[i].expired <= b[j].expired
  }

  /** One pass pops precisely the active entries that have expired, earliest first, and leaves
      every other active entry where it is due later. */
  lemma {:induction false} DrainExact(s: State, now: int)
    requires IsHeap(s.heap)
    ensures var (t, batch) := Drain(s, now); Drained(s, now, t, batch)
    decreases |s.heap|
  {
    FrontBounds(s.heap);
    if Expired(s, now) {
      var u := PopAt(s, 0);
      PopKeepsHeap(s.heap);
      PopAtMoves(s, 0);
      DrainExact(u, now);
      var (t, later) := Drain(u, now);
      OneMore(s, u, now, t, later);
    }
  }

  ghost predicate Drained(s: State, now: int, t: State, batch: seq<Entry>) {
    && IsHeap(t.heap) && t.All() == s.All()
    && multiset(s.heap) == multiset(t.heap) + multiset(batch)
    && (forall e | e in multiset(t.heap) :: e.expired > now)
    && (forall e | e in multiset(batch) :: e.expired <= now)
    && NonDecreasing(batch)
  }

  lemma DrainNext(s: State, now: int)
    requires Expired(s, now)
    ensures Drain(s, now).0 == Drain(PopAt(s, 0), now).0
    ensures Drain(s, now).1 == [s.heap[0]] + Drain(PopAt(s, 0), now).1
  {
  }

  lemma FrontBounds(h: seq<Entry>)
    requires IsHeap(h)
    ensures forall e | e in multiset(h) :: h != [] && h[0].expired <= e.expired
  {
    forall e | e in multiset(h) ensures h[0].expired <= e.expired {
      var k :| 0 <= k < |h| && h[k] == e;
      FrontIsEarliest(h, k);
    }
  }

  lemma Regrouped(h: multiset<Entry>, u: multiset<Entry>, t: multiset<Entry>, later: multiset<Entry>, x: Entry)
    requires x in h && u == h - multiset{x} && u == t + later
    ensures h == t + (multiset{x} + later)
  {
    assert h == u + multiset{x};
  }

  lemma OneMore(s: State, u: State, now: int, t: State, later: seq<Entry>)
    requires s.heap != [] && s.heap[0].expired <= now
    requires forall e | e in multiset(s.heap) :: s.heap[0].expired <= e.expired
    requires multiset(u.heap) == multiset(s.heap) - multiset{s.heap[0]}
    requires multiset(u.idle) == multiset(s.idle) + multiset{s.heap[0]}
    requires Drained(u, now, t, later)
    ensures Drained(s, now, t, [s.heap[0]] + later)
  {
    var first := s.heap[0];
    assert multiset([first] + later) == multiset{first} + multiset(later);
    Regrouped(multiset(s.heap), multiset(u.heap), multiset(t.heap), multiset(later), first);
    MovedAll(s, u, first);
    EarlierFront(first, later);
  }

  lemma MovedAll(s: State, u: State, x: Entry)
    requires x in multiset(s.heap) && multiset(u.heap) == multiset(s.heap) - multiset{x}
    requires multiset(u.idle) == multiset(s.idle) + multiset{x}
    ensures u.All() == s.All()
  {
  }

  lemma EarlierFront(first: Entry, later: seq<Entry>)
    requires forall e | e in multiset(later) :: first.expired <= e.expired
    requires NonDecreasing(later)
    ensures NonDecreasing([first] + later)
  {
    forall j | 0 <= j < |later| ensures first.expired <= later[j].expired {
      assert later[j] in multiset(later);
    }
  }
}
