/** `TimerManager` with its vector and counter updated in place, every sequence of operations
    on it, and one whole pass of its thread. */
module TimerManagers {
  import opened Heap
  import opened Timers

  class TimerManager {
    var timers: seq<Entry>
    var active: int

    ghost predicate Valid()
      reads this
    {
      0 <= active <= |timers|
    }

    ghost function View(): State
      reads this
      requires Valid()
    {
      State(timers[..active], timers[active..])
    }

    constructor ()
      ensures Valid() && View() == State([], [])
    {
      timers, active := [], 0;
    }

    /** The search loop of every operation: the first position of the timer in a range. */
    method Find(timer: int, from: int, limit: int) returns (pos: int)
      requires 0 <= from <= limit <= |timers|
      ensures pos == -1 || (from <= pos < limit && timers[pos].timer == timer)
      ensures forall i | from <= i < limit && (pos == -1 || i < pos) :: timers[i].timer != timer
    {
      for i := from to limit
        invariant forall j | from <= j < i :: timers[j].timer != timer
      {
        if timers[i].timer == timer {
          return i;
        }
      }
      return -1;
    }

    method AddTimer(timer: int)
      requires Valid()
      modifies this
      ensures Valid() && View() == Add(old(View()), timer)
    {
      var pos := Find(timer, 0, |timers|);
      FoundInVector(timers, active, timer, pos);
      if pos >= 0 {
        return;
      }
      timers := timers + [Entry(timer, 0)];
    }

    method EnableTimer(timer: int, expired: int)
      requires Valid()
      modifies this
      ensures Valid() && View() == Enable(old(View()), timer, expired)
    {
      var pos := Find(timer, active, |timers|);
      FoundIn(timers, active, |timers|, timer, pos);
      if pos < 0 {
        return;
      }
      EnableVector(timers, active, pos, Entry(timers[pos].timer, expired));
      timers := timers[pos := Entry(timers[pos].timer, expired)];
      timers := Swap(timers, active, pos);
      active := active + 1;
      timers := PushHeap(timers[..active]) + timers[active..];
    }

    method DisableTimer(timer: int)
      requires Valid()
      modifies this
      ensures Valid() && View() == Disable(old(View()), timer)
    {
      var pos := Find(timer, 0, active);
      FoundIn(timers, 0, active, timer, pos);
      if pos < 0 {
        return;
      }
      var slice := PopHeap(timers[pos..active]);
      CutVector(timers, active, pos, slice);
      timers := timers[..pos] + slice + timers[active..];
      active := active - 1;
    }

    method RemoveTimer(timer: int)
      requires Valid() && Structure(View())
      modifies this
      ensures Valid() && View() == Remove(old(View()), timer)
    {
      InactiveAfter(View(), timer);
      DisableTimer(timer);
      EraseTimer(timer);
    }

    /** The second locked section of `remove_timer`. If the timer is inactive, as the first
        section leaves it, the active prefix stays; otherwise, the timer having been armed again
        in between, its entry goes but is still counted, and the counter is right again only
        by taking an inactive entry for an active one. */
    method EraseTimer(timer: int)
      requires Valid()
      modifies this
      ensures active == old(active) && EraseOutcome(old(timers), active, timer, timers)
      ensures IndexOf(old(View()).heap, timer) < 0 ==> Valid() && View() == Erase(old(View()), timer)
    {
      var pos := Find(timer, 0, |timers|);
      EraseVector(timers, active, pos, timer);
      if pos >= 0 {
        timers := timers[..pos] + timers[pos + 1..];
      }
    }

    /** The drain loop of one pass of `run`. */
    method DrainExpired(now: int) returns (batch: seq<Entry>)
      requires Valid()
      modifies this
      ensures Valid() && (View(), batch) == Drain(old(View()), now)
    {
      batch := [];
      ghost var (t, whole) := Drain(View(), now);
      assert batch + whole == whole;
      while active > 0 && |timers| > 0
        invariant Valid()
        invariant Drain(View(), now).0 == t
        invariant batch + Drain(View(), now).1 == whole
        decreases active
      {
        if timers[0].expired <= now {
          DrainNext(View(), now);
          Regroup(batch, timers[0], Drain(PopAt(View(), 0), now).1);
          batch := batch + [timers[0]];
          PopFront();
        } else {
          break;
        }
      }
      assert batch + [] == batch;
    }

    method PopFront()
      requires Valid() && active > 0
      modifies this
      ensures Valid() && View() == PopAt(old(View()), 0)
      ensures active == old(active) - 1
    {
      CutVector(timers, active, 0, PopHeap(timers[..active]));
      assert timers[0..active] == timers[..active];
      timers := PopHeap(timers[..active]) + timers[active..];
      active := active - 1;
    }

    /** `Timer::time_out` after its callback has returned, at time `now`: a circular timer is
        armed again, one of type `ONCE`, here without an interval, stays inactive. */
    method TimeOut(timer: int, intervals: map<int, int>, now: int)
      requires Valid()
      modifies this
      ensures Valid() && RearmStep(old(View()), View(), timer, intervals, now)
    {
      if timer in intervals {
        EnableTimer(timer, now + intervals[timer]);
      }
    }

    /** The second loop of a pass: the timers popped by the first one fire in that order. */
    method FireAll(batch: seq<Entry>, intervals: map<int, int>, clock: seq<int>)
      returns (ghost states: seq<State>)
      requires Valid() && |batch| <= |clock|
      modifies this
      ensures Valid() && Rearms(states, batch, intervals, clock)
      ensures states[0] == old(View()) && states[|batch|] == View()
    {
      states := [View()];
      for i := 0 to |batch|
        invariant Valid() && |states| == i + 1 && states[0] == old(View()) && states[i] == View()
        invariant forall j | 0 <= j < i :: RearmStep(states[j], states[j + 1], batch[j].timer, intervals, clock[j])
      {
        TimeOut(batch[i].timer, intervals, clock[i]);
        states := states + [View()];
      }
    }

    /** One pass of `run` at time `now`. */
    method RunPass(now: int, intervals: map<int, int>, clock: seq<int>)
      returns (batch: seq<Entry>, ghost states: seq<State>)
      requires Valid() && |clock| >= active
      modifies this
      ensures Valid() && batch == Drain(old(View()), now).1 && |batch| <= |clock|
      ensures Rearms(states, batch, intervals, clock)
      ensures states[0] == Drain(old(View()), now).0 && states[|batch|] == View()
    {
      DrainLength(View(), now);
      batch := DrainExpired(now);
      states := FireAll(batch, intervals, clock);
    }
  }

  lemma Regroup(a: seq<Entry>, x: Entry, b: seq<Entry>)
    ensures a + ([x] + b) == a + [x] + b
  {
  }

  lemma FoundIn(v: seq<Entry>, from: nat, limit: nat, timer: int, pos: int)
    requires from <= limit <= |v|
    requires pos == -1 || (from <= pos < limit && v[pos].timer == timer)
    requires forall i | from <= i < limit && (pos == -1 || i < pos) :: v[i].timer != timer
    ensures IndexOf(v[from..limit], timer) == if pos == -1 then -1 else pos - from
  {
    var h := v[from..limit];
    var k := IndexOf(h, timer);
    assert k >= 0 ==> v[from + k].timer == timer;
    assert pos >= 0 ==> h[pos - from].timer == timer;
  }

  lemma FoundInVector(v: seq<Entry>, active: nat, timer: int, pos: int)
    requires active <= |v|
    requires pos == -1 || (0 <= pos < |v| && v[pos].timer == timer)
    requires forall i | 0 <= i < |v| && (pos == -1 || i < pos) :: v[i].timer != timer
    ensures pos == -1 <==> IndexOf(v[..active], timer) < 0 && IndexOf(v[active..], timer) < 0
    ensures pos >= 0 && IndexOf(v[..active], timer) < 0 ==> pos >= active
  {
    var j, k := IndexOf(v[..active], timer), IndexOf(v[active..], timer);
    assert j >= 0 ==> v[j].timer == timer;
    assert k >= 0 ==> v[active + k].timer == timer;
    if pos >= 0 {
      assert if pos < active then v[..active][pos].timer == timer
             else v[active..][pos - active].timer == timer;
    }
  }

  lemma CutVector(v: seq<Entry>, active: nat, pos: nat, slice: seq<Entry>)
    requires pos < active <= |v|
    requires |slice| == active - pos
    ensures var w := v[..pos] + slice + v[active..];
            && |w| == |v|
            && w[..active - 1] == v[..active][..pos] + slice[..active - pos - 1]
            && w[active - 1..] == [slice[active - pos - 1]] + v[active..]
    ensures v[pos..active] == v[..active][pos..]
    ensures pos == 0 ==> v[..pos] + slice + v[active..] == slice + v[active..]
  {
  }

  /** What erasing a timer makes of the vector `v`. The counter is right afterwards exactly if the
      timer was inactive, or an inactive entry takes the place of the active one. */
  predicate EraseOutcome(v: seq<Entry>, active: nat, timer: int, w: seq<Entry>)
    requires active <= |v|
  {
    var s := State(v[..active], v[active..]);
    var pos := IndexOf(s.heap, timer);
    && (pos < 0 ==> active <= |w| && State(w[..active], w[active..]) == Erase(s, timer))
    && (pos >= 0 ==> w == v[..pos] + v[pos + 1..])
    && (active <= |w| <==> pos < 0 || s.idle != [])
  }

  lemma EraseVector(v: seq<Entry>, active: nat, pos: int, timer: int)
    requires active <= |v|
    requires pos == -1 || (0 <= pos < |v| && v[pos].timer == timer)
    requires forall i | 0 <= i < |v| && (pos == -1 || i < pos) :: v[i].timer != timer
    ensures EraseOutcome(v, active, timer, if pos == -1 then v else v[..pos] + v[pos + 1..])
  {
    FoundInVector(v, active, timer, pos);
    if 0 <= pos < active {
      EraseActive(v, active, pos, timer);
    } else if pos >= active {
      EraseIdle(v, active, pos, timer);
      EraseBehind(v, active, pos, timer);
    }
  }

  lemma EraseActive(v: seq<Entry>, active: nat, pos: nat, timer: int)
    requires pos < active <= |v| && v[pos].timer == timer
    requires forall i | 0 <= i < pos :: v[i].timer != timer
    ensures EraseOutcome(v, active, timer, v[..pos] + v[pos + 1..])
  {
    assert IndexOf(v[..active], timer) == pos by {
      assert v[..active][pos].timer == timer;
    }
  }

  lemma EraseBehind(v: seq<Entry>, active: nat, pos: nat, timer: int)
    requires active <= pos < |v| && IndexOf(v[..active], timer) < 0
    requires var w := v[..pos] + v[pos + 1..];
             State(w[..active], w[active..]) == Erase(State(v[..active], v[active..]), timer)
    ensures EraseOutcome(v, active, timer, v[..pos] + v[pos + 1..])
  {
  }

  lemma EraseIdle(v: seq<Entry>, active: nat, pos: nat, timer: int)
    requires active <= pos < |v| && v[pos].timer == timer
    requires forall i | active <= i < pos :: v[i].timer != timer
    ensures var w := v[..pos] + v[pos + 1..];
            State(w[..active], w[active..]) == Erase(State(v[..active], v[active..]), timer)
  {
    FoundIn(v, active, |v|, timer, pos);
    assert v[active..|v|] == v[active..];
    var w := v[..pos] + v[pos + 1..];
    assert w[..active] == v[..active];
    assert w[active..] == v[active..][..pos - active] + v[active..][pos - active + 1..];
  }

  lemma EnableVector(v: seq<Entry>, active: nat, pos: nat, e: Entry)
    requires active <= pos < |v|
    ensures var w := Swap(v[pos := e], active, pos);
            && w[..active + 1] == v[..active] + [e]
            && w[active + 1..] == v[active..][pos - active := v[active]][1..]
  {
  }

  lemma InactiveAfter(s: State, timer: int)
    requires Structure(s)
    ensures IndexOf(Disable(s, timer).heap, timer) < 0
  {
    DisableKeeps(s, timer);
    NotFound(Disable(s, timer).heap, timer);
  }

  // ----- one pass -----

  /** One timer of a batch fires; timers without an interval are the ones of type `ONCE`. */
  predicate RearmStep(s: State, t: State, timer: int, intervals: map<int, int>, now: int) {
    t == if timer in intervals then Enable(s, timer, now + intervals[timer]) else s
  }

  predicate Rearms(states: seq<State>, batch: seq<Entry>, intervals: map<int, int>, clock: seq<int>) {
    && |states| == |batch| + 1 && |batch| <= |clock|
    && forall i | 0 <= i < |batch| ::
         RearmStep(states[i], states[i + 1], batch[i].timer, intervals, clock[i])
  }

  /** The entries the circular timers of a batch come back with. */
  ghost function Rearmed(batch: seq<Entry>, intervals: map<int, int>, clock: seq<int>, n: nat): multiset<Entry>
    requires n <= |batch| <= |clock|
  {
    if n == 0 then multiset{}
    else
      Rearmed(batch, intervals, clock, n - 1) + Comeback(batch[n - 1].timer, intervals, clock[n - 1])
  }

  ghost predicate DistinctTimers(batch: seq<Entry>) {
    forall i, j | 0 <= i < j < |batch| :: batch[i].timer != batch[j].timer
  }

  ghost predicate Waiting(s: State, batch: seq<Entry>, n: nat) {
    forall i | n <= i < |batch| :: batch[i] in multiset(s.idle)
  }

  ghost function Comeback(timer: int, intervals: map<int, int>, now: int): multiset<Entry> {
    if timer in intervals then multiset{Entry(timer, now + intervals[timer])} else multiset{}
  }

  /** What firing one timer, inactive until then, does to the others. */
  ghost predicate RearmEffect(s: State, t: State, timer: int, back: multiset<Entry>) {
    Has(multiset(s.idle), timer) ==>
      && (IsHeap(s.heap) ==> IsHeap(t.heap))
      && multiset(t.heap) == multiset(s.heap) + back
      && forall e | e in multiset(s.idle) && e.timer != timer :: e in multiset(t.idle)
  }

  lemma RearmOne(s: State, t: State, timer: int, intervals: map<int, int>, now: int)
    requires RearmStep(s, t, timer, intervals, now)
    ensures RearmEffect(s, t, timer, Comeback(timer, intervals, now))
  {
    if timer !in intervals {
      Unarmed(s, timer);
    } else {
      EnableEffect(s, timer, now + intervals[timer]);
    }
  }

  lemma EnableEffect(s: State, timer: int, expired: int)
    ensures RearmEffect(s, Enable(s, timer, expired), timer, multiset{Entry(timer, expired)})
  {
    NotFound(s.idle, timer);
    var pos := IndexOf(s.idle, timer);
    if pos >= 0 {
      PushEffect(s, pos, expired);
    }
  }

  lemma Unarmed(s: State, timer: int)
    ensures RearmEffect(s, s, timer, multiset{})
  {
  }

  lemma PushEffect(s: State, pos: nat, expired: int)
    requires pos < |s.idle|
    ensures var timer := s.idle[pos].timer;
            RearmEffect(s, PushAt(s, pos, expired), timer, multiset{Entry(timer, expired)})
  {
    PushAtMoves(s, pos, expired);
    Retained(multiset(s.idle), multiset(PushAt(s, pos, expired).idle), s.idle[pos]);
  }

  lemma Retained(m: multiset<Entry>, n: multiset<Entry>, was: Entry)
    requires n == m - multiset{was}
    ensures forall e | e in m && e.timer != was.timer :: e in n
  {
  }

  lemma {:induction false} RearmExact(states: seq<State>, batch: seq<Entry>, intervals: map<int, int>, clock: seq<int>, n: nat)
    requires n <= |batch| <= |clock| && |states| == |batch| + 1
    requires forall i | 0 <= i < |batch| ::
               RearmEffect(states[i], states[i + 1], batch[i].timer, Comeback(batch[i].timer, intervals, clock[i]))
    requires DistinctTimers(batch) && Waiting(states[0], batch, 0)
    ensures IsHeap(states[0].heap) ==> IsHeap(states[n].heap)
    ensures multiset(states[n].heap) == multiset(states[0].heap) + Rearmed(batch, intervals, clock, n)
    ensures Waiting(states[n], batch, n)
    decreases n
  {
    if n > 0 {
      RearmExact(states, batch, intervals, clock, n - 1);
      var s, t, timer := states[n - 1], states[n], batch[n - 1].timer;
      assert RearmEffect(s, t, timer, Comeback(timer, intervals, clock[n - 1]));
      assert batch[n - 1] in multiset(s.idle);
      forall i | n <= i < |batch| ensures batch[i] in multiset(t.idle) {
        assert batch[i] in multiset(s.idle) && batch[i].timer != timer;
      }
    }
  }

  lemma Cancel(a: multiset<Entry>, b: multiset<Entry>, c: multiset<Entry>)
    requires a + b == a + c
    ensures b == c
  {
    assert b == a + b - a;
    assert c == a + c - a;
  }

  lemma Twice(batch: seq<Entry>, i: nat, j: nat)
    requires i < j < |batch| && batch[i] == batch[j]
    ensures multiset(batch)[batch[i]] >= 2
  {
    assert batch == batch[..j] + [batch[j]] + batch[j + 1..];
    assert batch[i] in batch[..j];
  }

  lemma DistinctSeq(batch: seq<Entry>)
    requires Distinct(multiset(batch))
    ensures DistinctTimers(batch)
  {
    forall i, j | 0 <= i < j < |batch| ensures batch[i].timer != batch[j].timer {
      assert batch[i] in multiset(batch) && batch[j] in multiset(batch);
      if batch[i] == batch[j] {
        Twice(batch, i, j);
      }
    }
  }

  lemma PoppedOnce(s: State, t: State, batch: seq<Entry>)
    requires Structure(s) && t.All() == s.All()
    requires multiset(s.heap) == multiset(t.heap) + multiset(batch)
    ensures Structure(t) && DistinctTimers(batch) && Waiting(t, batch, 0)
  {
    var th, b, si := multiset(t.heap), multiset(batch), multiset(s.idle);
    assert th + multiset(t.idle) == th + (b + si);
    Cancel(th, multiset(t.idle), b + si);
    assert b + (th + si) == s.All();
    DistinctPart(b, th + si);
    DistinctSeq(batch);
    forall i | 0 <= i < |batch| ensures batch[i] in multiset(t.idle) {
      assert batch[i] in b;
    }
  }

  /** What a whole pass does to a heap of timers: it pops exactly the expired ones, earliest
      first and no timer twice, and afterwards the active timers are the ones that had not
      expired and the circular ones that fired, these with their new expiry. */
  lemma PassExact(s: State, now: int, intervals: map<int, int>, clock: seq<int>, states: seq<State>)
    requires Structure(s) && IsHeap(s.heap)
    requires Rearms(states, Drain(s, now).1, intervals, clock) && states[0] == Drain(s, now).0
    ensures var batch := Drain(s, now).1;
            && Drained(s, now, states[0], batch) && DistinctTimers(batch)
            && IsHeap(states[|batch|].heap)
            && multiset(states[|batch|].heap)
               == multiset(states[0].heap) + Rearmed(batch, intervals, clock, |batch|)
  {
    DrainExact(s, now);
    var batch := Drain(s, now).1;
    PoppedOnce(s, states[0], batch);
    forall i | 0 <= i < |batch|
      ensures RearmEffect(states[i], states[i + 1], batch[i].timer, Comeback(batch[i].timer, intervals, clock[i]))
    {
      RearmOne(states[i], states[i + 1], batch[i].timer, intervals, clock[i]);
    }
    RearmExact(states, batch, intervals, clock, |batch|);
  }

  lemma {:induction false} DrainLength(s: State, now: int)
    ensures |Drain(s, now).1| <= |s.heap|
    decreases |s.heap|
  {
    if Expired(s, now) {
      DrainLength(PopAt(s, 0), now);
    }
  }
}
