/** No requester is stranded: whatever happened before, the timer thread alone can bring every
    waiting thread back. */
module Releases {
  import opened Heap
  import T = Timers
  import opened TimerRuns
  import opened Rendezvous

  predicate Waits(s: State, t: int) {
    t in s.handles && (s.handles[t].requester.ToWait? || s.handles[t].requester.Blocked?)
  }

  /** The thread that waits for tag `t` is the next one to be notified. */
  predicate AboutToRelease(s: State, t: int) {
    s.thread.Flagging? && s.thread.batch != [] && s.thread.batch[0] == t
  }

  function LastExpiry(h: seq<Entry>, least: int): (last: int)
    ensures last >= least && forall i | 0 <= i < |h| :: h[i].expired <= last
  {
    if h == [] then least
    else LastExpiry(h[1..], if h[0].expired > least then h[0].expired else least)
  }

  /** Every active timer has expired. */
  predicate AllDue(timers: T.State, now: int) {
    forall i | 0 <= i < |timers.heap| :: timers.heap[i].expired <= now
  }

  /** The next step of the timer thread, which sleeps until all active timers are due: then even
      a vector that is no heap hides none of them. */
  function NextMove(s: State): Event {
    match s.thread
    case Sleeping =>
      if AllDue(s.timers, s.clock) then StartPass else Tick(LastExpiry(s.timers.heap, s.clock) - s.clock)
    case Collecting(_, _) => if FrontDue(s) then Pop else Collected
    case Firing(_, _) => FireState
    case Flagging(_, _) => FireSetFlag
    case Notifying(_, _) => FireNotifyAll
    case Rearming(_, _) => Rearm
  }

  /** How far the timer of `t` is from firing: in this pass, or in the next one. */
  function Phase(s: State, t: int): nat
    requires t in s.handles
  {
    if t in ToFire(s.thread) || AboutToRelease(s, t) then 0
    else if s.thread.Collecting? && AllDue(s.timers, s.thread.now) then 1
    else if s.thread.Sleeping? then 2
    else 3
  }

  function ToCollect(s: State): nat {
    if s.thread.Collecting? then 1 + |s.timers.heap| else 0
  }

  function InBatch(s: State): nat {
    if s.thread.Collecting? then 0 else |Batch(s.thread)|
  }

  function Stage(s: State): nat {
    match s.thread
    case Sleeping => if AllDue(s.timers, s.clock) then 0 else 1
    case Collecting(_, _) => 0
    case Firing(_, _) => 3
    case Flagging(_, _) => 2
    case Notifying(_, _) => 1
    case Rearming(_, _) => 0
  }

  predicate Sooner(u: State, s: State, t: int)
    requires t in u.handles && t in s.handles
  {
    || Phase(u, t) < Phase(s, t)
    || (Phase(u, t) == Phase(s, t)
        && (|| ToCollect(u) < ToCollect(s)
            || (ToCollect(u) == ToCollect(s)
                && (|| InBatch(u) < InBatch(s)
                    || (InBatch(u) == InBatch(s) && Stage(u) < Stage(s))))))
  }

  lemma PopSooner(s: State, t: int)
    requires Waits(s, t) && Enabled(s, Pop)
    ensures Waits(AfterPop(s), t) && Sooner(AfterPop(s), s, t)
  {
    var u, now := AfterPop(s), s.thread.now;
    assert ToFire(u.thread) == ToFire(s.thread) + [s.timers.heap[0].timer];
    PoppedDue(s.timers, now);
  }

  lemma PoppedDue(timers: T.State, now: int)
    requires timers.heap != []
    ensures |T.PopAt(timers, 0).heap| == |timers.heap| - 1
    ensures AllDue(timers, now) ==> AllDue(T.PopAt(timers, 0), now)
  {
    T.PopAtMoves(timers, 0);
    if AllDue(timers, now) {
      StillDue(timers.heap, T.PopAt(timers, 0).heap, now);
    }
  }

  lemma StillDue(h: seq<Entry>, g: seq<Entry>, now: int)
    requires multiset(g) <= multiset(h) && forall i | 0 <= i < |h| :: h[i].expired <= now
    ensures forall i | 0 <= i < |g| :: g[i].expired <= now
  {
    forall i | 0 <= i < |g| ensures g[i].expired <= now {
      assert g[i] in multiset(g);
      assert g[i] in multiset(h);
    }
  }

  lemma RearmSooner(s: State, t: int)
    requires s.thread.Rearming? && Front(s) && Waits(s, t)
    ensures Waits(AfterRearm(s), t) && Sooner(AfterRearm(s), s, t)
  {
    var u, rest := AfterRearm(s), s.thread.batch[1..];
    assert ToFire(u.thread) == rest == ToFire(s.thread);
    assert InBatch(u) == |rest| < InBatch(s) && ToCollect(u) == ToCollect(s) == 0;
    if t !in rest {
      assert Phase(s, t) == 3;
    }
  }

  lemma WakeSooner(s: State, t: int)
    requires s.thread.Sleeping? && Waits(s, t)
    ensures Enabled(s, NextMove(s))
    ensures Waits(Apply(s, NextMove(s)), t) && Sooner(Apply(s, NextMove(s)), s, t)
  {
  }

  lemma CollectedSooner(s: State, t: int)
    requires s.thread.Collecting? && Waits(s, t) && !FrontDue(s) && Phase(s, t) != 1
    ensures Waits(AfterCollect(s), t) && Sooner(AfterCollect(s), s, t)
  {
    assert ToFire(AfterCollect(s).thread) == ToFire(s.thread);
  }

  /** While the timer of `t` is still active and all are due, the pass goes on. */
  lemma NotYetCollected(s: State, t: int)
    requires Inv(s) && Waits(s, t) && s.thread.Collecting? && Phase(s, t) == 1
    ensures FrontDue(s)
  {
    assert Sound(s.handles[t]) && PlaceOf(s.timers, t) == SpotOf(s, t);
  }

  lemma FireSooner(s: State, t: int)
    requires s.thread.Firing? && Front(s) && Waits(s, t)
    ensures Waits(AfterFire(s), t) && Sooner(AfterFire(s), s, t)
  {
    var batch := s.thread.batch;
    assert batch == [batch[0]] + batch[1..];
  }

  lemma FlagSooner(s: State, t: int)
    requires (s.thread.Flagging? || s.thread.Notifying?) && Front(s) && Waits(s, t) && !AboutToRelease(s, t)
    ensures Enabled(s, NextMove(s))
    ensures Waits(Apply(s, NextMove(s)), t) && Sooner(Apply(s, NextMove(s)), s, t)
  {
    var u := Apply(s, NextMove(s));
    assert ToFire(u.thread) == ToFire(s.thread) && InBatch(u) == InBatch(s);
  }

  lemma MoveSooner(s: State, t: int)
    requires Inv(s) && Waits(s, t) && !AboutToRelease(s, t)
    ensures Enabled(s, NextMove(s))
    ensures Waits(Apply(s, NextMove(s)), t) && Sooner(Apply(s, NextMove(s)), s, t)
  {
    match s.thread
    case Sleeping => WakeSooner(s, t);
    case Collecting(_, _) =>
      if FrontDue(s) {
        FrontIsArmed(s);
        PopSooner(s, t);
      } else {
        if Phase(s, t) == 1 {
          NotYetCollected(s, t);
        }
        CollectedSooner(s, t);
      }
    case Firing(_, _) =>
      assert Front(s);
      FireSooner(s, t);
    case Rearming(_, _) =>
      assert Front(s);
      RearmSooner(s, t);
    case _ =>
      assert Front(s);
      FlagSooner(s, t);
  }

  /** From every reachable state in which a thread waits, the passing of time and the timer
      thread by themselves let it return with a settled request, even if no response arrives
      and other tags overwrote every notification. */
  lemma {:induction false} CanReturn(s: State, t: int) returns (u: State)
    requires Inv(s) && Waits(s, t)
    ensures Reaches(s, u) && t in u.handles
    ensures u.handles[t].requester.Returned? && !u.handles[t].status.Waiting?
    decreases Phase(s, t), ToCollect(s), InBatch(s), Stage(s)
  {
    if AboutToRelease(s, t) {
      u := FiringReleases(s, t);
    } else {
      var e := NextMove(s);
      MoveSooner(s, t);
      StepInv(s, e);
      u := CanReturn(Apply(s, e), t);
      ReachesAfter(s, e, u);
    }
  }
}
