/** One request over whole runs: how it blocks, what a notification does, when it times out, and
    that a refused one is out. */
module Waits {
  import opened Wrappers
  import opened Rendezvous

  // ----- the wait -----

  lemma {:induction false} StaysBlocked(s: State, t: int, es: seq<Event>, u: State)
    requires IsRun(s, es, u) && t in s.handles && s.handles[t].requester.Blocked?
    requires forall i | 0 <= i < |es| ::
               es[i] != IoNotifyAll && es[i] != FireNotifyAll && es[i] != Request(t, Spurious)
    ensures t in u.handles && u.handles[t].requester.Blocked?
    decreases |es|
  {
    if |es| != 0 {
      OnlyTarget(s, es[0]);
      StaysBlocked(Apply(s, es[0]), t, es[1..], u);
    }
  }

  /** A thread that checks the slot and does not find its tag blocks, and stays so until somebody
      notifies or a wakeup comes that nobody caused. */
  lemma CheckBlocks(s: State, t: int, es: seq<Event>, u: State)
    requires Enabled(s, Request(t, Check)) && s.ready != t && IsRun(Apply(s, Request(t, Check)), es, u)
    requires forall i | 0 <= i < |es| ::
               es[i] != IoNotifyAll && es[i] != FireNotifyAll && es[i] != Request(t, Spurious)
    ensures t in u.handles && u.handles[t].requester.Blocked?
  {
    StaysBlocked(Apply(s, Request(t, Check)), t, es, u);
  }

  /** A wakeup that nobody caused only leads back to the slot: the thread leaves the wait then if
      its tag is there, and blocks again otherwise. */
  lemma SpuriousChecks(s: State, t: int)
    requires Enabled(s, Request(t, Spurious))
    ensures var u := Apply(s, Request(t, Spurious));
            && Enabled(u, Request(t, Check))
            && var r := Apply(u, Request(t, Check)).handles[t].requester;
               if s.ready == t then r.Woken? else r.Blocked?
  {
  }

  lemma {:induction false} StaysEmpty(s: State, es: seq<Event>, u: State)
    requires IsRun(s, es, u) && s.ready == NO_TAG && NO_TAG !in s.handles
    requires forall i | 0 <= i < |es| :: es[i] != IoSetFlag && es[i] != FireSetFlag
    ensures u.ready == NO_TAG
    ensures forall t | t in u.handles && u.handles[t].requester.Woken? ::
              t in s.handles && s.handles[t].requester.Woken?
    decreases |es|
  {
    if |es| != 0 {
      OnlyTarget(s, es[0]);
      StaysEmpty(Apply(s, es[0]), es[1..], u);
    }
  }

  /** A thread that finds its tag in the slot leaves the wait and empties the slot; until a tag is
      put there again nobody else leaves. */
  lemma SlotConsumed(s: State, t: int, es: seq<Event>, u: State)
    requires Inv(s) && Enabled(s, Request(t, Check)) && s.ready == t
    requires IsRun(Apply(s, Request(t, Check)), es, u)
    requires forall i | 0 <= i < |es| :: es[i] != IoSetFlag && es[i] != FireSetFlag
    ensures Apply(s, Request(t, Check)).handles[t].requester.Woken? && u.ready == NO_TAG
    ensures forall r | r in u.handles && u.handles[r].requester.Woken? ::
              r == t || (r in s.handles && s.handles[r].requester.Woken?)
  {
    StaysEmpty(Apply(s, Request(t, Check)), es, u);
  }

  // ----- the timeout -----

  /** What a wait with this timeout that began at `start` makes of the handle: its first expiry is
      `start + timeout`, no later one is earlier, and it has not timed out without a firing. */
  predicate Timed(h: Handle, start: int, timeout: nat) {
    && h.interval == timeout && !h.requester.Created? && !h.timer.Off?
    && (h.timer.Armed? || h.timer.Popped? ==>
          if h.fires == [] then h.timer.expiry == start + timeout else h.timer.expiry >= start + timeout)
    && (h.fires != [] ==> h.fires[0].due == start + timeout)
    && (forall i | 0 <= i < |h.fires| :: h.fires[i].time >= start + timeout)
    && (h.status.TimedOut? ==> h.fires != [])
  }

  lemma ActedTimed(h: Handle, act: Act, mine: bool, clock: int, start: int, timeout: nat)
    requires Timed(h, start, timeout) && CanAct(h, act)
    ensures Timed(Acted(h, act, mine, clock), start, timeout)
  {
  }

  lemma FiredTimed(h: Handle, f: Firing, start: int, timeout: nat)
    requires Timed(h, start, timeout) && h.timer.Popped? && f.due == h.timer.expiry <= f.time
    ensures Timed(Expire(h, f), start, timeout)
  {
  }

  lemma RearmedTimed(h: Handle, clock: int, start: int, timeout: nat)
    requires Timed(h, start, timeout) && h.fires != [] && start <= clock
    ensures Timed(h.(timer := Armed(clock + h.interval)), start, timeout)
  {
  }

  lemma StepTimed(s: State, e: Event, t: int, start: int, timeout: nat)
    requires Inv(s) && Enabled(s, e) && t in s.handles && start <= s.clock
    requires Timed(s.handles[t], start, timeout)
    ensures t in Apply(s, e).handles && start <= Apply(s, e).clock
    ensures Timed(Apply(s, e).handles[t], start, timeout)
  {
    OnlyTarget(s, e);
    if Target(s, e) == Some(t) {
      match e
      case Request(_, act) => ActedTimed(s.handles[t], act, s.ready == t, s.clock, start, timeout);
      case Pop => FrontIsArmed(s);
      case FireState =>
        assert ToFire(s.thread)[0] == t && MayFire(s.handles[t], s.thread.now, s.passes);
        FiredTimed(s.handles[t], Fired(s.passes, s.thread.now, DueAt(s.handles[t])), start, timeout);
      case Rearm =>
        RearmedTimed(s.handles[t], s.clock, start, timeout);
      case Create(_) =>
    }
  }

  lemma StepClock(s: State, e: Event, t: int, due: int)
    requires Inv(s) && Enabled(s, e) && t in s.handles
    requires s.handles[t].fires != [] ==> due <= s.clock
    requires s.handles[t].timer.Popped? ==> due <= s.handles[t].timer.expiry
    ensures t in Apply(s, e).handles
    ensures Apply(s, e).handles[t].fires != [] ==> due <= Apply(s, e).clock
  {
    OnlyTarget(s, e);
    if e.FireState? && s.thread.batch[0] == t {
      assert ToFire(s.thread)[0] == t && MayFire(s.handles[t], s.thread.now, s.passes);
    }
  }

  lemma {:induction false} RunTimed(s: State, es: seq<Event>, u: State, t: int, start: int, timeout: nat)
    requires Inv(s) && IsRun(s, es, u) && t in s.handles && start <= s.clock
    requires Timed(s.handles[t], start, timeout)
    requires s.handles[t].fires != [] ==> start + timeout <= s.clock
    ensures Inv(u) && t in u.handles && Timed(u.handles[t], start, timeout)
    ensures u.handles[t].fires != [] ==> start + timeout <= u.clock
    decreases |es|
  {
    if |es| != 0 {
      StepInv(s, es[0]);
      StepTimed(s, es[0], t, start, timeout);
      StepClock(s, es[0], t, start + timeout);
      RunTimed(Apply(s, es[0]), es[1..], u, t, start, timeout);
    }
  }

  /** In whatever run follows the beginning of a wait: the request does not time out before its
      timeout has passed, its timer first expires exactly then, and is armed again for the same
      time after each firing. */
  lemma TimeoutOverRuns(s: State, t: int, timeout: nat, es: seq<Event>, u: State)
    requires Inv(s) && Enabled(s, Request(t, StartWait(timeout)))
    requires IsRun(Apply(s, Request(t, StartWait(timeout))), es, u)
    ensures t in u.handles
    ensures var h := u.handles[t];
            && (h.status.TimedOut? ==> u.clock >= s.clock + timeout)
            && (forall i | 0 <= i < |h.fires| :: h.fires[i].time >= s.clock + timeout)
            && (h.fires == [] && h.timer.Armed? ==> h.timer.expiry == s.clock + timeout)
            && (h.fires != [] ==> h.fires[0].due == s.clock + timeout)
            && (Enabled(u, Rearm) && u.thread.batch[0] == t ==>
                  Apply(u, Rearm).handles[t].timer == Armed(u.clock + timeout))
  {
    StepInv(s, Request(t, StartWait(timeout)));
    StartTimed(s, t, timeout);
    RunTimed(Apply(s, Request(t, StartWait(timeout))), es, u, t, s.clock, timeout);
    if Enabled(u, Rearm) && u.thread.batch[0] == t {
      RearmedFor(u, timeout);
    }
  }

  lemma StartTimed(s: State, t: int, timeout: nat)
    requires AllSound(s) && Enabled(s, Request(t, StartWait(timeout)))
    ensures var u := Apply(s, Request(t, StartWait(timeout)));
            t in u.handles && Timed(u.handles[t], s.clock, timeout) && u.handles[t].fires == [] && u.clock == s.clock
  {
    assert Sound(s.handles[t]);
  }

  lemma RearmedFor(u: State, timeout: nat)
    requires Enabled(u, Rearm) && u.handles[u.thread.batch[0]].interval == timeout
    ensures Apply(u, Rearm).handles[u.thread.batch[0]].timer == Armed(u.clock + timeout)
  {
  }

  // ----- a refused request -----

  lemma {:induction false} StaysRefused(s: State, t: int, es: seq<Event>, u: State)
    requires IsRun(s, es, u) && t in s.handles && s.handles[t].requester.Refused?
    ensures t in u.handles && u.handles[t].requester.Refused?
    decreases |es|
  {
    if |es| != 0 {
      OnlyTarget(s, es[0]);
      StaysRefused(Apply(s, es[0]), t, es[1..], u);
    }
  }

  /** A request whose package was refused is out: it never waits, its timer never starts, and
      nobody is waiting for what may come back under its tag. */
  lemma RefusedIsOut(s: State, t: int, es: seq<Event>, u: State)
    requires Inv(s) && Enabled(s, Request(t, Refuse)) && IsRun(Apply(s, Request(t, Refuse)), es, u)
    ensures t in u.handles && u.handles[t].requester.Refused?
    ensures !u.handles[t].timer.Armed? && !u.handles[t].timer.Popped? && u.handles[t].fires == []
    ensures forall act: Act | act.StartWait? || act.Check? || act.Return? :: !Enabled(u, Request(t, act))
  {
    StepInv(s, Request(t, Refuse));
    StaysRefused(Apply(s, Request(t, Refuse)), t, es, u);
    RunInv(Apply(s, Request(t, Refuse)), es, u);
    assert Sound(u.handles[t]);
  }
}
