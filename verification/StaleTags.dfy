/** Using a tag again after its request is over: exactly when the new request can be woken before
    it is settled, and a run that leads there. */
module StaleTags {
  import opened Wrappers
  import opened Heap
  import T = Timers
  import opened TimerRuns
  import opened Rendezvous

  /** The request with this tag has returned and its handle is gone. */
  predicate Over(s: State, t: int) {
    t in s.handles && s.handles[t].requester.Returned? && s.handles[t].timer.Gone? && !s.handles[t].mapped
  }

  /** The tag is given to a new request. */
  function Reused(s: State, t: int): State {
    Set(s, t, NEW_HANDLE).(timers := T.Add(s.timers, t), due := s.due - {t})
  }

  /** The thread of this request has left `wait` although the request is not settled. */
  predicate AwakeEarly(s: State, t: int) {
    && t in s.handles && s.handles[t].status.Waiting?
    && (s.handles[t].requester.Woken? || s.handles[t].requester.Returned?)
  }

  ghost predicate CanWakeEarly(s: State, t: int) {
    exists es, u :: IsRun(s, es, u) && AwakeEarly(u, t)
  }

  /** The slot holds the tag, or the socket thread is about to put it there. */
  predicate Stale(s: State, t: int) {
    s.ready == t || (s.io.IoFlag? && s.io.tag == t)
  }

  lemma ReusedInv(s: State, t: int)
    requires Inv(s) && Over(s, t) && !Stale(s, t)
    ensures Inv(Reused(s, t))
  {
    var u := Reused(s, t);
    assert Sound(NEW_HANDLE);
    ReusedSlot(s, t);
    ReusedBatch(s, t);
    ReusedLinked(s, t);
  }

  lemma ReusedSlot(s: State, t: int)
    requires Slot(s) && BatchHeld(s) && Over(s, t) && !Stale(s, t)
    ensures Slot(Reused(s, t))
  {
    if s.thread.Flagging? {
      assert s.handles[Batch(s.thread)[0]].timer.Popped?;
    }
  }

  lemma ReusedBatch(s: State, t: int)
    requires Batched(s) && Over(s, t)
    ensures Batched(Reused(s, t))
  {
    var u := Reused(s, t);
    assert t !in Batch(s.thread);
    forall i | 0 <= i < |ToFire(s.thread)|
      ensures ToFire(s.thread)[i] in u.handles
      ensures MayFire(u.handles[ToFire(s.thread)[i]], s.thread.now, s.passes)
    {
      assert MayFire(s.handles[ToFire(s.thread)[i]], s.thread.now, s.passes);
      assert ToFire(s.thread)[i] in Batch(s.thread);
    }
  }

  lemma ReusedLinked(s: State, t: int)
    requires Linked(s) && Over(s, t)
    ensures Linked(Reused(s, t))
  {
    var u := Reused(s, t);
    forall r ensures SpotOf(u, r) == OpPlaced(Some(AddOp(t)), r, SpotOf(s, r)) {
    }
    assert u.timers == OpDone(s.timers, Some(AddOp(t)));
    OpLinked(s, u, Some(AddOp(t)));
  }

  lemma StaleWakes(s: State, t: int)
    requires Over(s, t) && Stale(s, t)
    ensures CanWakeEarly(Reused(s, t), t)
  {
    var u := Reused(s, t);
    var es: seq<Event> := [];
    var v := u;
    if s.ready != t {
      es := [IoSetFlag];
      v := Apply(u, IoSetFlag);
    }
    assert v.ready == t && v.handles[t] == NEW_HANDLE;
    var w := Apply(v, Request(t, StartWait(0)));
    var x := Apply(w, Request(t, Check));
    RunCons(w, Request(t, Check), [], x);
    RunCons(v, Request(t, StartWait(0)), [Request(t, Check)] + [], x);
    if s.ready != t {
      RunCons(u, IoSetFlag, [Request(t, StartWait(0))] + ([Request(t, Check)] + []), x);
    }
    assert AwakeEarly(x, t);
  }

  /** A tag can be used again without an early wake if and only if neither the slot nor the
      socket thread still holds it. */
  lemma ReuseIff(s: State, t: int)
    requires Inv(s) && Over(s, t)
    ensures CanWakeEarly(Reused(s, t), t) <==> Stale(s, t)
  {
    if Stale(s, t) {
      StaleWakes(s, t);
    } else {
      ReusedInv(s, t);
      forall es, u | IsRun(Reused(s, t), es, u) ensures !AwakeEarly(u, t) {
        RunInv(Reused(s, t), es, u);
        assert t in u.handles ==> Sound(u.handles[t]);
      }
    }
  }

  // ----- a run to a stale tag -----

  /** The state with one request only, its timer due at 0. */
  function One(t: int, h: Handle, timers: T.State, ready: int, thread: TimerThread, io: Io, passes: nat): State {
    State(map[t := h], timers, ready, 0, thread, io, passes, if passes > 0 then {t} else {})
  }

  const NONE := T.State([], [])

  function On(t: int): T.State {
    T.State([Entry(t, 0)], [])
  }

  function NotOn(t: int): T.State {
    T.State([], [Entry(t, 0)])
  }

  const STARTED := NEW_HANDLE.(requester := ToWait, timer := Armed(0))
  const ANSWERED := STARTED.(status := Done, response := Some([]), mapped := false)
  const RETURNED := ANSWERED.(requester := Returned(0, Some([])))
  const POPPED := RETURNED.(timer := Popped(0))
  const FIRED := POPPED.(fires := [Fired(1, 0, 0)])
  const GONE := FIRED.(timer := Gone)

  ghost predicate StepsTo(s: State, e: Event, u: State) {
    Enabled(s, e) && u == Apply(s, e)
  }

  lemma Before(s: State, e: Event, u: State, z: State)
    requires StepsTo(s, e, u) && Reaches(u, z)
    ensures Reaches(s, z)
  {
    ReachesAfter(s, e, z);
  }

  // What the operations do to a vector with this one timer.

  lemma AddOne(t: int)
    ensures T.Add(NONE, t) == NotOn(t)
  {
  }

  lemma EnableOne(t: int)
    ensures T.Enable(NotOn(t), t, 0) == On(t)
  {
    var e := Entry(t, 0);
    assert T.IndexOf([e], t) == 0;
    assert [] + [e] == [e] && [e][0 := e][1..] == [];
    assert PushHeap([e]) == [e];
  }

  lemma PopOne(t: int)
    ensures T.PopAt(On(t), 0) == NotOn(t) && T.Disable(On(t), t) == NotOn(t)
  {
    var e := Entry(t, 0);
    assert [e][0..] == [e] && PopHeap([e]) == [e];
  }

  lemma EraseOne(t: int)
    ensures T.Erase(NotOn(t), t) == NONE
  {
    var e := Entry(t, 0);
    assert [e][..0] + [e][1..] == [];
  }

  lemma Requested(t: int, z: State)
    requires t != NO_TAG && Reaches(One(t, ANSWERED, On(t), NO_TAG, Sleeping, IoFlag(t), 0), z)
    ensures Reaches(INIT, z)
  {
    AddOne(t);
    EnableOne(t);
    var s1 := One(t, NEW_HANDLE, NotOn(t), NO_TAG, Sleeping, IoIdle, 0);
    var s2 := One(t, STARTED, On(t), NO_TAG, Sleeping, IoIdle, 0);
    Before(s2, Request(t, Respond([])), One(t, ANSWERED, On(t), NO_TAG, Sleeping, IoFlag(t), 0), z);
    Before(s1, Request(t, StartWait(0)), s2, z);
    Before(INIT, Create(t), s1, z);
  }

  lemma Returning(t: int, z: State)
    requires t != NO_TAG && Reaches(One(t, RETURNED, On(t), NO_TAG, Sleeping, IoIdle, 0), z)
    ensures Reaches(One(t, ANSWERED, On(t), NO_TAG, Sleeping, IoFlag(t), 0), z)
  {
    var s4 := One(t, ANSWERED, On(t), t, Sleeping, IoNotify, 0);
    var s5 := s4.(io := IoIdle);
    var s6 := One(t, ANSWERED.(requester := Woken), On(t), NO_TAG, Sleeping, IoIdle, 0);
    Before(s6, Request(t, Return), One(t, RETURNED, On(t), NO_TAG, Sleeping, IoIdle, 0), z);
    Before(s5, Request(t, Check), s6, z);
    Before(s4, IoNotifyAll, s5, z);
    Before(One(t, ANSWERED, On(t), NO_TAG, Sleeping, IoFlag(t), 0), IoSetFlag, s4, z);
  }

  lemma PoppedAgain(t: int, z: State)
    requires t != NO_TAG && Reaches(One(t, POPPED, NotOn(t), NO_TAG, Firing(0, [t]), IoIdle, 1), z)
    ensures Reaches(One(t, RETURNED, On(t), NO_TAG, Sleeping, IoIdle, 0), z)
  {
    PopOne(t);
    var s7 := One(t, RETURNED, On(t), NO_TAG, Sleeping, IoIdle, 0);
    var s8 := One(t, RETURNED, On(t), NO_TAG, Collecting(0, []), IoIdle, 1);
    var s9 := One(t, POPPED, NotOn(t), NO_TAG, Collecting(0, [t]), IoIdle, 1);
    Before(s9, Collected, One(t, POPPED, NotOn(t), NO_TAG, Firing(0, [t]), IoIdle, 1), z);
    assert [] + [t] == [t];
    Before(s8, Pop, s9, z);
    Before(s7, StartPass, s8, z);
  }

  lemma FiredAgain(t: int, z: State)
    requires t != NO_TAG && Reaches(One(t, FIRED, NotOn(t), t, Rearming(0, [t]), IoIdle, 1), z)
    ensures Reaches(One(t, POPPED, NotOn(t), NO_TAG, Firing(0, [t]), IoIdle, 1), z)
  {
    var s11 := One(t, FIRED, NotOn(t), NO_TAG, Flagging(0, [t]), IoIdle, 1);
    var s12 := One(t, FIRED, NotOn(t), t, Notifying(0, [t]), IoIdle, 1);
    Before(s12, FireNotifyAll, One(t, FIRED, NotOn(t), t, Rearming(0, [t]), IoIdle, 1), z);
    Before(s11, FireSetFlag, s12, z);
    assert POPPED.fires + [Fired(1, 0, 0)] == FIRED.fires;
    Before(One(t, POPPED, NotOn(t), NO_TAG, Firing(0, [t]), IoIdle, 1), FireState, s11, z);
  }

  lemma Rearmed(t: int, z: State)
    requires t != NO_TAG && Reaches(One(t, FIRED.(timer := Armed(0)), On(t), t, Sleeping, IoIdle, 1), z)
    ensures Reaches(One(t, FIRED, NotOn(t), t, Rearming(0, [t]), IoIdle, 1), z)
  {
    EnableOne(t);
    assert [t][1..] == [];
    var s14 := One(t, FIRED.(timer := Armed(0)), On(t), t, Sleeping, IoIdle, 1);
    Before(One(t, FIRED, NotOn(t), t, Rearming(0, [t]), IoIdle, 1), Rearm, s14, z);
  }

  lemma Destroyed(t: int)
    requires t != NO_TAG
    ensures Reaches(One(t, FIRED.(timer := Armed(0)), On(t), t, Sleeping, IoIdle, 1), Stranded(t))
  {
    PopOne(t);
    EraseOne(t);
    var s14 := One(t, FIRED.(timer := Armed(0)), On(t), t, Sleeping, IoIdle, 1);
    var s15 := One(t, FIRED.(timer := Disabled), NotOn(t), t, Sleeping, IoIdle, 1);
    ReachesSelf(Stranded(t));
    Before(s15, Request(t, Erase), Stranded(t), Stranded(t));
    Before(s14, Request(t, Destroy), s15, Stranded(t));
  }

  /** The request with tag `t` is over, but its tag is in the slot. */
  function Stranded(t: int): State {
    One(t, GONE, NONE, t, Sleeping, IoIdle, 1)
  }

  /** A run from the start: the request is answered and returns; its timer, circular, fires once
      more and puts the tag back into the slot; the handle is destroyed. The next request with
      that tag can be woken before it is settled. */
  lemma StaleTagWakesEarly(t: int)
    requires t != NO_TAG
    ensures Reaches(INIT, Stranded(t)) && Over(Stranded(t), t) && CanWakeEarly(Reused(Stranded(t), t), t)
  {
    Destroyed(t);
    Rearmed(t, Stranded(t));
    FiredAgain(t, Stranded(t));
    PoppedAgain(t, Stranded(t));
    Returning(t, Stranded(t));
    Requested(t, Stranded(t));
    StaleWakes(Stranded(t), t);
  }
}
