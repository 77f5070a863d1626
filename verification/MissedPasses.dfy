/** What a pass of the timer thread does for the requests, and what it misses once a handle has
    been destroyed while its timer was in an unsafe slot. */
module MissedPasses {
  import opened Wrappers
  import opened Heap
  import T = Timers
  import opened DisableSlots
  import opened TimerRuns
  import opened MissedTimers
  import opened Rendezvous

  /** A run in which every destroyed handle has its timer in a safe slot. */
  ghost predicate Leads(s: State, u: State) {
    exists es :: IsRun(s, es, u) && CarefulRun(s, es)
  }

  lemma LeadsSelf(s: State)
    ensures Leads(s, s)
  {
    assert IsRun(s, [], s) && CarefulRun(s, []);
  }

  lemma LeadsAfter(s: State, e: Event, u: State)
    requires Enabled(s, e) && CarefulStep(s, e) && Leads(Apply(s, e), u)
    ensures Leads(s, u)
  {
    var es :| IsRun(Apply(s, e), es, u) && CarefulRun(Apply(s, e), es);
    assert ([e] + es)[1..] == es;
    assert IsRun(s, [e] + es, u) && CarefulRun(s, [e] + es);
  }

  lemma {:induction false} LeadsOn(s: State, es: seq<Event>, u: State, v: State)
    requires IsRun(s, es, u) && CarefulRun(s, es) && Leads(u, v)
    ensures Leads(s, v)
    decreases |es|
  {
    if |es| != 0 {
      LeadsOn(Apply(s, es[0]), es[1..], u, v);
      LeadsAfter(s, es[0], v);
    }
  }

  lemma LeadsTrans(s: State, u: State, v: State)
    requires Leads(s, u) && Leads(u, v)
    ensures Leads(s, v)
  {
    var es :| IsRun(s, es, u) && CarefulRun(s, es);
    LeadsOn(s, es, u, v);
  }

  // ----- one undisturbed pass -----

  function TimersOf(batch: seq<Entry>): (r: seq<int>)
    ensures |r| == |batch| && forall i | 0 <= i < |r| :: r[i] == batch[i].timer
  {
    seq(|batch|, i requires 0 <= i < |batch| => batch[i].timer)
  }

  predicate Untouched(h: Handle, k: Handle) {
    k.fires == h.fires && k.status == h.status
  }

  /** No handle fires or settles. */
  ghost predicate AllUntouched(s: State, u: State) {
    u.handles.Keys == s.handles.Keys && forall t | t in s.handles :: Untouched(s.handles[t], u.handles[t])
  }

  lemma UntouchedTrans(s: State, u: State, v: State)
    requires AllUntouched(s, u) && AllUntouched(u, v)
    ensures AllUntouched(s, v)
  {
  }

  lemma DrainStep(timers: T.State, now: int, popped: seq<int>)
    requires T.Expired(timers, now)
    ensures var d, later := T.Drain(timers, now), T.Drain(T.PopAt(timers, 0), now);
            d.0 == later.0 && popped + TimersOf(d.1) == popped + [timers.heap[0].timer] + TimersOf(later.1)
  {
    T.DrainNext(timers, now);
    Prefixed(popped, timers.heap[0], T.Drain(T.PopAt(timers, 0), now).1);
  }

  lemma Prefixed(popped: seq<int>, e: Entry, later: seq<Entry>)
    ensures popped + TimersOf([e] + later) == popped + [e.timer] + TimersOf(later)
  {
    assert TimersOf([e] + later) == [e.timer] + TimersOf(later);
  }

  lemma PopTouches(s: State)
    requires Enabled(s, Pop)
    ensures AllUntouched(s, AfterPop(s))
  {
  }

  /** The popping loop of a pass is the drain of the vector. */
  lemma {:induction false} CollectRun(s: State) returns (u: State)
    requires Inv(s) && s.thread.Collecting?
    ensures Leads(s, u) && Inv(u)
    ensures var (timers, batch) := T.Drain(s.timers, s.thread.now);
            u.timers == timers && u.thread == FireNext(s.thread.now, s.thread.batch + TimersOf(batch))
    ensures u.passes == s.passes && u.due == s.due && AllUntouched(s, u)
    decreases |s.timers.heap|
  {
    if FrontDue(s) {
      FrontIsArmed(s);
      StepInv(s, Pop);
      var v := AfterPop(s);
      u := CollectRun(v);
      LeadsAfter(s, Pop, u);
      DrainStep(s.timers, s.thread.now, s.thread.batch);
      PopTouches(s);
      UntouchedTrans(s, v, u);
    } else {
      StepInv(s, Collected);
      u := AfterCollect(s);
      LeadsSelf(u);
      LeadsAfter(s, Collected, u);
      assert s.thread.batch + TimersOf([]) == s.thread.batch;
    }
  }

  predicate FiredIn(h: Handle, pass: nat) {
    h.fires != [] && h.fires[|h.fires| - 1].pass == pass
  }

  /** The timer that has fired is announced and armed again. */
  lemma AnnounceRun(s: State) returns (u: State)
    requires Inv(s) && s.thread.Flagging? && Front(s)
    ensures Leads(s, u) && Inv(u)
    ensures u.thread == FireNext(s.thread.now, s.thread.batch[1..]) && u.passes == s.passes && u.due == s.due
    ensures AllUntouched(s, u)
  {
    var b := Apply(s, FireSetFlag);
    StepInv(s, FireSetFlag);
    var c := Apply(b, FireNotifyAll);
    StepInv(b, FireNotifyAll);
    u := AfterRearm(c);
    StepInv(c, Rearm);
    LeadsSelf(u);
    LeadsAfter(c, Rearm, u);
    LeadsAfter(b, FireNotifyAll, u);
    LeadsAfter(s, FireSetFlag, u);
    RearmTouches(c);
    WakeTouches(s, c);
    UntouchedTrans(s, c, u);
  }

  lemma WakeTouches(s: State, c: State)
    requires c.handles == WakeAll(s.handles)
    ensures AllUntouched(s, c)
  {
  }

  lemma RearmTouches(s: State)
    requires Enabled(s, Rearm)
    ensures AllUntouched(s, AfterRearm(s))
  {
  }

  /** In these rounds the timers of the batch fire, and no others. */
  ghost predicate FiredExactly(s: State, u: State, batch: seq<int>) {
    && u.handles.Keys == s.handles.Keys
    && forall t | t in s.handles ::
         if t in batch then FiredIn(u.handles[t], u.passes) else Untouched(s.handles[t], u.handles[t])
  }

  lemma FireTouches(s: State, u: State)
    requires Enabled(s, FireState) && AllUntouched(AfterFire(s), u) && u.passes == s.passes
    ensures FiredExactly(s, u, [s.thread.batch[0]])
  {
    var a := AfterFire(s);
    forall t | t in s.handles ensures
      if t in [s.thread.batch[0]] then FiredIn(u.handles[t], u.passes)
      else Untouched(s.handles[t], u.handles[t])
    {
      assert t in a.handles && Untouched(a.handles[t], u.handles[t]);
    }
  }

  lemma FireRound(s: State) returns (u: State)
    requires Inv(s) && s.thread.Firing? && Front(s)
    ensures Leads(s, u) && Inv(u)
    ensures u.thread == FireNext(s.thread.now, s.thread.batch[1..]) && u.passes == s.passes && u.due == s.due
    ensures FiredExactly(s, u, [s.thread.batch[0]])
  {
    StepInv(s, FireState);
    u := AnnounceRun(AfterFire(s));
    LeadsAfter(s, FireState, u);
    FireTouches(s, u);
  }

  lemma FiredBoth(s: State, v: State, u: State, batch: seq<int>)
    requires batch != [] && forall i | 1 <= i < |batch| :: batch[i] != batch[0]
    requires FiredExactly(s, v, [batch[0]]) && FiredExactly(v, u, batch[1..]) && u.passes == v.passes
    ensures FiredExactly(s, u, batch)
  {
    forall t | t in s.handles ensures
      if t in batch then FiredIn(u.handles[t], u.passes) else Untouched(s.handles[t], u.handles[t])
    {
      assert t in v.handles;
      assert t in batch <==> t == batch[0] || t in batch[1..];
    }
  }

  lemma {:induction false} FireRun(s: State) returns (u: State)
    requires Inv(s) && (s.thread.Sleeping? || s.thread.Firing?)
    ensures Leads(s, u) && Inv(u) && u.thread.Sleeping? && u.passes == s.passes && u.due == s.due
    ensures FiredExactly(s, u, Batch(s.thread))
    decreases |Batch(s.thread)|
  {
    if s.thread.Sleeping? {
      LeadsSelf(s);
      u := s;
    } else {
      var batch := Batch(s.thread);
      assert batch[0] in s.handles;
      var v := FireRound(s);
      assert Batch(v.thread) == batch[1..];
      u := FireRun(v);
      LeadsTrans(s, v, u);
      FiredBoth(s, v, u, batch);
    }
  }

  lemma NotYetFired(s: State, a: State, b: State, u: State, batch: seq<int>)
    requires FireReady(s) && s.thread.Sleeping? && u.passes == s.passes + 1
    requires a.handles == s.handles && AllUntouched(a, b) && FiredExactly(b, u, batch)
    ensures FiredExactly(s, u, batch)
    ensures forall t | t in s.handles && t !in batch :: !FiredIn(u.handles[t], u.passes)
  {
    forall t | t in s.handles && t !in batch
      ensures Untouched(s.handles[t], u.handles[t]) && !FiredIn(u.handles[t], u.passes)
    {
      assert FiredBefore(s.handles[t], s.passes + 1) && Untouched(a.handles[t], b.handles[t]);
    }
  }

  /** A whole pass, undisturbed: exactly the timers that the drain pops fire. */
  lemma PassRun(s: State) returns (u: State)
    requires Inv(s) && s.thread.Sleeping?
    ensures Leads(s, u) && Inv(u) && u.thread.Sleeping? && u.passes == s.passes + 1
    ensures u.due == (set t | t in s.handles && Expired(s.handles[t], s.clock))
    ensures var batch := TimersOf(T.Drain(s.timers, s.clock).1);
            && FiredExactly(s, u, batch)
            && forall t | t in s.handles && t !in batch :: !FiredIn(u.handles[t], u.passes)
  {
    var a := Apply(s, StartPass);
    StepInv(s, StartPass);
    var b := CollectRun(a);
    u := FireRun(b);
    LeadsTrans(a, b, u);
    LeadsAfter(s, StartPass, u);
    var batch := TimersOf(T.Drain(s.timers, s.clock).1);
    assert [] + batch == batch;
    NotYetFired(s, a, b, u, batch);
  }

  lemma PoppedTimers(s: T.State, now: int, e: Entry)
    requires T.Structure(s) && e in multiset(s.heap)
    ensures e.timer in TimersOf(T.Drain(s, now).1) <==> e !in multiset(T.Drain(s, now).0.heap)
  {
    var (t, batch) := T.Drain(s, now);
    DrainTakes(s, now);
    OneOrOther(s, multiset(t.heap), multiset(batch), e);
    var r := TimersOf(batch);
    if e in multiset(batch) {
      var i :| 0 <= i < |batch| && batch[i] == e;
      assert r[i] == e.timer;
    }
    if e.timer in r {
      var i :| 0 <= i < |r| && r[i] == e.timer;
      assert batch[i] in multiset(batch);
      assert batch[i] in multiset(s.heap);
      OneActive(s, e, batch[i]);
    }
  }

  lemma OneOrOther(s: T.State, left: multiset<Entry>, batch: multiset<Entry>, e: Entry)
    requires T.Structure(s) && e in multiset(s.heap) && multiset(s.heap) == left + batch
    ensures e in batch <==> e !in left
  {
    assert s.All()[e] <= 1;
    assert multiset(s.heap)[e] == left[e] + batch[e];
  }

  lemma ExpiredEntry(s: State, e: Entry)
    requires Linked(s) && e in multiset(s.timers.heap)
    ensures e.timer in s.handles && s.handles[e.timer].timer == Armed(e.expired)
  {
    PlaceIsAt(s.timers, e.timer, Active(e.expired));
    assert PlaceOf(s.timers, e.timer) == SpotOf(s, e.timer);
  }

  lemma ArmedEntry(s: State, t: int)
    requires Linked(s) && t in s.handles && s.handles[t].timer.Armed?
    ensures Entry(t, s.handles[t].timer.expiry) in multiset(s.timers.heap)
  {
    assert PlaceOf(s.timers, t) == SpotOf(s, t);
    PlaceIsAt(s.timers, t, SpotOf(s, t));
  }

  /** A pass fires every timer that has expired if and only if the drain of the vector at that
      time leaves none behind; a request whose timer it misses stays as it was. */
  lemma PassIff(s: State) returns (u: State)
    requires Inv(s) && s.thread.Sleeping?
    ensures Leads(s, u) && u.thread.Sleeping?
    ensures u.due == (set t | t in s.handles && Expired(s.handles[t], s.clock))
    ensures (forall t | t in u.due :: t in u.handles && FiredIn(u.handles[t], u.passes)) <==> OnTime(s.timers, s.clock)
    ensures forall t | t in u.due && t in u.handles && !FiredIn(u.handles[t], u.passes) ::
              u.handles[t].status == s.handles[t].status
  {
    u := PassRun(s);
    if OnTime(s.timers, s.clock) {
      forall t | t in u.due ensures t in u.handles && FiredIn(u.handles[t], u.passes) {
        PoppedWhenDue(s, t);
      }
    } else {
      var t := LeftBehind(s);
    }
  }

  lemma PoppedWhenDue(s: State, t: int)
    requires Linked(s) && OnTime(s.timers, s.clock) && t in s.handles && Expired(s.handles[t], s.clock)
    ensures t in TimersOf(T.Drain(s.timers, s.clock).1)
  {
    ArmedEntry(s, t);
    PoppedTimers(s.timers, s.clock, Entry(t, s.handles[t].timer.expiry));
  }

  lemma LeftBehind(s: State) returns (t: int)
    requires Linked(s) && !OnTime(s.timers, s.clock)
    ensures t in s.handles && Expired(s.handles[t], s.clock) && t !in TimersOf(T.Drain(s.timers, s.clock).1)
  {
    var left := multiset(T.Drain(s.timers, s.clock).0.heap);
    DrainTakes(s.timers, s.clock);
    var e :| e in left && e.expired <= s.clock;
    assert e in multiset(s.timers.heap);
    ExpiredEntry(s, e);
    PoppedTimers(s.timers, s.clock, e);
    t := e.timer;
  }

  // ----- from the start to a pass that misses a request -----

  /** A request whose thread waits: neither answered nor timed out. */
  function WaitingHandle(clock: int, timeout: nat): Handle {
    NEW_HANDLE.(requester := ToWait, timer := Armed(clock + timeout), interval := timeout)
  }

  lemma StartOne(s: State, t: int, timeout: nat) returns (u: State)
    requires t !in s.handles && t != NO_TAG
    ensures u == Set(s, t, WaitingHandle(s.clock, timeout))
                   .(timers := T.Enable(T.Add(s.timers, t), t, s.clock + timeout))
    ensures forall z | Leads(u, z) :: Leads(s, z)
  {
    var a := Apply(s, Create(t));
    u := Apply(a, Request(t, StartWait(timeout)));
    assert u.handles == s.handles[t := WaitingHandle(s.clock, timeout)];
    forall z | Leads(u, z) ensures Leads(s, z) {
      LeadsAfter(a, Request(t, StartWait(timeout)), z);
      LeadsAfter(s, Create(t), z);
    }
  }

  ghost predicate Startable(s: State, h: seq<Entry>) {
    && (forall i | 0 <= i < |h| ::
          h[i].timer !in s.handles && h[i].timer != NO_TAG && h[i].expired >= s.clock)
    && (forall i, j | 0 <= i < j < |h| :: h[i].timer != h[j].timer)
  }

  /** Nothing but more waiting requests. */
  ghost predicate MoreWaiting(s: State, u: State) {
    && u == s.(handles := u.handles, timers := u.timers)
    && (forall t | t in s.handles :: t in u.handles && u.handles[t] == s.handles[t])
    && (forall t | t in u.handles && t !in s.handles :: Fresh(u.handles[t]))
  }

  predicate Fresh(h: Handle) {
    h.status.Waiting? && h.requester.ToWait? && h.mapped && h.response.None?
  }

  function Tags(h: seq<Entry>): set<int> {
    if h == [] then {} else {h[0].timer} + Tags(h[1..])
  }

  lemma {:induction false} NumberedTags(h: seq<Entry>, m: int)
    requires forall j | 0 <= j < |h| :: h[j].timer == m + j
    ensures forall r :: r in Tags(h) <==> m <= r < m + |h|
    decreases |h|
  {
    if h != [] {
      assert h[0].timer == m;
      NumberedTags(h[1..], m + 1);
    }
  }

  lemma StartableNext(s: State, u: State, h: seq<Entry>)
    requires h != [] && Startable(s, h) && u.clock == s.clock
    requires u.handles.Keys == s.handles.Keys + {h[0].timer}
    ensures Startable(u, h[1..])
  {
    forall i | 0 <= i < |h[1..]|
      ensures h[1..][i].timer !in u.handles && h[1..][i].timer != NO_TAG && h[1..][i].expired >= u.clock
    {
      assert h[1..][i] == h[i + 1];
    }
  }

  lemma MoreTrans(s: State, t: int, h: Handle, timers: T.State, u: State)
    requires t !in s.handles && Fresh(h) && MoreWaiting(Set(s, t, h).(timers := timers), u)
    ensures MoreWaiting(s, u)
  {
  }

  lemma StartFirst(s: State, h: seq<Entry>) returns (v: State)
    requires h != [] && Startable(s, h)
    ensures Startable(v, h[1..]) && v.handles.Keys == s.handles.Keys + {h[0].timer}
    ensures v.timers == T.Enable(T.Add(s.timers, h[0].timer), h[0].timer, h[0].expired)
    ensures forall z | Leads(v, z) :: Leads(s, z)
    ensures forall z | MoreWaiting(v, z) :: MoreWaiting(s, z)
  {
    var t, timeout := h[0].timer, h[0].expired - s.clock;
    v := StartOne(s, t, timeout);
    StartableNext(s, v, h);
    forall z | MoreWaiting(v, z) ensures MoreWaiting(s, z) {
      MoreTrans(s, t, WaitingHandle(s.clock, timeout), v.timers, z);
    }
  }

  /** Requests started one after the other. */
  lemma {:induction false} StartAll(s: State, h: seq<Entry>) returns (u: State)
    requires Startable(s, h)
    ensures Leads(s, u) && MoreWaiting(s, u)
    ensures u.timers == DoAll(AsWritten, s.timers, Build(h))
    ensures u.handles.Keys == s.handles.Keys + Tags(h)
    decreases |h|
  {
    if h == [] {
      LeadsSelf(s);
      u := s;
    } else {
      var v := StartFirst(s, h);
      u := StartAll(v, h[1..]);
      BuildFirst(s.timers, h);
    }
  }

  /** A waiting request is answered and returns. */
  function Ended(h: Handle): Handle {
    h.(status := Done, response := Some([]), buffer := [], mapped := false, requester := Returned(0, Some([])))
  }

  ghost predicate AllWaiting(s: State) {
    s.thread.Sleeping? && s.io.IoIdle? && forall r | r in s.handles :: Fresh(s.handles[r])
  }

  lemma EndOne(s: State, t: int) returns (u: State)
    requires AllWaiting(s) && t in s.handles && s.handles[t].timer.Armed?
    ensures Leads(s, u) && u == Set(s, t, Ended(s.handles[t])).(ready := NO_TAG)
  {
    var h := s.handles[t];
    var done := h.(status := Done, response := Some([]), buffer := [], mapped := false);
    var a := Set(s, t, done).(io := IoFlag(t));
    var b := a.(ready := t, io := IoNotify);
    var c := b.(io := IoIdle);
    var d := Set(s, t, done.(requester := Woken)).(ready := NO_TAG);
    u := Set(s, t, Ended(h)).(ready := NO_TAG);
    LeadsSelf(u);
    Answered(s, t);
    assert Apply(d, Request(t, Return)).handles == u.handles;
    LeadsAfter(d, Request(t, Return), u);
    assert Apply(c, Request(t, Check)).handles == d.handles;
    LeadsAfter(c, Request(t, Check), u);
    NoneBlocked(b.handles);
    LeadsAfter(b, IoNotifyAll, u);
    LeadsAfter(a, IoSetFlag, u);
    LeadsAfter(s, Request(t, Respond([])), u);
  }

  lemma NoneBlocked(handles: map<int, Handle>)
    requires forall r | r in handles :: !handles[r].requester.Blocked?
    ensures WakeAll(handles) == handles
  {
    assert forall r | r in handles :: WakeAll(handles)[r] == handles[r];
  }

  lemma Answered(s: State, t: int)
    requires AllWaiting(s) && t in s.handles
    ensures Enabled(s, Request(t, Respond([])))
    ensures Apply(s, Request(t, Respond([])))
         == Set(s, t, s.handles[t].(status := Done, response := Some([]), buffer := [], mapped := false)).(io := IoFlag(t))
  {
  }

  /** The handle of tag `t` can be destroyed, with its timer in slot `pos` of `n` active ones. */
  ghost predicate DestroysSlot(s: State, t: int, n: nat, pos: nat) {
    Enabled(s, Request(t, Destroy)) && |s.timers.heap| == n && T.IndexOf(s.timers.heap, t) == pos
  }

  /** All requests whose timer had expired when the last pass began are settled. */
  ghost predicate DueSettled(s: State) {
    forall t | t in s.due :: Settled(s, t)
  }

  lemma BuildUp(h: seq<Entry>) returns (a: State)
    requires IsHeap(h) && forall j | 0 <= j < |h| :: h[j].timer == j && h[j].expired >= 0
    ensures Leads(INIT, a) && Linked(a) && MoreWaiting(INIT, a) && a.timers == T.State(h, [])
    ensures forall r :: r in a.handles <==> 0 <= r < |h|
  {
    a := StartAll(INIT, h);
    BuildReaches(h);
    NumberedTags(h, 0);
    InitInv();
    Led(INIT, a);
  }

  lemma Setup(n: nat, pos: nat) returns (s: State, k: nat)
    requires pos < n && !SafeSlot(n, pos)
    ensures Leads(INIT, s) && s.clock == 0 && s.thread.Sleeping? && DestroysSlot(s, pos, n, pos)
    ensures Inverted(T.Cut(s.timers.heap, pos), k)
    ensures forall j | 0 <= j < n :: s.timers.heap[j].expired >= 0
    ensures forall r :: r in s.handles <==> 0 <= r < n
    ensures forall r | r in s.handles && r != pos :: s.handles[r].status.Waiting?
  {
    var h;
    h, k := UnsafeSlotBreaks(n, pos);
    var a := BuildUp(h);
    assert h[pos].timer == pos && T.IndexOf(h, pos) == pos;
    s := EndIn(a, pos);
    LeadsTrans(INIT, a, s);
  }

  /** The request whose timer is in slot `pos` ends; its handle can be destroyed. */
  lemma EndIn(a: State, pos: nat) returns (s: State)
    requires AllWaiting(a) && Linked(a) && T.IndexOf(a.timers.heap, pos) == pos
    ensures Leads(a, s) && DestroysSlot(s, pos, |a.timers.heap|, pos)
    ensures s.clock == a.clock && s.thread.Sleeping? && s.timers == a.timers && s.handles.Keys == a.handles.Keys
    ensures forall r | r in s.handles && r != pos :: s.handles[r].status.Waiting?
  {
    assert PlaceOf(a.timers, pos) == SpotOf(a, pos);
    s := EndOne(a, pos);
  }

  lemma Led(s: State, u: State)
    requires Inv(s) && Leads(s, u)
    ensures Inv(u) && (Timely(s) ==> Timely(u))
  {
    var es :| IsRun(s, es, u) && CarefulRun(s, es);
    RunInv(s, es, u);
  }

  /** For every unsafe slot there is a run, careful but for one handle destroyed with its timer
      in that slot, after which a pass leaves a request waiting although its timer had expired
      when the pass began. */
  lemma UnsafeDestroyMisses(n: nat, pos: nat) returns (s: State, u: State)
    requires pos < n && !SafeSlot(n, pos)
    ensures Leads(INIT, s) && DestroysSlot(s, pos, n, pos)
    ensures Leads(Apply(s, Request(pos, Destroy)), u) && u.thread.Sleeping? && !DueSettled(u)
  {
    var k;
    s, k := Setup(n, pos);
    InitInv();
    Led(INIT, s);
    StepInv(s, Request(pos, Destroy));
    var d := Apply(s, Request(pos, Destroy));
    DestroyedVector(s, pos);
    Destroyed(s, pos);
    CutFrom(s.timers.heap, pos, k);
    u := MissAfter(d, k, n);
  }

  lemma DestroyedVector(s: State, pos: nat)
    requires DestroysSlot(s, pos, |s.timers.heap|, pos)
    ensures Apply(s, Request(pos, Destroy)).timers.heap == T.Cut(s.timers.heap, pos)
  {
  }

  lemma Destroyed(s: State, t: int)
    requires Enabled(s, Request(t, Destroy))
    requires forall r | r in s.handles && r != t :: s.handles[r].status.Waiting?
    ensures var d := Apply(s, Request(t, Destroy));
            ActiveWait(d) && d.thread == s.thread && d.clock == s.clock && d.handles.Keys == s.handles.Keys
  {
  }

  /** Requests whose timer is active wait. */
  ghost predicate ActiveWait(s: State) {
    forall r | r in s.handles && s.handles[r].timer.Armed? :: s.handles[r].status.Waiting?
  }

  lemma MoreActiveWait(d: State, a: State)
    requires ActiveWait(d) && MoreWaiting(d, a)
    ensures ActiveWait(a)
  {
  }

  lemma PassMisses(b: State) returns (u: State, t: int)
    requires Inv(b) && b.thread.Sleeping? && !OnTime(b.timers, b.clock)
    ensures Leads(b, u) && u.thread.Sleeping?
    ensures t in u.due && t in b.handles && b.handles[t].timer.Armed?
    ensures t in u.handles ==> u.handles[t].status == b.handles[t].status
  {
    u := PassIff(b);
    t :| t in u.due && !(t in u.handles && FiredIn(u.handles[t], u.passes));
  }

  /** Later requests, time and a pass: an inverted entry is missed. */
  lemma MissAfter(d: State, k: nat, n: nat) returns (u: State)
    requires Inv(d) && ActiveWait(d) && d.thread.Sleeping? && d.clock == 0
    requires forall r | r >= n :: r !in d.handles
    requires Inverted(d.timers.heap, k) && |d.timers.heap| <= n && d.timers.heap[k].expired >= 0
    ensures Leads(d, u) && u.thread.Sleeping? && !DueSettled(u)
  {
    var c := d.timers.heap;
    var latest, now := c[Parent(k)].expired, c[k].expired;
    var a := StartAll(d, Later(n, n, latest));
    Led(d, a);
    LaterInPlace(d, n, latest);
    InvertedIsMissed(c, a.timers, k, n);
    u := MissedAt(a, now);
    MoreActiveWait(d, a);
    LeadsTrans(d, a, u);
  }

  lemma MissedAt(a: State, now: nat) returns (u: State)
    requires Inv(a) && a.thread.Sleeping? && a.clock == 0 && !OnTime(a.timers, now)
    ensures Leads(a, u) && u.thread.Sleeping? && (ActiveWait(a) ==> !DueSettled(u))
  {
    var b := Apply(a, Tick(now));
    StepInv(a, Tick(now));
    var t;
    u, t := PassMisses(b);
    LeadsAfter(a, Tick(now), u);
    assert ActiveWait(a) ==> !Settled(u, t);
  }

  lemma CutFrom(h: seq<Entry>, pos: nat, k: nat)
    requires pos < |h| && k < |h| - 1 && forall j | 0 <= j < |h| :: h[j].expired >= 0
    ensures T.Cut(h, pos)[k].expired >= 0
  {
    T.PopAtMoves(T.State(h, []), pos);
    var e := T.Cut(h, pos)[k];
    assert e in multiset(T.Cut(h, pos));
    assert e in multiset(h);
  }

  lemma LaterInPlace(d: State, n: nat, latest: int)
    requires Linked(d) && forall r | r >= n :: r !in d.handles
    requires forall j | 0 <= j < |d.timers.heap| :: d.timers.heap[j].expired <= latest
    ensures DoAll(AsWritten, d.timers, Build(Later(n, n, latest))).heap == d.timers.heap + Later(n, n, latest)
  {
    forall r | r >= n ensures PlaceOf(d.timers, r).Absent? {
      assert PlaceOf(d.timers, r) == SpotOf(d, r);
    }
    LaterAppends(d.timers, n, n, latest);
  }

  /** The exact condition under which passes settle what is due: if the first handle destroyed
      out of a careful order has its timer in slot `pos` of `n` active ones, then every pass of
      every careful continuation settles all requests that are due, if and only if the slot is
      safe. */
  lemma PassesSettleIff(n: nat, pos: nat)
    requires pos < n
    ensures SafeSlot(n, pos) <==>
            forall s, t, u | Leads(INIT, s) && DestroysSlot(s, t, n, pos)
                             && Leads(Apply(s, Request(t, Destroy)), u) && u.thread.Sleeping? :: DueSettled(u)
  {
    if SafeSlot(n, pos) {
      forall s, t, u | Leads(INIT, s) && DestroysSlot(s, t, n, pos)
                       && Leads(Apply(s, Request(t, Destroy)), u) && u.thread.Sleeping? ensures DueSettled(u)
      {
        InitInv();
        Led(INIT, s);
        StepInv(s, Request(t, Destroy));
        StepTimely(s, Request(t, Destroy));
        Led(Apply(s, Request(t, Destroy)), u);
      }
    } else {
      var s, u := UnsafeDestroyMisses(n, pos);
    }
  }
}
