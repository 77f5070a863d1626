/** How a client thread waits for its response: one `Condition` shared by all requests, its
    single slot `m_ready` holding the tag last notified; the socket thread writing responses;
    and the timer thread that times requests out and, its timers being circular, notifies
    their tags again and again. The timers sit in the vector of the timer manager. Every locked
    section is a step. */
module Rendezvous {
  import opened Wrappers
  import opened Frames
  import Heap
  import T = Timers
  import opened DisableSlots
  import opened TimerRuns

  const CAPACITY: nat := 2048
  const NO_TAG: int := -1

  datatype Status = Waiting | Done | TimedOut

  /** Where the thread in `send_request` stands. `Returned` holds what `read` returned and the
      response bytes it copied to the caller, if it copied any. */
  datatype Requester =
    | Created
    | Refused
    | ToWait
    | Blocked
    | Woken
    | Returned(length: nat, copied: Option<Bytes>)

  /** The timer of a handle: not started, waiting in the vector, taken out of it by a pass, or
      in destruction, its two locked sections done one after the other. */
  datatype Timer = Off | Armed(expiry: int) | Popped(expiry: int) | Disabled | Gone

  /** One firing of a timer: in which pass, at which pass time, and the expiry it was armed for. */
  datatype Firing = Fired(pass: nat, time: int, due: int)

  /** `response` and `fires` record the response that was accepted and the firings of the timer.
      `mapped`: the tag map still refers to the handle. */
  datatype Handle = Handle(
    status: Status,
    buffer: Bytes,
    response: Option<Bytes>,
    requester: Requester,
    timer: Timer,
    interval: int,
    fires: seq<Firing>,
    mapped: bool)

  /** The timer thread: asleep, popping expired timers, or firing the batch it popped, in four
      steps for the timer at its front. */
  datatype TimerThread =
    | Sleeping
    | Collecting(now: int, batch: seq<int>)
    | Firing(now: int, batch: seq<int>)
    | Flagging(now: int, batch: seq<int>)
    | Notifying(now: int, batch: seq<int>)
    | Rearming(now: int, batch: seq<int>)

  /** The socket thread: idle, or inside `write` after it has set the state of a handle. */
  datatype Io = IoIdle | IoFlag(tag: int) | IoNotify

  /** `handles` keeps every handle ever created; `passes` counts the passes begun, and `due` are
      the timers that had expired when the last of them began. */
  datatype State = State(
    handles: map<int, Handle>,
    timers: T.State,
    ready: int,
    clock: int,
    thread: TimerThread,
    io: Io,
    passes: nat,
    due: set<int>)

  /** What the requesting thread does with its handle, a wakeup nobody caused, and the socket
      thread writing a response to it. `Destroy` and `Erase` are the two sections of
      `remove_timer`. */
  datatype Act =
    | Refuse
    | StartWait(timeout: nat)
    | Check
    | Spurious
    | Return
    | Destroy
    | Erase
    | Respond(bytes: Bytes)

  datatype Event =
    | Create(tag: int)
    | Request(tag: int, act: Act)
    | IoSetFlag
    | IoNotifyAll
    | Tick(ms: nat)
    | StartPass
    | Pop
    | Collected
    | FireState
    | FireSetFlag
    | FireNotifyAll
    | Rearm

  const INIT := State(map[], T.State([], []), NO_TAG, 0, Sleeping, IoIdle, 0, {})

  const NEW_HANDLE := Handle(Waiting, [], None, Created, Off, 0, [], true)

  /** What the buffer of a handle holds afterwards: `write` copies nothing that exceeds it. */
  function Stored(bytes: Bytes, before: Bytes := []): Bytes {
    if |bytes| <= CAPACITY then bytes else before
  }

  /** `ResponseHandle::write`, after the handle was taken out of the tag map. */
  function Written(h: Handle, bytes: Bytes): Handle {
    if h.status.TimedOut? then h.(mapped := false)
    else h.(mapped := false, status := Done, buffer := Stored(bytes, h.buffer), response := Some(bytes))
  }

  /** The end of `ResponseHandle::read`: a response is copied to the caller only if it leaves
      room in the caller's buffer; `send_request` passes one of the capacity. */
  function ReadResult(h: Handle, room: nat := CAPACITY): Requester {
    if h.status.TimedOut? then Returned(0, None)
    else Returned(|h.buffer|, if room > |h.buffer| then Some(h.buffer) else None)
  }

  function Expire(h: Handle, f: Firing): Handle {
    h.(status := if h.status.Waiting? then TimedOut else h.status, fires := h.fires + [f])
  }

  function DueAt(h: Handle): int {
    if h.timer.Armed? || h.timer.Popped? then h.timer.expiry else 0
  }

  predicate Expired(h: Handle, now: int) {
    h.timer.Armed? && h.timer.expiry <= now
  }

  predicate Front(s: State) {
    !s.thread.Sleeping? && s.thread.batch != [] && s.thread.batch[0] in s.handles
  }

  predicate CanAct(h: Handle, act: Act) {
    match act
    case Refuse => h.requester.Created?
    case StartWait(_) => h.requester.Created?
    case Check => h.requester.ToWait?
    case Spurious => h.requester.Blocked?
    case Return => h.requester.Woken?
    case Destroy =>
      !h.mapped && (h.timer.Off? || h.timer.Armed?) && (h.requester.Returned? || h.requester.Refused?)
    case Erase => h.timer.Disabled?
    case Respond(_) => h.mapped
  }

  /** The handle afterwards; `mine`: the slot holds its tag. */
  function Acted(h: Handle, act: Act, mine: bool, clock: int): Handle {
    match act
    case Refuse => h.(requester := Refused)
    case StartWait(timeout) =>
      h.(requester := ToWait, timer := Armed(clock + timeout), interval := timeout)
    case Check => h.(requester := if mine then Woken else Blocked)
    case Spurious => h.(requester := ToWait)
    case Return => h.(requester := ReadResult(h))
    case Destroy => h.(timer := Disabled)
    case Erase => h.(timer := Gone)
    case Respond(bytes) => Written(h, bytes)
  }

  /** The vector afterwards. */
  function Scheduled(timers: T.State, t: int, act: Act, clock: int): T.State {
    match act
    case StartWait(timeout) => T.Enable(timers, t, clock + timeout)
    case Destroy => T.Disable(timers, t)
    case Erase => T.Erase(timers, t)
    case _ => timers
  }

  /** The timer at the front of the heap has expired. */
  predicate FrontDue(s: State) {
    s.thread.Collecting? && T.Expired(s.timers, s.thread.now)
  }

  ghost predicate Enabled(s: State, e: Event) {
    match e
    case Create(t) => t !in s.handles && t != NO_TAG
    case Request(t, act) => t in s.handles && CanAct(s.handles[t], act) && (act.Respond? ==> s.io.IoIdle?)
    case IoSetFlag => s.io.IoFlag?
    case IoNotifyAll => s.io.IoNotify?
    case Tick(_) => true
    case StartPass => s.thread.Sleeping?
    case Pop => FrontDue(s) && s.timers.heap[0].timer in s.handles
    case Collected => s.thread.Collecting? && !FrontDue(s)
    case FireState => s.thread.Firing? && Front(s)
    case FireSetFlag => s.thread.Flagging? && Front(s)
    case FireNotifyAll => s.thread.Notifying? && Front(s)
    case Rearm => s.thread.Rearming? && Front(s)
  }

  function Unblocked(h: Handle): Handle {
    if h.requester.Blocked? then h.(requester := ToWait) else h
  }

  function WakeAll(handles: map<int, Handle>): map<int, Handle> {
    map t | t in handles :: Unblocked(handles[t])
  }

  function FireNext(now: int, batch: seq<int>): TimerThread {
    if batch == [] then Sleeping else Firing(now, batch)
  }

  function Set(s: State, t: int, h: Handle): State {
    s.(handles := s.handles[t := h])
  }

  /** A successful check of the predicate resets the slot; a response that counts is followed by
      its notification. */
  function AfterRequest(s: State, t: int, act: Act): State
    requires t in s.handles
  {
    var h := s.handles[t];
    Set(s, t, Acted(h, act, s.ready == t, s.clock)).(
      timers := Scheduled(s.timers, t, act, s.clock),
      ready := if act.Check? && s.ready == t then NO_TAG else s.ready,
      io := if act.Respond? && !h.status.TimedOut? then IoFlag(t) else s.io)
  }

  // The steps of the timer thread that change its batch.

  function AfterPop(s: State): State
    requires FrontDue(s) && s.timers.heap[0].timer in s.handles
  {
    var e := s.timers.heap[0];
    Set(s, e.timer, s.handles[e.timer].(timer := Popped(e.expired)))
      .(timers := T.PopAt(s.timers, 0), thread := Collecting(s.thread.now, s.thread.batch + [e.timer]))
  }

  function AfterCollect(s: State): State
    requires s.thread.Collecting?
  {
    s.(thread := FireNext(s.thread.now, s.thread.batch))
  }

  function AfterFire(s: State): State
    requires Front(s)
  {
    var t := s.thread.batch[0];
    Set(s, t, Expire(s.handles[t], Fired(s.passes, s.thread.now, DueAt(s.handles[t]))))
      .(thread := Flagging(s.thread.now, s.thread.batch))
  }

  function AfterRearm(s: State): State
    requires Front(s)
  {
    var t := s.thread.batch[0];
    var expiry := s.clock + s.handles[t].interval;
    Set(s, t, s.handles[t].(timer := Armed(expiry)))
      .(timers := T.Enable(s.timers, t, expiry), thread := FireNext(s.thread.now, s.thread.batch[1..]))
  }

  ghost function Apply(s: State, e: Event): State
    requires Enabled(s, e)
  {
    match e
    case Create(t) => Set(s, t, NEW_HANDLE).(timers := T.Add(s.timers, t))
    case Request(t, act) => AfterRequest(s, t, act)
    case IoSetFlag => s.(ready := s.io.tag, io := IoNotify)
    case IoNotifyAll => s.(handles := WakeAll(s.handles), io := IoIdle)
    case Tick(ms) => s.(clock := s.clock + ms)
    case StartPass =>
      s.(thread := Collecting(s.clock, []), passes := s.passes + 1, due := set t | t in s.handles && Expired(s.handles[t], s.clock))
    case Pop => AfterPop(s)
    case Collected => AfterCollect(s)
    case FireState => AfterFire(s)
    case FireSetFlag => s.(ready := s.thread.batch[0], thread := Notifying(s.thread.now, s.thread.batch))
    case FireNotifyAll => s.(handles := WakeAll(s.handles), thread := Rearming(s.thread.now, s.thread.batch))
    case Rearm => AfterRearm(s)
  }

  ghost predicate IsRun(s: State, es: seq<Event>, t: State)
    decreases |es|
  {
    if |es| == 0 then s == t else Enabled(s, es[0]) && IsRun(Apply(s, es[0]), es[1..], t)
  }

  lemma RunCons(s: State, e: Event, es: seq<Event>, u: State)
    requires Enabled(s, e) && IsRun(Apply(s, e), es, u)
    ensures IsRun(s, [e] + es, u)
  {
    assert ([e] + es)[1..] == es;
  }

  ghost predicate Reaches(s: State, u: State) {
    exists es :: IsRun(s, es, u)
  }

  lemma ReachesAfter(s: State, e: Event, u: State)
    requires Enabled(s, e) && Reaches(Apply(s, e), u)
    ensures Reaches(s, u)
  {
    var es :| IsRun(Apply(s, e), es, u);
    RunCons(s, e, es, u);
  }

  lemma ReachesSelf(s: State)
    ensures Reaches(s, s)
  {
    assert IsRun(s, [], s);
  }

  // ----- one handle -----

  /** No firing before its expiry, at most one in a pass, and each expiry at least the interval
      after the firing before. */
  predicate Spaced(fires: seq<Firing>, interval: int) {
    && (forall i | 0 <= i < |fires| :: fires[i].time >= fires[i].due)
    && (forall i | 0 < i < |fires| ::
          fires[i].due >= fires[i - 1].time + interval && fires[i].pass > fires[i - 1].pass)
  }

  predicate After(h: Handle, time: int) {
    h.fires != [] ==> time >= h.fires[|h.fires| - 1].time + h.interval
  }

  /** The last firing was in a pass before this one. */
  predicate FiredBefore(h: Handle, pass: nat) {
    h.fires != [] ==> h.fires[|h.fires| - 1].pass < pass
  }

  /** The timer may fire in this pass. */
  predicate MayFire(h: Handle, now: int, pass: nat) {
    h.timer.Popped? && After(h, h.timer.expiry) && h.timer.expiry <= now && FiredBefore(h, pass)
  }

  /** What holds of every handle at any time by itself. */
  predicate Sound(h: Handle) {
    && (h.requester.Woken? || h.requester.Returned? ==> !h.status.Waiting?)
    && (h.requester.Returned? ==> h.requester == ReadResult(h))
    && (h.mapped ==> !h.status.Done?)
    && (h.status.Waiting? ==> h.mapped)
    && (h.status.TimedOut? ==> h.fires != [])
    && (h.status.Done? <==> h.response.Some?)
    && h.buffer == (if h.response.Some? then Stored(h.response.value) else [])
    && (h.requester.Created? ==> h.timer.Off?)
    && (h.requester.Refused? ==> !h.timer.Armed? && !h.timer.Popped?)
    && (h.requester.Created? || h.requester.Refused? ==> h.fires == [])
    && (h.requester.ToWait? || h.requester.Blocked? || h.requester.Woken? ==> h.timer.Armed? || h.timer.Popped?)
    && (h.requester.Returned? ==> !h.timer.Off?)
    && Spaced(h.fires, h.interval)
    && (h.timer.Armed? ==> After(h, h.timer.expiry))
    && (h.fires != [] ==> !h.status.Waiting?)
  }

  ghost predicate AllSound(s: State) {
    forall t | t in s.handles :: Sound(s.handles[t])
  }

  // ----- the shared slot -----

  predicate Settled(s: State, t: int) {
    t in s.handles && !s.handles[t].status.Waiting?
  }

  predicate NotifyPending(s: State) {
    s.io.IoNotify? || s.thread.Notifying?
  }

  /** Only tags of settled requests are, or are about to be, in the slot. */
  ghost predicate SlotSettled(s: State) {
    && (s.ready != NO_TAG ==> Settled(s, s.ready))
    && (s.io.IoFlag? ==> Settled(s, s.io.tag))
    && (s.thread.Flagging? ==> Front(s) && Settled(s, s.thread.batch[0]))
  }

  /** A blocked thread whose tag is in the slot is about to be notified. */
  ghost predicate SlotNotified(s: State) {
    && (s.ready in s.handles && s.handles[s.ready].requester.Blocked? ==> NotifyPending(s))
    && NO_TAG !in s.handles
  }

  ghost predicate Slot(s: State) {
    SlotSettled(s) && SlotNotified(s)
  }

  // ----- the timers -----

  function Batch(thread: TimerThread): seq<int> {
    if thread.Sleeping? then [] else thread.batch
  }

  /** The front timer of the batch has fired and is not armed again yet. */
  predicate FrontFired(thread: TimerThread) {
    thread.Flagging? || thread.Notifying? || thread.Rearming?
  }

  /** The timers still to fire in this pass. */
  function ToFire(thread: TimerThread): seq<int> {
    if FrontFired(thread) && thread.batch != [] then thread.batch[1..] else Batch(thread)
  }

  /** The popped timers are the batch, each once. */
  ghost predicate BatchHeld(s: State) {
    var batch := Batch(s.thread);
    && (forall i | 0 <= i < |batch| :: batch[i] in s.handles && s.handles[batch[i]].timer.Popped?)
    && (forall i, j | 0 <= i < j < |batch| :: batch[i] != batch[j])
    && (forall t | t in s.handles && s.handles[t].timer.Popped? :: t in batch)
    && (!s.thread.Sleeping? ==> s.thread.now <= s.clock)
    && (!s.thread.Sleeping? && !s.thread.Collecting? ==> batch != [])
  }

  /** What is still to fire may fire in this pass, and the timer that just did is settled. */
  ghost predicate FireReady(s: State) {
    && (forall i | 0 <= i < |ToFire(s.thread)| ::
          ToFire(s.thread)[i] in s.handles
          && MayFire(s.handles[ToFire(s.thread)[i]], s.thread.now, s.passes))
    && (forall t | t in s.handles ::
          FiredBefore(s.handles[t], if s.thread.Collecting? then s.passes else s.passes + 1))
    && (FrontFired(s.thread) ==>
          Front(s)
          && After(s.handles[s.thread.batch[0]], s.thread.now + s.handles[s.thread.batch[0]].interval)
          && !s.handles[s.thread.batch[0]].status.Waiting?
          && s.handles[s.thread.batch[0]].fires != [])
  }

  ghost predicate Batched(s: State) {
    BatchHeld(s) && FireReady(s)
  }

  /** Every timer that had expired when the pass began is still to be popped or to fire, or its
      request is settled. */
  ghost predicate DueServed(s: State) {
    forall t | t in s.due ::
      || Settled(s, t)
      || (s.thread.Collecting? && t in s.handles && Expired(s.handles[t], s.thread.now))
      || t in ToFire(s.thread)
  }

  /** Where the timer manager holds the timer of a handle. */
  function Spot(timer: Timer): Place {
    match timer
    case Armed(expiry) => Active(expiry)
    case Gone => Absent
    case _ => Inactive
  }

  function SpotOf(s: State, t: int): Place {
    if t in s.handles then Spot(s.handles[t].timer) else Absent
  }

  /** The vector of the timer manager holds exactly the timers of the handles. */
  ghost predicate Linked(s: State) {
    T.Structure(s.timers) && forall t :: PlaceOf(s.timers, t) == SpotOf(s, t)
  }

  /** What holds in every run. */
  ghost predicate Inv(s: State) {
    AllSound(s) && Slot(s) && Batched(s) && Linked(s)
  }

  /** What holds in addition as long as no destruction of a handle disturbs the heap. */
  ghost predicate Timely(s: State) {
    Heap.IsHeap(s.timers.heap) && DueServed(s)
  }

  /** The step is no destruction, or one whose disable keeps every heap. */
  predicate CarefulStep(s: State, e: Event) {
    e.Request? && e.act.Destroy? ==> Careful(s.timers, e.tag)
  }

  ghost predicate CarefulRun(s: State, es: seq<Event>)
    decreases |es|
  {
    |es| == 0
    || (Enabled(s, es[0]) && CarefulStep(s, es[0]) && CarefulRun(Apply(s, es[0]), es[1..]))
  }

  // ----- every step keeps all of it -----

  predicate OfTimerThread(e: Event) {
    e.StartPass? || e.Pop? || e.Collected? || e.FireState? || e.FireSetFlag? || e.FireNotifyAll? || e.Rearm?
  }

  /** What a step of any other thread leaves alone. */
  predicate SameTimers(a: Handle, b: Handle) {
    && a.fires == b.fires && (a.timer.Popped? <==> b.timer.Popped?)
    && (a.timer.Popped? ==> a.timer == b.timer)
    && (a.interval == b.interval || a.timer.Off?)
    && (!a.status.Waiting? ==> !b.status.Waiting?)
    && (a.timer.Armed? ==> b.timer == a.timer || !a.status.Waiting?)
  }

  ghost predicate Quiet(s: State, u: State) {
    && u.thread == s.thread && u.passes == s.passes && u.due == s.due && s.clock <= u.clock
    && (forall t | t in s.handles :: t in u.handles && SameTimers(s.handles[t], u.handles[t]))
    && (forall t | t in u.handles && t !in s.handles :: u.handles[t].timer.Off? && u.handles[t].fires == [])
  }

  lemma ActedTimers(h: Handle, act: Act, mine: bool, clock: int)
    requires Sound(h) && CanAct(h, act)
    ensures SameTimers(h, Acted(h, act, mine, clock))
  {
  }

  lemma OthersAreQuiet(s: State, e: Event)
    requires AllSound(s) && Enabled(s, e) && !OfTimerThread(e)
    ensures Quiet(s, Apply(s, e))
  {
    match e
    case Request(t, act) =>
      assert Sound(s.handles[t]);
      ActedTimers(s.handles[t], act, s.ready == t, s.clock);
    case _ =>
  }

  lemma QuietBatch(s: State, u: State)
    requires BatchHeld(s) && Quiet(s, u)
    ensures BatchHeld(u)
  {
  }

  lemma QuietFire(s: State, u: State)
    requires Batched(s) && Quiet(s, u)
    ensures FireReady(u)
  {
    forall i | 0 <= i < |ToFire(s.thread)|
      ensures ToFire(s.thread)[i] in u.handles
      ensures MayFire(u.handles[ToFire(s.thread)[i]], s.thread.now, s.passes)
    {
      assert MayFire(s.handles[ToFire(s.thread)[i]], s.thread.now, s.passes);
    }
    if FrontFired(s.thread) {
      var t := s.thread.batch[0];
      assert Batch(s.thread)[0] == t && t in s.handles && t in u.handles;
      assert SameTimers(s.handles[t], u.handles[t]);
    }
  }

  lemma QuietDue(s: State, u: State)
    requires DueServed(s) && Quiet(s, u)
    ensures DueServed(u)
  {
  }

  /** The one handle a step changes, if it changes just one. */
  function Target(s: State, e: Event): Option<int> {
    match e
    case Create(t) => Some(t)
    case Request(t, _) => Some(t)
    case Pop => if s.timers.heap != [] then Some(s.timers.heap[0].timer) else None
    case FireState => if Front(s) then Some(s.thread.batch[0]) else None
    case Rearm => if Front(s) then Some(s.thread.batch[0]) else None
    case _ => None
  }

  lemma OnlyTarget(s: State, e: Event)
    requires Enabled(s, e)
    ensures match Target(s, e)
            case Some(t) => t in Apply(s, e).handles
                            && Apply(s, e).handles == s.handles[t := Apply(s, e).handles[t]]
            case None => Apply(s, e).handles == s.handles || Apply(s, e).handles == WakeAll(s.handles)
  {
  }

  /** A handle stays sound: in particular a thread leaves the wait only if its request is
      settled. */
  lemma ActedSound(h: Handle, act: Act, mine: bool, clock: int)
    requires Sound(h) && CanAct(h, act) && (mine ==> !h.status.Waiting?)
    ensures Sound(Acted(h, act, mine, clock))
  {
  }

  lemma RearmedSound(h: Handle, now: int)
    requires Sound(h) && h.timer.Popped? && After(h, now + h.interval)
    ensures Sound(h.(timer := Armed(now + h.interval)))
  {
  }

  lemma TargetSound(s: State, e: Event)
    requires Inv(s) && Enabled(s, e) && Target(s, e).Some?
    ensures Target(s, e).value in Apply(s, e).handles
    ensures Sound(Apply(s, e).handles[Target(s, e).value])
  {
    match e
    case FireState => FiredIsSound(s);
    case Rearm =>
      var t := s.thread.batch[0];
      assert Sound(s.handles[t]) && After(s.handles[t], s.clock + s.handles[t].interval);
      RearmedSound(s.handles[t], s.clock);
    case Request(t, act) =>
      assert Sound(s.handles[t]);
      ActedSound(s.handles[t], act, s.ready == t, s.clock);
    case Pop =>
      FrontIsArmed(s);
      assert Sound(s.handles[s.timers.heap[0].timer]);
    case Create(_) =>
  }

  /** The timer at the front of the heap belongs to a handle, which has it armed. */
  lemma FrontIsArmed(s: State)
    requires Linked(s) && s.timers.heap != []
    ensures var e := s.timers.heap[0]; e.timer in s.handles && s.handles[e.timer].timer == Armed(e.expired)
  {
    var e := s.timers.heap[0];
    assert PlaceOf(s.timers, e.timer) == Active(e.expired);
    assert SpotOf(s, e.timer) == Active(e.expired);
  }

  lemma FiredIsSound(s: State)
    requires Inv(s) && Enabled(s, FireState)
    ensures var h := s.handles[s.thread.batch[0]];
            Sound(Expire(h, Fired(s.passes, s.thread.now, DueAt(h))))
  {
    var h := s.handles[s.thread.batch[0]];
    assert ToFire(s.thread)[0] == s.thread.batch[0];
    assert Sound(h) && MayFire(h, s.thread.now, s.passes);
    ExpireSound(h, Fired(s.passes, s.thread.now, DueAt(h)));
  }

  lemma ExpireSound(h: Handle, f: Firing)
    requires Sound(h) && MayFire(h, f.time, f.pass) && f.due == h.timer.expiry
    ensures Sound(Expire(h, f))
  {
  }

  lemma StepSound(s: State, e: Event)
    requires Inv(s) && Enabled(s, e)
    ensures AllSound(Apply(s, e))
  {
    var u := Apply(s, e);
    OnlyTarget(s, e);
    if Target(s, e).Some? {
      TargetSound(s, e);
    }
    forall t | t in u.handles ensures Sound(u.handles[t]) {
      assert t in s.handles ==> Sound(s.handles[t]);
    }
  }

  lemma StepSlot(s: State, e: Event)
    requires Slot(s) && Enabled(s, e)
    ensures Slot(Apply(s, e))
  {
    StepSettled(s, e);
    StepNotified(s, e);
  }

  lemma StepSettled(s: State, e: Event)
    requires SlotSettled(s) && Enabled(s, e)
    ensures SlotSettled(Apply(s, e))
  {
    if s.ready != NO_TAG {
      SettledStays(s, e, s.ready);
    }
    if s.io.IoFlag? {
      SettledStays(s, e, s.io.tag);
    }
    if s.thread.Flagging? {
      SettledStays(s, e, s.thread.batch[0]);
    }
  }

  lemma SettledStays(s: State, e: Event, t: int)
    requires Enabled(s, e) && Settled(s, t)
    ensures Settled(Apply(s, e), t)
  {
    OnlyTarget(s, e);
    if Target(s, e) == Some(t) && e.Request? {
      assert Acted(s.handles[t], e.act, s.ready == t, s.clock).status != Waiting;
    }
  }

  lemma StepNotified(s: State, e: Event)
    requires SlotNotified(s) && Enabled(s, e)
    ensures SlotNotified(Apply(s, e))
  {
  }

  lemma StepBatched(s: State, e: Event)
    requires Inv(s) && Enabled(s, e)
    ensures Batched(Apply(s, e))
  {
    match e
    case Pop =>
      assert Sound(s.handles[s.timers.heap[0].timer]);
      PopBatch(s);
      PopFire(s);
    case FireState => FireStateKeeps(s);
    case Rearm =>
      RearmBatch(s);
      RearmFire(s);
    case StartPass => StartPassKeeps(s);
    case Collected => CollectedKeeps(s);
    case FireSetFlag => FlagKeeps(s, e);
    case FireNotifyAll => FlagKeeps(s, e);
    case _ =>
      OthersAreQuiet(s, e);
      QuietBatch(s, Apply(s, e));
      QuietFire(s, Apply(s, e));
  }

  lemma StartPassKeeps(s: State)
    requires Batched(s) && Enabled(s, StartPass)
    ensures Batched(Apply(s, StartPass))
  {
  }

  lemma CollectedKeeps(s: State)
    requires Batched(s) && s.thread.Collecting?
    ensures Batched(AfterCollect(s))
  {
    var u := AfterCollect(s);
    assert ToFire(u.thread) == ToFire(s.thread) && Batch(u.thread) == Batch(s.thread) && !FrontFired(u.thread);
    assert BatchHeld(u);
    forall i | 0 <= i < |ToFire(u.thread)|
      ensures ToFire(u.thread)[i] in s.handles
      ensures MayFire(s.handles[ToFire(u.thread)[i]], s.thread.now, s.passes)
    {
      assert MayFire(s.handles[ToFire(s.thread)[i]], s.thread.now, s.passes);
    }
  }

  /** The two notifying steps keep the batch and what is still to fire of it. */
  lemma FlagKeeps(s: State, e: Event)
    requires Batched(s) && Enabled(s, e) && (e.FireSetFlag? || e.FireNotifyAll?)
    ensures Batched(Apply(s, e))
  {
    var u := Apply(s, e);
    var v := u.(thread := s.thread);
    assert Quiet(s, v);
    QuietBatch(s, v);
    QuietFire(s, v);
    assert ToFire(u.thread) == ToFire(v.thread) && Batch(u.thread) == Batch(v.thread);
  }

  lemma PopBatch(s: State)
    requires Batched(s) && Linked(s) && Enabled(s, Pop)
    ensures BatchHeld(AfterPop(s))
  {
    FrontIsArmed(s);
    var u, batch, t := AfterPop(s), s.thread.batch, s.timers.heap[0].timer;
    assert Batch(s.thread) == batch && Batch(u.thread) == batch + [t];
    forall i | 0 <= i < |batch| ensures batch[i] != t && u.handles[batch[i]] == s.handles[batch[i]] {
      assert s.handles[Batch(s.thread)[i]].timer.Popped?;
    }
  }

  lemma PopFire(s: State)
    requires FireReady(s) && Linked(s) && Enabled(s, Pop) && Sound(s.handles[s.timers.heap[0].timer])
    ensures FireReady(AfterPop(s))
  {
    FrontIsArmed(s);
    var u, batch, t := AfterPop(s), s.thread.batch, s.timers.heap[0].timer;
    assert ToFire(u.thread) == batch + [t] && ToFire(s.thread) == batch;
    assert FiredBefore(s.handles[t], s.passes);
    forall i | 0 <= i < |batch + [t]|
      ensures (batch + [t])[i] in u.handles && MayFire(u.handles[(batch + [t])[i]], s.thread.now, s.passes)
    {
      if i < |batch| {
        assert MayFire(s.handles[ToFire(s.thread)[i]], s.thread.now, s.passes);
      }
    }
    forall r | r in u.handles ensures FiredBefore(u.handles[r], s.passes) {
      assert FiredBefore(s.handles[r], s.passes);
    }
  }

  lemma FireStateKeeps(s: State)
    requires Batched(s) && s.thread.Firing? && Front(s)
    ensures Batched(AfterFire(s))
  {
    var u := AfterFire(s);
    var batch := s.thread.batch;
    forall i | 0 <= i < |batch[1..]|
      ensures batch[1..][i] in u.handles && MayFire(u.handles[batch[1..][i]], s.thread.now, s.passes)
    {
      assert ToFire(s.thread)[i + 1] == batch[i + 1];
    }
  }

  lemma RearmBatch(s: State)
    requires Batched(s) && s.thread.Rearming? && Front(s)
    ensures BatchHeld(AfterRearm(s))
  {
    var u, batch, rest := AfterRearm(s), s.thread.batch, s.thread.batch[1..];
    assert Batch(u.thread) == rest;
    forall i | 0 <= i < |rest| ensures rest[i] in u.handles && u.handles[rest[i]] == s.handles[rest[i]] {
      assert rest[i] == batch[i + 1];
    }
    forall t | t in u.handles && u.handles[t].timer.Popped? ensures t in rest {
      assert t in batch && t != batch[0];
    }
  }

  lemma RearmFire(s: State)
    requires Batched(s) && s.thread.Rearming? && Front(s)
    ensures FireReady(AfterRearm(s))
  {
    var u, batch, rest := AfterRearm(s), s.thread.batch, s.thread.batch[1..];
    assert ToFire(u.thread) == rest == ToFire(s.thread);
    forall i | 0 <= i < |rest|
      ensures rest[i] in u.handles && MayFire(u.handles[rest[i]], s.thread.now, s.passes)
    {
      assert rest[i] == batch[i + 1] && MayFire(s.handles[ToFire(s.thread)[i]], s.thread.now, s.passes);
    }
    forall t | t in u.handles ensures FiredBefore(u.handles[t], s.passes + 1) {
      assert FiredBefore(s.handles[t], s.passes + 1);
    }
  }

  // ----- the vector of the timer manager -----

  function ActOp(t: int, act: Act, clock: int): Option<Op> {
    match act
    case StartWait(timeout) => Some(EnableOp(t, clock + timeout))
    case Destroy => Some(DisableOp(t))
    case Erase => Some(RemoveOp(t))
    case _ => None
  }

  /** The operation on the vector that a step performs. */
  function OpOf(s: State, e: Event): Option<Op> {
    match e
    case Create(t) => Some(AddOp(t))
    case Request(t, act) => ActOp(t, act, s.clock)
    case Pop => if s.timers.heap == [] then None else Some(DisableOp(s.timers.heap[0].timer))
    case Rearm =>
      if Front(s) then Some(EnableOp(s.thread.batch[0], s.clock + s.handles[s.thread.batch[0]].interval)) else None
    case _ => None
  }

  function OpDone(timers: T.State, op: Option<Op>): T.State {
    if op.None? then timers else Do(AsWritten, timers, op.value)
  }

  function OpPlaced(op: Option<Op>, t: int, p: Place): Place {
    if op.None? then p else Placed(op.value, t, p)
  }

  /** With the timer inactive the second section of `remove_timer` does what both do. */
  lemma EraseIsRemove(timers: T.State, t: int)
    requires PlaceOf(timers, t).Inactive?
    ensures T.Erase(timers, t) == Do(AsWritten, timers, RemoveOp(t))
  {
  }

  lemma PopIsDisable(timers: T.State)
    requires timers.heap != []
    ensures T.PopAt(timers, 0) == Do(AsWritten, timers, DisableOp(timers.heap[0].timer))
    ensures CarefulOp(timers, DisableOp(timers.heap[0].timer))
  {
  }

  lemma RequestOp(timers: T.State, t: int, act: Act, clock: int)
    requires act.Erase? ==> PlaceOf(timers, t).Inactive?
    ensures Scheduled(timers, t, act, clock) == OpDone(timers, ActOp(t, act, clock))
  {
    if act.Erase? {
      EraseIsRemove(timers, t);
    }
  }

  lemma StepOp(s: State, e: Event)
    requires Enabled(s, e) && (e.Request? && e.act.Erase? ==> PlaceOf(s.timers, e.tag).Inactive?)
    ensures Apply(s, e).timers == OpDone(s.timers, OpOf(s, e))
  {
    match e
    case Request(t, act) => RequestOp(s.timers, t, act, s.clock);
    case Pop => PopIsDisable(s.timers);
    case Create(t) => assert T.Add(s.timers, t) == Do(AsWritten, s.timers, AddOp(t));
    case Rearm => RearmOp(s);
    case _ =>
  }

  lemma RearmOp(s: State)
    requires Enabled(s, Rearm)
    ensures AfterRearm(s).timers == OpDone(s.timers, OpOf(s, Rearm))
  {
  }

  lemma Erasable(s: State, e: Event)
    requires Linked(s) && Enabled(s, e) && e.Request? && e.act.Erase?
    ensures PlaceOf(s.timers, e.tag).Inactive?
  {
    assert PlaceOf(s.timers, e.tag) == SpotOf(s, e.tag);
  }

  lemma ActedSpot(h: Handle, t: int, act: Act, mine: bool, clock: int)
    requires Sound(h) && CanAct(h, act)
    ensures Spot(Acted(h, act, mine, clock).timer) == OpPlaced(ActOp(t, act, clock), t, Spot(h.timer))
  {
  }

  lemma RequestSpots(s: State, t: int, act: Act, r: int)
    requires Enabled(s, Request(t, act)) && Sound(s.handles[t])
    ensures SpotOf(AfterRequest(s, t, act), r) == OpPlaced(OpOf(s, Request(t, act)), r, SpotOf(s, r))
  {
    ActedSpot(s.handles[t], t, act, s.ready == t, s.clock);
  }

  lemma RearmSpots(s: State, r: int)
    requires BatchHeld(s) && Enabled(s, Rearm)
    ensures SpotOf(AfterRearm(s), r) == OpPlaced(OpOf(s, Rearm), r, SpotOf(s, r))
  {
    assert s.handles[Batch(s.thread)[0]].timer.Popped?;
  }

  lemma WokenSpots(s: State, u: State, r: int)
    requires u.handles == WakeAll(s.handles)
    ensures SpotOf(u, r) == SpotOf(s, r)
  {
  }

  lemma PopSpots(s: State, r: int)
    requires Linked(s) && Enabled(s, Pop)
    ensures SpotOf(AfterPop(s), r) == OpPlaced(OpOf(s, Pop), r, SpotOf(s, r))
  {
    FrontIsArmed(s);
  }

  lemma StepSpots(s: State, e: Event, r: int)
    requires AllSound(s) && BatchHeld(s) && Linked(s) && Enabled(s, e)
    ensures SpotOf(Apply(s, e), r) == OpPlaced(OpOf(s, e), r, SpotOf(s, r))
  {
    match e
    case Request(t, act) =>
      assert Sound(s.handles[t]);
      RequestSpots(s, t, act, r);
    case Pop => PopSpots(s, r);
    case Rearm => RearmSpots(s, r);
    case FireNotifyAll => WokenSpots(s, Apply(s, e), r);
    case IoNotifyAll => WokenSpots(s, Apply(s, e), r);
    case _ =>
  }

  lemma OpLinked(s: State, u: State, op: Option<Op>)
    requires Linked(s) && (op.Some? ==> !op.value.DrainOp?) && u.timers == OpDone(s.timers, op)
    requires forall t :: SpotOf(u, t) == OpPlaced(op, t, SpotOf(s, t))
    ensures Linked(u)
  {
    if op.Some? {
      DoStructure(AsWritten, s.timers, op.value);
    }
    forall t ensures PlaceOf(u.timers, t) == SpotOf(u, t) {
      assert PlaceOf(s.timers, t) == SpotOf(s, t);
      if op.Some? {
        DoPlaces(AsWritten, s.timers, op.value, t);
      }
    }
  }

  /** The vector keeps up with the handles: every timer is where its handle says it is. */
  lemma StepLinked(s: State, e: Event)
    requires Inv(s) && Enabled(s, e)
    ensures Linked(Apply(s, e))
  {
    if e.Request? && e.act.Erase? {
      Erasable(s, e);
    }
    StepOp(s, e);
    forall t ensures SpotOf(Apply(s, e), t) == OpPlaced(OpOf(s, e), t, SpotOf(s, t)) {
      StepSpots(s, e, t);
    }
    OpLinked(s, Apply(s, e), OpOf(s, e));
  }

  lemma StepInv(s: State, e: Event)
    requires Inv(s) && Enabled(s, e)
    ensures Inv(Apply(s, e))
  {
    StepSound(s, e);
    StepSlot(s, e);
    StepBatched(s, e);
    StepLinked(s, e);
  }

  // ----- passes while the heap is one -----

  lemma StepHeap(s: State, e: Event)
    requires Linked(s) && Enabled(s, e) && Heap.IsHeap(s.timers.heap) && CarefulStep(s, e)
    ensures Heap.IsHeap(Apply(s, e).timers.heap)
  {
    if e.Request? && e.act.Erase? {
      Erasable(s, e);
    }
    StepOp(s, e);
    if OpOf(s, e).Some? {
      StepCareful(s, e);
      DoHeap(AsWritten, s.timers, OpOf(s, e).value);
    }
  }

  lemma StepCareful(s: State, e: Event)
    requires Linked(s) && Enabled(s, e) && CarefulStep(s, e) && OpOf(s, e).Some?
    ensures CarefulOp(s.timers, OpOf(s, e).value)
  {
    match e
    case Request(t, Erase) => Erasable(s, e);
    case Pop => PopIsDisable(s.timers);
    case _ =>
  }

  /** In a heap, a front that is not due means that nothing is. */
  lemma NothingDue(s: State, t: int)
    requires Linked(s) && Heap.IsHeap(s.timers.heap) && s.thread.Collecting? && !FrontDue(s) && t in s.handles
    ensures !Expired(s.handles[t], s.thread.now)
  {
    if s.handles[t].timer.Armed? {
      assert PlaceOf(s.timers, t) == SpotOf(s, t);
      PlaceIsAt(s.timers, t, SpotOf(s, t));
      T.FrontBounds(s.timers.heap);
    }
  }

  lemma CollectedDue(s: State)
    requires DueServed(s) && s.thread.Collecting?
    requires forall t | t in s.handles :: !Expired(s.handles[t], s.thread.now)
    ensures DueServed(AfterCollect(s))
  {
    assert ToFire(AfterCollect(s).thread) == ToFire(s.thread);
  }

  lemma PopDue(s: State)
    requires DueServed(s) && Enabled(s, Pop)
    ensures DueServed(AfterPop(s))
  {
    var u, batch, t := AfterPop(s), s.thread.batch, s.timers.heap[0].timer;
    forall r | r in u.due && !Settled(u, r) ensures
      (r in u.handles && Expired(u.handles[r], s.thread.now)) || r in batch + [t]
    {
      assert !Settled(s, r);
    }
  }

  lemma FireDue(s: State)
    requires DueServed(s) && s.thread.Firing? && Front(s)
    ensures DueServed(AfterFire(s))
  {
    var u, batch := AfterFire(s), s.thread.batch;
    forall r | r in u.due && !Settled(u, r) ensures r in batch[1..] {
      assert !Settled(s, r) && r in batch;
    }
  }

  lemma RearmDue(s: State)
    requires DueServed(s) && s.thread.Rearming? && Front(s)
    ensures DueServed(AfterRearm(s))
  {
    var u := AfterRearm(s);
    assert ToFire(u.thread) == ToFire(s.thread);
    forall t | t in u.due ensures Settled(u, t) || t in ToFire(u.thread) {
      assert Settled(s, t) || t in ToFire(s.thread);
    }
  }

  lemma FlagDue(s: State, e: Event)
    requires DueServed(s) && Enabled(s, e) && (e.FireSetFlag? || e.FireNotifyAll?)
    ensures DueServed(Apply(s, e))
  {
    var u := Apply(s, e);
    assert ToFire(u.thread) == ToFire(s.thread);
    forall t | t in u.due ensures Settled(u, t) || t in ToFire(u.thread) {
      assert Settled(s, t) || t in ToFire(s.thread);
    }
  }

  lemma StepTimely(s: State, e: Event)
    requires Inv(s) && Timely(s) && Enabled(s, e) && CarefulStep(s, e)
    ensures Timely(Apply(s, e))
  {
    StepHeap(s, e);
    match e
    case StartPass =>
    case Pop => PopDue(s);
    case Collected =>
      forall t | t in s.handles ensures !Expired(s.handles[t], s.thread.now) {
        NothingDue(s, t);
      }
      CollectedDue(s);
    case FireState => FireDue(s);
    case Rearm => RearmDue(s);
    case FireSetFlag => FlagDue(s, e);
    case FireNotifyAll => FlagDue(s, e);
    case _ =>
      OthersAreQuiet(s, e);
      QuietDue(s, Apply(s, e));
  }

  lemma {:induction false} RunInv(s: State, es: seq<Event>, u: State)
    requires Inv(s) && IsRun(s, es, u)
    ensures Inv(u)
    ensures Timely(s) && CarefulRun(s, es) ==> Timely(u)
    decreases |es|
  {
    if |es| != 0 {
      StepInv(s, es[0]);
      if Timely(s) && CarefulStep(s, es[0]) {
        StepTimely(s, es[0]);
      }
      RunInv(Apply(s, es[0]), es[1..], u);
    }
  }

  lemma InitInv()
    ensures Inv(INIT) && Timely(INIT)
  {
  }

  // ----- what the requests can rely on -----

  /** No early wake, no stranded requester, and no firing too soon, in every reachable state:
      a tag in the slot belongs to a settled request, so a thread that has left `wait` finds
      its request settled; from the start of its wait until the handle is destroyed its timer is
      active in the vector of the timer manager, or popped and about to fire; and a timer fires
      at most once in a pass, never before its expiry, and never sooner than its interval after
      the firing before. */
  lemma WaitingOverRuns(es: seq<Event>, s: State)
    requires IsRun(INIT, es, s)
    ensures s.ready != NO_TAG ==> Settled(s, s.ready)
    ensures forall t | t in s.handles ::
              var h := s.handles[t];
              && (h.requester.Woken? || h.requester.Returned? ==> !h.status.Waiting?)
              && (!h.requester.Created? && !h.requester.Refused? && !h.timer.Disabled? && !h.timer.Gone? ==>
                    (h.timer.Armed? && PlaceOf(s.timers, t) == Active(h.timer.expiry))
                    || (h.timer.Popped? && t in Batch(s.thread)))
              && Spaced(h.fires, h.interval)
  {
    InitInv();
    RunInv(INIT, es, s);
    forall t | t in s.handles ensures Sound(s.handles[t]) && PlaceOf(s.timers, t) == SpotOf(s, t) {
    }
  }

  /** As long as every destroyed handle has its timer in a safe slot, a pass that is over has
      settled every request whose timer had expired when it began. */
  lemma PassesOverRuns(es: seq<Event>, s: State)
    requires IsRun(INIT, es, s) && CarefulRun(INIT, es)
    ensures s.thread.Sleeping? ==> forall t | t in s.due :: Settled(s, t)
  {
    InitInv();
    RunInv(INIT, es, s);
  }

  /** A firing releases its requester, even if other tags overwrote every earlier notification:
      once the timer thread has set the slot and notified, the requester can leave `wait`. */
  lemma FiringReleases(s: State, t: int) returns (u: State)
    requires Inv(s) && Enabled(s, FireSetFlag) && s.thread.batch[0] == t
    requires s.handles[t].requester.Blocked? || s.handles[t].requester.ToWait?
    ensures IsRun(s, [FireSetFlag] + [FireNotifyAll, Request(t, Check), Request(t, Return)], u)
    ensures t in u.handles && u.handles[t].requester == ReadResult(s.handles[t])
    ensures !u.handles[t].status.Waiting?
  {
    var s1 := Apply(s, FireSetFlag);
    var s2 := Apply(s1, FireNotifyAll);
    var s3 := Apply(s2, Request(t, Check));
    u := Apply(s3, Request(t, Return));
    RunCons(s3, Request(t, Return), [], u);
    assert [Request(t, Return)] + [] == [Request(t, Return)];
    RunCons(s2, Request(t, Check), [Request(t, Return)], u);
    assert [Request(t, Check)] + [Request(t, Return)] == [Request(t, Check), Request(t, Return)];
    RunCons(s1, FireNotifyAll, [Request(t, Check), Request(t, Return)], u);
    assert [FireNotifyAll] + [Request(t, Check), Request(t, Return)] == [FireNotifyAll, Request(t, Check), Request(t, Return)];
    RunCons(s, FireSetFlag, [FireNotifyAll, Request(t, Check), Request(t, Return)], u);
  }

  /** The outcome of a settled request stays, a handle out of the tag map stays out and is not
      written again, and a thread that has returned keeps what it got. */
  predicate Fixed(h: Handle, k: Handle) {
    && (!h.status.Waiting? ==>
          k.status == h.status && k.buffer == h.buffer && k.response == h.response)
    && (!h.mapped ==> !k.mapped && k.response == h.response)
    && (h.requester.Returned? ==> k.requester == h.requester)
  }

  lemma ActedFixed(h: Handle, act: Act, mine: bool, clock: int)
    requires Sound(h) && CanAct(h, act)
    ensures Fixed(h, Acted(h, act, mine, clock))
  {
  }

  lemma UnblockedFixed(s: State, u: State, t: int)
    requires t in s.handles && (u.handles == s.handles || u.handles == WakeAll(s.handles))
    ensures t in u.handles && Fixed(s.handles[t], u.handles[t])
  {
  }

  /** Response and timeout race, but whichever comes first decides: no step changes the
      outcome of a settled request. */
  lemma OutcomeFixed(s: State, e: Event, t: int)
    requires AllSound(s) && Enabled(s, e) && t in s.handles
    ensures t in Apply(s, e).handles && Fixed(s.handles[t], Apply(s, e).handles[t])
  {
    OnlyTarget(s, e);
    match e
    case Request(r, act) =>
      assert Sound(s.handles[r]);
      ActedFixed(s.handles[r], act, s.ready == r, s.clock);
    case Create(_) =>
    case Pop =>
    case FireState =>
    case Rearm =>
    case _ => UnblockedFixed(s, Apply(s, e), t);
  }

  lemma {:induction false} OutcomeOverRuns(s: State, es: seq<Event>, u: State, t: int)
    requires Inv(s) && IsRun(s, es, u) && t in s.handles
    ensures t in u.handles && Fixed(s.handles[t], u.handles[t])
    decreases |es|
  {
    if |es| != 0 {
      StepInv(s, es[0]);
      OutcomeFixed(s, es[0], t);
      OutcomeOverRuns(Apply(s, es[0]), es[1..], u, t);
    }
  }

  /** What a returned request holds. A response reaches the caller exactly if it has at most
      2047 bytes: one of 2048 is reported but not copied, a longer one is reported as empty,
      which `send_request` takes for a timeout. */
  lemma ReadExact(s: State, t: int)
    requires Inv(s) && t in s.handles && s.handles[t].requester.Returned?
    ensures var h := s.handles[t];
            match h.response
            case None => h.status.TimedOut? && h.requester == Returned(0, None)
            case Some(r) =>
              && (h.requester == Returned(|r|, Some(r)) <==> |r| < CAPACITY)
              && (h.requester == Returned(|r|, None) <==> |r| == CAPACITY)
              && (h.requester == Returned(0, Some([])) <==> |r| > CAPACITY || |r| == 0)
  {
    assert Sound(s.handles[t]);
  }
}
