/** An awaited request can get its answer: from every reachable state before a shutdown the threads,
    the pipes and the pool can by themselves bring its own answer back to it. */
module Completion {
  import opened Wrappers
  import opened Frames
  import P = Pipe
  import W = ThreadPool
  import D = Draining
  import C = Rendezvous
  import opened EndToEnd
  import opened Tracking

  /** Frames fit the caches, and the pool has workers and is not shut down. */
  ghost predicate Working(s: State, sv: Service, l: P.Limits) {
    && Inv(s, sv, l) && Tracked(s, sv) && WellBehaved(sv, l) && l.Roomy() && l.maxFrame <= l.sendCapacity
    && !s.pool.exit && |s.pool.workers| > 0 && |s.pool.actors| > 0
  }

  ghost predicate Live(s: State, sv: Service, l: P.Limits, t: int) {
    Working(s, sv, l) && Awaited(s, sv, t)
  }

  /** The request has returned with its own answer. */
  predicate Completed(s: State, sv: Service, t: int) {
    && t in s.requests && Registered(sv, s.requests[t]) && t in s.client.handles
    && var a := Answer(sv, s.requests[t]);
       s.client.handles[t].requester == C.Returned(|a|, Some(a))
  }

  /** The answer fits the buffer of a handle with a byte to spare. */
  predicate Short(s: State, sv: Service, t: int) {
    t in s.requests && Registered(sv, s.requests[t]) && |Answer(sv, s.requests[t])| < C.CAPACITY
  }

  /** Every run from `u` is one from `s` continued. */
  ghost predicate Continues(s: State, sv: Service, l: P.Limits, u: State) {
    forall z | Leads(u, sv, l, z) :: Leads(s, sv, l, z)
  }

  lemma ContinuesAfter(s: State, sv: Service, l: P.Limits, e: Event, u: State)
    requires Enabled(s, sv, l, e) && CleanStep(s, e) && Continues(Apply(s, sv, l, e), sv, l, u)
    ensures Continues(s, sv, l, u)
  {
    forall z | Leads(u, sv, l, z) ensures Leads(s, sv, l, z) {
      LeadsAfter(s, sv, l, e, z);
    }
  }

  /** A step that leaves the client alone, or only notifies. */
  ghost predicate Gentle(s: State, sv: Service, l: P.Limits, e: Event) {
    && Enabled(s, sv, l, e) && CleanStep(s, e)
    && match e
       case ToServerStep(_) => true
       case ToClientStep(_) => true
       case HandleRequest => true
       case PoolStep(we) => we.Work? || we.Push? || we.Flag? || we.Notify?
       case Execute(_, write) => Reported(write)
       case ClientStep(ce) => ce.IoSetFlag? || ce.IoNotifyAll?
       case _ => false
  }

  lemma GentleClient(s: State, sv: Service, l: P.Limits, e: Event, t: int)
    requires Gentle(s, sv, l, e) && t in s.client.handles
    ensures var u := Apply(s, sv, l, e);
            t in u.client.handles && u.client.handles[t].status == s.client.handles[t].status
            && u.requests == s.requests && u.sent == s.sent
  {
    match e
    case ClientStep(ce) => C.OnlyTarget(s.client, ce);
    case _ =>
  }

  lemma GentlePool(s: State, sv: Service, l: P.Limits, e: Event)
    requires Gentle(s, sv, l, e) && !s.pool.exit
    ensures var u := Apply(s, sv, l, e);
            && u.lost == s.lost && !u.pool.exit && u.pool.cleared == s.pool.cleared
            && |u.pool.workers| == |s.pool.workers| && |u.pool.actors| == |s.pool.actors|
            && s.pool.appended <= u.pool.appended
  {
  }

  lemma NotCleared(p: W.State<Package>, q: W.State<Package>, sv: Service, t: int)
    requires W.Inv(p) && p.appended <= q.appended && q.cleared == p.cleared && Cleared(q, sv, t)
    ensures Cleared(p, sv, t)
  {
    var i: nat :| i < |q.appended| && sv.tag(q.appended[i]) == t && i in q.cleared;
    assert i < |p.appended| && p.appended[i] == q.appended[i];
  }

  lemma GentleLive(s: State, sv: Service, l: P.Limits, e: Event, t: int)
    requires Live(s, sv, l, t) && Gentle(s, sv, l, e)
    ensures Live(Apply(s, sv, l, e), sv, l, t)
  {
    var u := Apply(s, sv, l, e);
    StepAll(s, sv, l, e);
    GentleClient(s, sv, l, e, t);
    GentlePool(s, sv, l, e);
    if Cleared(u.pool, sv, t) {
      NotCleared(s.pool, u.pool, sv, t);
    }
  }

  lemma ContinuesTrans(s: State, sv: Service, l: P.Limits, u: State, v: State)
    requires Continues(s, sv, l, u) && Continues(u, sv, l, v)
    ensures Continues(s, sv, l, v)
  {
  }

  /** One such step. */
  lemma Go(s: State, sv: Service, l: P.Limits, e: Event, t: int) returns (u: State)
    requires Live(s, sv, l, t) && Gentle(s, sv, l, e)
    ensures u == Apply(s, sv, l, e) && Live(u, sv, l, t) && Continues(s, sv, l, u)
  {
    u := Apply(s, sv, l, e);
    GentleLive(s, sv, l, e, t);
    ContinuesAfter(s, sv, l, e, u);
  }

  // ----- the client's socket thread -----

  lemma Notification(s: State, sv: Service, l: P.Limits, ce: C.Event)
    requires C.Enabled(s.client, ce) && (ce.IoSetFlag? || ce.IoNotifyAll?)
    ensures Gentle(s, sv, l, ClientStep(ce))
    ensures Apply(s, sv, l, ClientStep(ce)) == s.(client := C.Apply(s.client, ce))
    ensures if ce.IoSetFlag? then C.Apply(s.client, ce).io.IoNotify? else C.Apply(s.client, ce).io.IoIdle?
  {
  }

  lemma SetFlag(s: State, sv: Service, l: P.Limits, t: int) returns (u: State)
    requires Live(s, sv, l, t) && s.client.io.IoFlag?
    ensures Live(u, sv, l, t) && Continues(s, sv, l, u) && u == s.(client := u.client) && u.client.io.IoNotify?
  {
    Notification(s, sv, l, C.IoSetFlag);
    u := Go(s, sv, l, ClientStep(C.IoSetFlag), t);
  }

  lemma NotifyAll(s: State, sv: Service, l: P.Limits, t: int) returns (u: State)
    requires Live(s, sv, l, t) && s.client.io.IoNotify?
    ensures Live(u, sv, l, t) && Continues(s, sv, l, u) && u == s.(client := u.client) && u.client.io.IoIdle?
  {
    Notification(s, sv, l, C.IoNotifyAll);
    u := Go(s, sv, l, ClientStep(C.IoNotifyAll), t);
  }

  /** The socket thread of the client finishes its notification. */
  lemma SettleIo(s: State, sv: Service, l: P.Limits, t: int) returns (u: State)
    requires Live(s, sv, l, t)
    ensures Live(u, sv, l, t) && Continues(s, sv, l, u) && u == s.(client := u.client) && u.client.io.IoIdle?
  {
    match s.client.io
    case IoIdle => u := s;
    case IoNotify => u := NotifyAll(s, sv, l, t);
    case IoFlag(_) =>
      var v := SetFlag(s, sv, l, t);
      u := NotifyAll(v, sv, l, t);
      ContinuesTrans(s, sv, l, v, u);
  }

  lemma ClientGo(s: State, sv: Service, l: P.Limits, ce: C.Event, u: State)
    requires Waits(s, ce) && C.Enabled(s.client, ce) && u == s.(client := C.Apply(s.client, ce))
    ensures Continues(s, sv, l, u)
  {
    ContinuesAfter(s, sv, l, ClientStep(ce), u);
  }

  /** The answer is in the handle, and its notification about to begin. */
  predicate Arrived(s: State, sv: Service, t: int) {
    && t in s.requests && Registered(sv, s.requests[t]) && t in s.sent && t in s.client.handles
    && var h := s.client.handles[t];
       && h.status.Done? && h.buffer == Answer(sv, s.requests[t]) && |h.buffer| < C.CAPACITY
       && (h.requester.Created? || h.requester.ToWait? || h.requester.Blocked?)
  }

  lemma Announce(s: State, sv: Service, l: P.Limits, t: int) returns (u: State)
    requires Arrived(s, sv, t) && s.client.io == C.IoFlag(t)
    ensures Continues(s, sv, l, u) && Arrived(u, sv, t) && u.client.ready == t && u.requests == s.requests
    ensures !u.client.handles[t].requester.Blocked?
  {
    var v := s.(client := C.Apply(s.client, C.IoSetFlag));
    ClientGo(s, sv, l, C.IoSetFlag, v);
    u := v.(client := C.Apply(v.client, C.IoNotifyAll));
    ClientGo(v, sv, l, C.IoNotifyAll, u);
    ContinuesTrans(s, sv, l, v, u);
  }

  lemma BeginWait(s: State, sv: Service, l: P.Limits, t: int) returns (u: State)
    requires Arrived(s, sv, t) && s.client.ready == t && !s.client.handles[t].requester.Blocked?
    ensures Continues(s, sv, l, u) && Arrived(u, sv, t) && u.client.ready == t && u.requests == s.requests
    ensures u.client.handles[t].requester.ToWait?
  {
    u := s;
    if s.client.handles[t].requester.Created? {
      u := s.(client := C.Apply(s.client, C.Request(t, C.StartWait(0))));
      ClientGo(s, sv, l, C.Request(t, C.StartWait(0)), u);
    }
  }

  lemma ReturnNow(s: State, sv: Service, l: P.Limits, t: int) returns (u: State)
    requires Arrived(s, sv, t) && s.client.ready == t && s.client.handles[t].requester.ToWait?
    ensures Continues(s, sv, l, u) && Completed(u, sv, t) && u.requests == s.requests
  {
    var v := s.(client := C.Apply(s.client, C.Request(t, C.Check)));
    ClientGo(s, sv, l, C.Request(t, C.Check), v);
    u := v.(client := C.Apply(v.client, C.Request(t, C.Return)));
    ClientGo(v, sv, l, C.Request(t, C.Return), u);
    ContinuesTrans(s, sv, l, v, u);
  }

  /** Announced and waited for, the answer reaches the requester. */
  lemma Finish(s: State, sv: Service, l: P.Limits, t: int) returns (u: State)
    requires Arrived(s, sv, t) && s.client.io == C.IoFlag(t)
    ensures Continues(s, sv, l, u) && Completed(u, sv, t) && u.requests == s.requests
  {
    var a := Announce(s, sv, l, t);
    var b := BeginWait(a, sv, l, t);
    u := ReturnNow(b, sv, l, t);
    ContinuesTrans(s, sv, l, a, b);
    ContinuesTrans(s, sv, l, b, u);
  }

  // ----- the way back -----

  /** Everything the pipe accepted is delivered. */
  predicate Emptied(p: P.State) {
    p.delivered == p.accepted && p.sendCache == [] && p.wire == [] && p.recvCache == []
  }

  lemma PipeEmptied(p: P.State, l: P.Limits)
    requires P.Inv(p, l) && P.NextMove(p).None?
    ensures Emptied(p)
  {
    P.NothingLeft(p, l, p.accepted, []);
  }

  lemma PipeMoves(p: P.State, l: P.Limits)
    requires P.Inv(p, l) && l.Roomy() && P.NextMove(p).Some?
    ensures P.Enabled(p, l, P.NextMove(p).value) && P.Moves(P.NextMove(p).value)
    ensures P.Nearer(P.Apply(p, l, P.NextMove(p).value), p)
  {
    P.MoveEnabled(p, l, p.accepted, []);
  }

  /** The front package on the way back. */
  predicate Front(s: State, sv: Service, l: P.Limits, t: int) {
    s.client.io.IoIdle? && P.Enabled(s.toClient, l, P.Deliver) && sv.tag(Incoming(s.toClient)) == t
  }

  lemma OtherHandled(s: State, sv: Service, l: P.Limits, r: int, t: int)
    requires P.Inv(s.toClient, l) && Front(s, sv, l, r) && r != t && t in s.client.handles
    ensures var u := AfterResponse(s, sv, l);
            && u == s.(client := u.client, toClient := P.Apply(s.toClient, l, P.Deliver))
            && t in u.client.handles && u.client.handles[t] == s.client.handles[t]
  {
  }

  /** The response of another request, or one that nobody waits for. */
  lemma OtherResponse(s: State, sv: Service, l: P.Limits, r: int, t: int) returns (u: State)
    requires Front(s, sv, l, r) && r != t && Live(s, sv, l, t)
    ensures u == s.(client := u.client, toClient := P.Apply(s.toClient, l, P.Deliver))
    ensures Live(u, sv, l, t) && Continues(s, sv, l, u)
  {
    u := AfterResponse(s, sv, l);
    OtherHandled(s, sv, l, r, t);
    StepAll(s, sv, l, HandleResponse);
    ContinuesAfter(s, sv, l, HandleResponse, u);
  }

  lemma AnswerHandled(s: State, sv: Service, l: P.Limits, t: int)
    requires P.Inv(s.toClient, l) && Correlated(s, sv) && C.Inv(s.client) && Front(s, sv, l, t)
    requires Awaited(s, sv, t) && !s.client.handles[t].requester.Refused?
    requires |Answer(sv, s.requests[t])| < C.CAPACITY
    ensures Arrived(AfterResponse(s, sv, l), sv, t) && AfterResponse(s, sv, l).client.io == C.IoFlag(t)
  {
    DeliverOnly(s.toClient, l);
    ResponseHandled(s, sv, l);
    assert EndToEnd.Answered(s, sv, Incoming(s.toClient));
    assert C.Sound(s.client.handles[t]);
  }

  lemma AnswerArrives(s: State, sv: Service, l: P.Limits, t: int) returns (u: State)
    requires Front(s, sv, l, t) && Short(s, sv, t) && Live(s, sv, l, t)
    ensures Arrived(u, sv, t) && u.client.io == C.IoFlag(t) && Continues(s, sv, l, u) && u.requests == s.requests
  {
    u := AfterResponse(s, sv, l);
    AnswerHandled(s, sv, l, t);
    ContinuesAfter(s, sv, l, HandleResponse, u);
  }

  /** The client takes in responses until none is left, or the awaited answer comes. */
  lemma {:induction false} DrainClient(s: State, sv: Service, l: P.Limits, t: int) returns (u: State)
    requires Short(s, sv, t) && Live(s, sv, l, t)
    ensures Continues(s, sv, l, u) && u.requests == s.requests
    ensures Completed(u, sv, t)
            || (Live(u, sv, l, t) && Emptied(u.toClient) && u == s.(client := u.client, toClient := u.toClient))
    decreases |P.Unsent(s.toClient)|, P.SenderRank(s.toClient.sender), |s.toClient.wire|, s.toClient.draining,
              |s.toClient.recvCache|
  {
    if P.NextMove(s.toClient).None? {
      PipeEmptied(s.toClient, l);
      u := s;
    } else {
      PipeMoves(s.toClient, l);
      var e := P.NextMove(s.toClient).value;
      if !e.Deliver? {
        var v := Go(s, sv, l, ToClientStep(e), t);
        u := DrainClient(v, sv, l, t);
        ContinuesTrans(s, sv, l, v, u);
      } else {
        var v := SettleIo(s, sv, l, t);
        var r := sv.tag(Incoming(s.toClient));
        if r == t {
          var w := AnswerArrives(v, sv, l, t);
          u := Finish(w, sv, l, t);
          ContinuesTrans(s, sv, l, v, w);
          ContinuesTrans(s, sv, l, w, u);
        } else {
          var w := OtherResponse(v, sv, l, r, t);
          u := DrainClient(w, sv, l, t);
          ContinuesTrans(s, sv, l, v, w);
          ContinuesTrans(s, sv, l, w, u);
        }
      }
    }
  }

  // ----- the pool -----

  predicate Resting(pool: W.State<Package>) {
    |pool.queue| == 0 && forall w | 0 <= w < |pool.workers| :: W.Load(pool.workers[w]) == 0
  }

  predicate NoneChecked(pool: W.State<Package>) {
    |pool.actors| > 0 && !pool.actors[0].Checked?
  }

  lemma StillNoneChecked(p: W.State<Package>, e: W.Event<Package>)
    requires W.Enabled(p, e) && !e.Append? && NoneChecked(p)
    ensures NoneChecked(W.Apply(p, e))
  {
  }

  lemma CanRespond(s: State, sv: Service, l: P.Limits, w: nat) returns (a: Package)
    requires Working(s, sv, l) && s.toClient.sendCache == [] && W.Enabled(s.pool, W.Work(w, W.Finish))
    ensures Gentle(s, sv, l, Execute(w, P.Submit(a)))
  {
    W.FinishedOnce(s.pool, w);
    var p := s.pool.appended[s.pool.workers[w].i];
    AnswerIsAnswered(s, sv, l, p);
    a := Answer(sv, p);
  }

  lemma Executed(s: State, sv: Service, l: P.Limits, w: nat, a: Package)
    requires Gentle(s, sv, l, Execute(w, P.Submit(a)))
    ensures var u := Apply(s, sv, l, Execute(w, P.Submit(a)));
            && u.pool == W.Apply(s.pool, W.Work(w, W.Finish))
            && u.toServer == s.toServer && u.requests == s.requests
  {
  }

  /** A worker finishes its task and writes the answer into the empty send cache. */
  lemma Respond(s: State, sv: Service, l: P.Limits, t: int, w: nat) returns (u: State)
    requires s.toClient.sendCache == [] && W.Enabled(s.pool, W.Work(w, W.Finish)) && Live(s, sv, l, t)
    ensures Live(u, sv, l, t) && Continues(s, sv, l, u)
    ensures u.pool == W.Apply(s.pool, W.Work(w, W.Finish)) && u.toServer == s.toServer && u.requests == s.requests
  {
    var a := CanRespond(s, sv, l, w);
    Executed(s, sv, l, w, a);
    u := Go(s, sv, l, Execute(w, P.Submit(a)), t);
  }

  /** The pool executes all it has, or the awaited answer comes. */
  lemma {:induction false} DrainPool(s: State, sv: Service, l: P.Limits, t: int) returns (u: State)
    requires Short(s, sv, t) && Live(s, sv, l, t) && NoneChecked(s.pool)
    ensures Continues(s, sv, l, u) && u.requests == s.requests
    ensures Completed(u, sv, t)
            || (Live(u, sv, l, t) && Resting(u.pool) && NoneChecked(u.pool) && u.toServer == s.toServer)
    decreases |s.pool.queue|, |D.ActorsAt(s.pool, W.ToFlag)|, |D.ActorsAt(s.pool, W.ToNotify)|,
              W.Sum(D.Distance, s.pool.workers)
  {
    if Resting(s.pool) {
      u := s;
    } else {
      var e := D.NextMove(s.pool);
      StillNoneChecked(s.pool, e);
      if e.Work? && e.step.Finish? {
        var v := DrainClient(s, sv, l, t);
        if Completed(v, sv, t) {
          u := v;
        } else {
          var w := Respond(v, sv, l, t, e.w);
          u := DrainPool(w, sv, l, t);
          ContinuesTrans(s, sv, l, v, w);
          ContinuesTrans(s, sv, l, w, u);
        }
      } else {
        var v := Go(s, sv, l, PoolStep(e), t);
        u := DrainPool(v, sv, l, t);
        ContinuesTrans(s, sv, l, v, u);
      }
    }
  }

  // ----- the way there -----

  lemma ActorGo(s: State, sv: Service, l: P.Limits, t: int, we: W.Event<Package>) returns (u: State)
    requires Live(s, sv, l, t) && W.Enabled(s.pool, we) && we in [W.Push(0), W.Flag(0), W.Notify(0)]
    ensures Live(u, sv, l, t) && Continues(s, sv, l, u) && u == s.(pool := W.Apply(s.pool, we))
  {
    u := Go(s, sv, l, PoolStep(we), t);
  }

  function ActorRank(pool: W.State<Package>): nat
    requires |pool.actors| > 0
  {
    match pool.actors[0]
    case Idle => 0
    case ToNotify => 1
    case ToFlag => 2
    case Checked(_) => 3
  }

  lemma ActorTurn(pool: W.State<Package>) returns (we: W.Event<Package>)
    requires |pool.actors| > 0 && !pool.actors[0].Idle?
    ensures we in [W.Push(0), W.Flag(0), W.Notify(0)] && W.Enabled(pool, we)
    ensures |W.Apply(pool, we).actors| > 0 && ActorRank(W.Apply(pool, we)) < ActorRank(pool)
  {
    var a := pool.actors[0];
    we := if a.Checked? then W.Push(0) else if a.ToFlag? then W.Flag(0) else W.Notify(0);
  }

  /** The socket thread of the server finishes appending its task. */
  lemma {:induction false} IdleActor(s: State, sv: Service, l: P.Limits, t: int) returns (u: State)
    requires |s.pool.actors| > 0 && Live(s, sv, l, t)
    ensures Live(u, sv, l, t) && Continues(s, sv, l, u) && u == s.(pool := u.pool)
    ensures |u.pool.actors| > 0 && u.pool.actors[0].Idle?
    decreases ActorRank(s.pool)
  {
    if s.pool.actors[0].Idle? {
      u := s;
    } else {
      var we := ActorTurn(s.pool);
      var v := ActorGo(s, sv, l, t, we);
      u := IdleActor(v, sv, l, t);
      ContinuesTrans(s, sv, l, v, u);
    }
  }

  lemma Handles(s: State, sv: Service, l: P.Limits)
    requires P.Enabled(s.toServer, l, P.Deliver) && |s.pool.actors| > 0 && s.pool.actors[0].Idle?
    ensures Gentle(s, sv, l, HandleRequest)
    ensures var u := Apply(s, sv, l, HandleRequest);
            u.toServer == P.Apply(s.toServer, l, P.Deliver) && u.requests == s.requests
  {
  }

  lemma HandleGo(s: State, sv: Service, l: P.Limits, t: int) returns (u: State)
    requires P.Enabled(s.toServer, l, P.Deliver) && |s.pool.actors| > 0 && s.pool.actors[0].Idle?
    requires Live(s, sv, l, t)
    ensures Live(u, sv, l, t) && Continues(s, sv, l, u)
    ensures u.toServer == P.Apply(s.toServer, l, P.Deliver) && u.requests == s.requests
  {
    Handles(s, sv, l);
    u := Go(s, sv, l, HandleRequest, t);
  }

  lemma MoveGo(s: State, sv: Service, l: P.Limits, t: int, e: P.Event) returns (u: State)
    requires P.Enabled(s.toServer, l, e) && Moves(e) && Live(s, sv, l, t)
    ensures Live(u, sv, l, t) && Continues(s, sv, l, u)
    ensures u.toServer == P.Apply(s.toServer, l, e) && u.requests == s.requests
  {
    u := Go(s, sv, l, ToServerStep(e), t);
  }

  lemma ServerGo(s: State, sv: Service, l: P.Limits, t: int, e: P.Event) returns (u: State)
    requires P.Enabled(s.toServer, l, e) && P.Moves(e) && |s.pool.actors| > 0 && s.pool.actors[0].Idle?
    requires Live(s, sv, l, t)
    ensures Live(u, sv, l, t) && Continues(s, sv, l, u)
    ensures u.toServer == P.Apply(s.toServer, l, e) && u.requests == s.requests
  {
    if e.Deliver? {
      u := HandleGo(s, sv, l, t);
    } else {
      u := MoveGo(s, sv, l, t, e);
    }
  }

  /** The server takes in all requests. */
  lemma {:induction false} DrainServer(s: State, sv: Service, l: P.Limits, t: int) returns (u: State)
    requires Live(s, sv, l, t)
    ensures Live(u, sv, l, t) && Continues(s, sv, l, u) && Emptied(u.toServer) && NoneChecked(u.pool)
    ensures u.requests == s.requests
    decreases |P.Unsent(s.toServer)|, P.SenderRank(s.toServer.sender), |s.toServer.wire|, s.toServer.draining,
              |s.toServer.recvCache|
  {
    var v := IdleActor(s, sv, l, t);
    if P.NextMove(v.toServer).None? {
      PipeEmptied(v.toServer, l);
      u := v;
    } else {
      PipeMoves(v.toServer, l);
      var w := ServerGo(v, sv, l, t, P.NextMove(v.toServer).value);
      u := DrainServer(w, sv, l, t);
      ContinuesTrans(s, sv, l, v, w);
      ContinuesTrans(s, sv, l, w, u);
    }
  }

  // ----- all of it -----

  lemma NothingInPool(pool: W.State<Package>, sv: Service, t: int)
    requires W.Inv(pool) && Resting(pool)
    ensures !InPool(pool, sv, t)
  {
    assert forall w, i: nat {:trigger W.Holds(pool.workers[w], i)} | 0 <= w < |pool.workers| ::
             !W.Holds(pool.workers[w], i);
    assert forall i: nat :: !W.Held(pool.workers, i);
  }

  /** With everything else drained the answer can only be on the way back. */
  lemma NowhereElse(s: State, sv: Service, t: int)
    requires Tracked(s, sv) && Awaited(s, sv, t) && W.Inv(s.pool)
    requires Resting(s.pool) && NoneChecked(s.pool) && Emptied(s.toServer)
    ensures !Emptied(s.toClient)
  {
    NothingInPool(s.pool, sv, t);
    assert InFlight(s, sv, t);
  }

  lemma LastLeg(s: State, sv: Service, l: P.Limits, t: int) returns (u: State)
    requires Short(s, sv, t) && Live(s, sv, l, t)
    requires Resting(s.pool) && NoneChecked(s.pool) && Emptied(s.toServer)
    ensures Continues(s, sv, l, u) && Completed(u, sv, t) && u.requests == s.requests
  {
    u := DrainClient(s, sv, l, t);
    if !Completed(u, sv, t) {
      NowhereElse(u, sv, t);
    }
  }

  /** From every such state in which a request is awaited, its own answer of at most 2047 bytes can
      be brought back to it. */
  lemma CanComplete(s: State, sv: Service, l: P.Limits, t: int) returns (u: State)
    requires Short(s, sv, t) && Live(s, sv, l, t)
    ensures Leads(s, sv, l, u) && Completed(u, sv, t) && u.requests == s.requests
  {
    var a := DrainServer(s, sv, l, t);
    var b := DrainPool(a, sv, l, t);
    ContinuesTrans(s, sv, l, a, b);
    u := b;
    if !Completed(b, sv, t) {
      u := LastLeg(b, sv, l, t);
      ContinuesTrans(s, sv, l, b, u);
    }
    LeadsSelf(u, sv, l);
  }

  /** In every reachable state before a shutdown: a request that was sent, is registered and waits,
      and was neither rejected nor dropped nor cleared, can still return with its own answer. */
  lemma EveryAwaitedCanComplete(s: State, sv: Service, l: P.Limits, es: seq<Event>, u: State, t: int)
    returns (v: State)
    requires WellBehaved(sv, l) && l.Roomy() && l.maxFrame <= l.sendCapacity
    requires Initial(s) && IsRun(s, sv, l, es, u) && CleanRun(s, sv, l, es)
    requires !u.pool.exit && |u.pool.workers| > 0 && |u.pool.actors| > 0
    requires Awaited(u, sv, t) && |Answer(sv, u.requests[t])| < C.CAPACITY
    ensures Leads(u, sv, l, v) && Completed(v, sv, t) && v.requests == u.requests
  {
    InitialInv(s, sv, l);
    RunTracked(s, sv, l, es, u);
    v := CanComplete(u, sv, l, t);
  }

  /** A request is issued and not yet sent. */
  predicate Issued(s: State, t: int, p: Package) {
    && t in s.requests && s.requests[t] == p && t !in s.sent && t !in s.lost
    && t in s.client.handles && s.client.handles[t] == C.NEW_HANDLE
  }

  lemma IssueGo(s: State, sv: Service, l: P.Limits, t: int, p: Package) returns (u: State)
    requires Enabled(s, sv, l, Issue(t, p)) && t !in s.sent && t !in s.lost && Working(s, sv, l)
    ensures u == Apply(s, sv, l, Issue(t, p)) && Working(u, sv, l) && Continues(s, sv, l, u)
  {
    u := Apply(s, sv, l, Issue(t, p));
    StepAll(s, sv, l, Issue(t, p));
    ContinuesAfter(s, sv, l, Issue(t, p), u);
  }

  /** A write that succeeds lets the thread wait for its answer. */
  lemma WriteSends(s: State, sv: Service, l: P.Limits, t: int, p: Package)
    requires Issued(s, t, p) && P.Enabled(s.toServer, l, P.Submit(p))
    ensures Enabled(s, sv, l, SendRequest(t, P.Submit(p)))
    ensures var u := Apply(s, sv, l, SendRequest(t, P.Submit(p)));
            && u == s.(toServer := P.Apply(s.toServer, l, P.Submit(p)), sent := s.sent + {t})
            && forall timeout :: Enabled(u, sv, l, ClientStep(C.Request(t, C.StartWait(timeout))))
  {
  }

  lemma SendGo(s: State, sv: Service, l: P.Limits, t: int, p: Package) returns (u: State)
    requires Issued(s, t, p) && P.Enabled(s.toServer, l, P.Submit(p)) && Registered(sv, p)
    requires !Cleared(s.pool, sv, t) && Working(s, sv, l)
    ensures Live(u, sv, l, t) && Continues(s, sv, l, u) && u.requests == s.requests
  {
    u := Apply(s, sv, l, SendRequest(t, P.Submit(p)));
    WriteSends(s, sv, l, t, p);
    StepAll(s, sv, l, SendRequest(t, P.Submit(p)));
    ContinuesAfter(s, sv, l, SendRequest(t, P.Submit(p)), u);
  }

  lemma StepAll(s: State, sv: Service, l: P.Limits, e: Event)
    requires Working(s, sv, l) && Enabled(s, sv, l, e) && CleanStep(s, e)
    ensures Inv(Apply(s, sv, l, e), sv, l) && Tracked(Apply(s, sv, l, e), sv)
  {
    StepParts(s, sv, l, e);
    StepCorrelated(s, sv, l, e);
    StepBalanced(s, sv, l, e);
    StepTracked(s, sv, l, e);
  }

  /** From the start every request for a registered function can be issued, sent and answered. */
  lemma FirstRequest(s: State, sv: Service, l: P.Limits, t: int, p: Package) returns (u: State)
    requires WellBehaved(sv, l) && l.Roomy() && l.maxFrame <= l.sendCapacity && Initial(s)
    requires |s.pool.workers| > 0 && |s.pool.actors| > 0
    requires t != C.NO_TAG && sv.tag(p) == t && P.Sendable(p, l)
    requires Registered(sv, p) && |Answer(sv, p)| < C.CAPACITY
    ensures Leads(s, sv, l, u) && Completed(u, sv, t) && u.requests == map[t := p]
  {
    InitialInv(s, sv, l);
    var v := IssueGo(s, sv, l, t, p);
    assert Issued(v, t, p);
    var w := SendGo(v, sv, l, t, p);
    u := CanComplete(w, sv, l, t);
  }
}
