/** Where a request is: in every run, from the write of its package until its handle is settled,
    it is somewhere on its way, unless it was rejected, dropped or cleared. */
module Tracking {
  import opened Wrappers
  import opened Frames
  import P = Pipe
  import W = ThreadPool
  import C = Rendezvous
  import opened EndToEnd

  /** A package with this tag is accepted by the pipe and not yet delivered. */
  ghost predicate OnWay(p: P.State, sv: Service, t: int) {
    exists i: nat :: |p.delivered| <= i < |p.accepted| && sv.tag(p.accepted[i]) == t
  }

  /** The socket thread of the server is about to append its task. */
  predicate CheckedIn(pool: W.State<Package>, sv: Service, t: int) {
    |pool.actors| > 0 && pool.actors[0].Checked? && sv.tag(pool.actors[0].task) == t
  }

  /** Its task is queued or executing. */
  ghost predicate InPool(pool: W.State<Package>, sv: Service, t: int) {
    exists i: nat :: i < |pool.appended| && sv.tag(pool.appended[i]) == t && i !in pool.finished && i !in pool.cleared
  }

  ghost predicate Cleared(pool: W.State<Package>, sv: Service, t: int) {
    exists i: nat :: i < |pool.appended| && sv.tag(pool.appended[i]) == t && i in pool.cleared
  }

  ghost predicate InFlight(s: State, sv: Service, t: int) {
    OnWay(s.toServer, sv, t) || CheckedIn(s.pool, sv, t) || InPool(s.pool, sv, t) || OnWay(s.toClient, sv, t)
  }

  /** The package of the request was written, it is registered, and it waits for its answer; nobody
      rejected, dropped or cleared it. */
  ghost predicate Awaited(s: State, sv: Service, t: int) {
    && t in s.sent && t in s.requests && Registered(sv, s.requests[t])
    && t in s.client.handles && s.client.handles[t].status.Waiting?
    && t !in s.lost && !Cleared(s.pool, sv, t)
  }

  ghost predicate Tracked(s: State, sv: Service) {
    && (forall t | t in s.sent :: t in s.requests && t in s.client.handles && !s.client.handles[t].requester.Refused?)
    && (forall t | Awaited(s, sv, t) :: InFlight(s, sv, t))
  }

  // ----- the parts -----

  lemma WayStays(p: P.State, q: P.State, sv: Service, t: int)
    requires OnWay(p, sv, t) && q.delivered == p.delivered && p.accepted <= q.accepted
    ensures OnWay(q, sv, t)
  {
    var i: nat :| |p.delivered| <= i < |p.accepted| && sv.tag(p.accepted[i]) == t;
    assert q.accepted[i] == p.accepted[i];
  }

  lemma WayAdded(p: P.State, q: P.State, sv: Service, body: Package)
    requires q.delivered == p.delivered && |p.delivered| <= |p.accepted| && q.accepted == p.accepted + [body]
    ensures OnWay(q, sv, sv.tag(body))
  {
    assert q.accepted[|p.accepted|] == body;
  }

  /** A delivery takes only the front package off the way. */
  lemma WayDelivered(p: P.State, l: P.Limits, sv: Service, t: int)
    requires P.Inv(p, l) && P.Enabled(p, l, P.Deliver) && OnWay(p, sv, t)
    ensures OnWay(P.Apply(p, l, P.Deliver), sv, t) || sv.tag(Incoming(p)) == t
  {
    P.Outstanding(p, l);
    var i: nat :| |p.delivered| <= i < |p.accepted| && sv.tag(p.accepted[i]) == t;
    var q := P.Apply(p, l, P.Deliver);
    if i > |p.delivered| {
      assert |q.delivered| <= i < |q.accepted| && sv.tag(q.accepted[i]) == t;
    }
  }

  /** What the pool has stays there, unless it is finished or cleared. */
  lemma PoolStays(p: W.State<Package>, q: W.State<Package>, sv: Service, t: int)
    requires InPool(p, sv, t) && p.appended <= q.appended && p.finished == q.finished
    ensures InPool(q, sv, t) || Cleared(q, sv, t)
  {
    var i: nat :| i < |p.appended| && sv.tag(p.appended[i]) == t && i !in p.finished && i !in p.cleared;
    assert q.appended[i] == p.appended[i];
  }

  lemma StaysCleared(p: W.State<Package>, q: W.State<Package>, sv: Service, t: int)
    requires Cleared(p, sv, t) && p.appended <= q.appended && p.cleared <= q.cleared
    ensures Cleared(q, sv, t)
  {
    var i: nat :| i < |p.appended| && sv.tag(p.appended[i]) == t && i in p.cleared;
    assert q.appended[i] == p.appended[i];
  }

  lemma PoolGrows(s: W.State<Package>, e: W.Event<Package>)
    requires W.Enabled(s, e)
    ensures s.appended <= W.Apply(s, e).appended && s.cleared <= W.Apply(s, e).cleared
    ensures !(e.Work? && e.step.Finish?) ==> W.Apply(s, e).finished == s.finished
  {
  }

  /** A task checked in stays so until it is pushed; then it is in the pool. */
  lemma CheckedStays(s: W.State<Package>, e: W.Event<Package>, sv: Service, t: int)
    requires W.Inv(s) && W.Enabled(s, e) && CheckedIn(s, sv, t)
    ensures CheckedIn(W.Apply(s, e), sv, t) || InPool(W.Apply(s, e), sv, t)
  {
    if e.Push? && e.a == 0 {
      var u, n := W.Apply(s, e), |s.appended|;
      assert n < |u.appended| && sv.tag(u.appended[n]) == t && n !in u.finished && n !in u.cleared;
    }
  }

  /** A finished task takes only its own package out of the pool. */
  lemma PoolFinished(s: W.State<Package>, w: nat, sv: Service, t: int)
    requires W.Enabled(s, W.Work(w, W.Finish)) && InPool(s, sv, t) && s.workers[w].i < |s.appended|
    ensures InPool(W.Apply(s, W.Work(w, W.Finish)), sv, t) || sv.tag(s.appended[s.workers[w].i]) == t
  {
    var i: nat :| i < |s.appended| && sv.tag(s.appended[i]) == t && i !in s.finished && i !in s.cleared;
    var u := W.Apply(s, W.Work(w, W.Finish));
    if i != s.workers[w].i {
      assert i < |u.appended| && sv.tag(u.appended[i]) == t && i !in u.finished && i !in u.cleared;
    }
  }

  // ----- every step -----

  /** Neither pipes nor pool change, and no request begins to be awaited. */
  lemma ClientTracked(s: State, u: State, sv: Service)
    requires Tracked(s, sv) && u.toServer == s.toServer && u.pool == s.pool && u.toClient == s.toClient
    requires u.sent == s.sent && u.lost == s.lost && s.requests.Keys <= u.requests.Keys
    requires forall t | t in s.requests :: u.requests[t] == s.requests[t]
    requires forall t | t in s.client.handles ::
               t in u.client.handles
               && (u.client.handles[t].status.Waiting? ==> s.client.handles[t].status.Waiting?)
               && (t in s.sent && u.client.handles[t].requester.Refused? ==> s.client.handles[t].requester.Refused?)
    ensures Tracked(u, sv)
  {
    forall t | Awaited(u, sv, t) ensures InFlight(u, sv, t) {
      assert Awaited(s, sv, t);
    }
  }

  /** The client stays as it is: who is awaited afterwards was so before. */
  lemma StillAwaited(s: State, u: State, sv: Service, t: int)
    requires u.client == s.client && u.requests == s.requests && u.sent == s.sent && s.lost <= u.lost
    requires s.pool.appended <= u.pool.appended && s.pool.cleared <= u.pool.cleared
    requires Awaited(u, sv, t)
    ensures Awaited(s, sv, t)
  {
    if Cleared(s.pool, sv, t) {
      StaysCleared(s.pool, u.pool, sv, t);
    }
  }

  lemma PipeTracked(s: State, u: State, sv: Service)
    requires Tracked(s, sv) && u == s.(toServer := u.toServer, toClient := u.toClient)
    requires u.toServer.delivered == s.toServer.delivered && s.toServer.accepted <= u.toServer.accepted
    requires u.toClient.delivered == s.toClient.delivered && s.toClient.accepted <= u.toClient.accepted
    ensures Tracked(u, sv)
  {
    forall t | Awaited(u, sv, t) ensures InFlight(u, sv, t) {
      StillAwaited(s, u, sv, t);
      if OnWay(s.toServer, sv, t) {
        WayStays(s.toServer, u.toServer, sv, t);
      } else if OnWay(s.toClient, sv, t) {
        WayStays(s.toClient, u.toClient, sv, t);
      }
    }
  }

  lemma SentTracked(s: State, u: State, sv: Service, t: int)
    requires Tracked(s, sv) && t in s.requests && t in s.client.handles && sv.tag(s.requests[t]) == t
    requires !s.client.handles[t].requester.Refused?
    requires u == s.(toServer := u.toServer, sent := s.sent + {t})
    requires u.toServer.delivered == s.toServer.delivered && |s.toServer.delivered| <= |s.toServer.accepted|
    requires u.toServer.accepted == s.toServer.accepted + [s.requests[t]]
    ensures Tracked(u, sv)
  {
    forall k | Awaited(u, sv, k) ensures InFlight(u, sv, k) {
      if k == t {
        WayAdded(s.toServer, u.toServer, sv, s.requests[t]);
      } else {
        assert Awaited(s, sv, k);
        if OnWay(s.toServer, sv, k) {
          WayStays(s.toServer, u.toServer, sv, k);
        }
      }
    }
  }

  lemma SendTracked(s: State, sv: Service, l: P.Limits, t: int, write: P.Event)
    requires Tracked(s, sv) && Correlated(s, sv) && P.Inv(s.toServer, l)
    requires Enabled(s, sv, l, SendRequest(t, write)) && P.CleanStep(s.toServer, write)
    ensures Tracked(AfterSend(s, l, t, write), sv)
  {
    WriteOnly(s.toServer, l, write);
    P.Outstanding(s.toServer, l);
    if Reported(write) {
      SentTracked(s, AfterSend(s, l, t, write), sv, t);
    } else {
      ClientTracked(s, AfterSend(s, l, t, write), sv);
    }
  }

  lemma HandleTracked(s: State, sv: Service, l: P.Limits)
    requires Tracked(s, sv) && Correlated(s, sv) && P.Inv(s.toServer, l)
    requires P.Enabled(s.toServer, l, P.Deliver) && |s.pool.actors| > 0 && s.pool.actors[0].Idle?
    ensures Tracked(AfterHandle(s, sv, l), sv)
  {
    var u, p := AfterHandle(s, sv, l), Incoming(s.toServer);
    DeliverOnly(s.toServer, l);
    forall t | Awaited(u, sv, t) ensures InFlight(u, sv, t) {
      StillAwaited(s, u, sv, t);
      if OnWay(s.toServer, sv, t) {
        WayDelivered(s.toServer, l, sv, t);
        if sv.tag(p) == t {
          assert Asked(s, sv, p);
        }
      } else if InPool(s.pool, sv, t) {
        PoolStays(s.pool, u.pool, sv, t);
      }
    }
  }

  lemma PoolTracked(s: State, sv: Service, we: W.Event<Package>)
    requires Tracked(s, sv) && W.Inv(s.pool) && W.Enabled(s.pool, we) && !(we.Work? && we.step.Finish?)
    ensures Tracked(s.(pool := W.Apply(s.pool, we)), sv)
  {
    var u := s.(pool := W.Apply(s.pool, we));
    PoolGrows(s.pool, we);
    forall t | Awaited(u, sv, t) ensures InFlight(u, sv, t) {
      StillAwaited(s, u, sv, t);
      if CheckedIn(s.pool, sv, t) {
        CheckedStays(s.pool, we, sv, t);
      } else if InPool(s.pool, sv, t) {
        PoolStays(s.pool, u.pool, sv, t);
      }
    }
  }

  lemma ExecuteTracked(s: State, sv: Service, l: P.Limits, w: nat, write: P.Event)
    requires Tracked(s, sv) && Correlated(s, sv) && WellBehaved(sv, l) && P.Inv(s.toClient, l)
    requires Enabled(s, sv, l, Execute(w, write)) && P.CleanStep(s.toClient, write)
    ensures Tracked(AfterExecute(s, sv, l, w, write), sv)
  {
    var u := AfterExecute(s, sv, l, w, write);
    var p := s.pool.appended[s.pool.workers[w].i];
    WriteOnly(s.toClient, l, write);
    FinishOnly(s.pool, w);
    PoolGrows(s.pool, W.Work(w, W.Finish));
    P.Outstanding(s.toClient, l);
    assert sv.tag(write.body) == sv.tag(p);
    forall t | Awaited(u, sv, t) ensures InFlight(u, sv, t) {
      StillAwaited(s, u, sv, t);
      if InPool(s.pool, sv, t) {
        PoolFinished(s.pool, w, sv, t);
        if sv.tag(p) == t {
          WayAdded(s.toClient, u.toClient, sv, write.body);
        }
      } else if OnWay(s.toClient, sv, t) {
        WayStays(s.toClient, u.toClient, sv, t);
      }
    }
  }

  lemma ResponseTracked(s: State, sv: Service, l: P.Limits)
    requires Tracked(s, sv) && C.Inv(s.client) && P.Inv(s.toClient, l) && Enabled(s, sv, l, HandleResponse)
    ensures Tracked(AfterResponse(s, sv, l), sv)
  {
    var u, r := AfterResponse(s, sv, l), Incoming(s.toClient);
    ResponseHandled(s, sv, l);
    forall t | Awaited(u, sv, t) ensures InFlight(u, sv, t) {
      assert C.Sound(s.client.handles[t]);
      assert Awaited(s, sv, t);
      if OnWay(s.toClient, sv, t) {
        WayDelivered(s.toClient, l, sv, t);
      }
    }
  }

  lemma ClientStepTracked(s: State, sv: Service, ce: C.Event)
    requires Tracked(s, sv) && C.Inv(s.client) && C.Enabled(s.client, ce) && Waits(s, ce)
    ensures Tracked(s.(client := C.Apply(s.client, ce)), sv)
  {
    forall t | t in s.client.handles ensures
      t in C.Apply(s.client, ce).handles
      && (C.Apply(s.client, ce).handles[t].status.Waiting? ==> s.client.handles[t].status.Waiting?)
      && (C.Apply(s.client, ce).handles[t].requester.Refused? ==> s.client.handles[t].requester.Refused?)
    {
      C.OutcomeFixed(s.client, ce, t);
      C.OnlyTarget(s.client, ce);
    }
    ClientTracked(s, s.(client := C.Apply(s.client, ce)), sv);
  }

  lemma IssueTracked(s: State, sv: Service, l: P.Limits, t: int, p: Package)
    requires Tracked(s, sv) && s.requests.Keys == s.client.handles.Keys && Enabled(s, sv, l, Issue(t, p))
    ensures Tracked(Apply(s, sv, l, Issue(t, p)), sv)
  {
    ClientTracked(s, Apply(s, sv, l, Issue(t, p)), sv);
  }

  lemma StepTracked(s: State, sv: Service, l: P.Limits, e: Event)
    requires Inv(s, sv, l) && Tracked(s, sv) && WellBehaved(sv, l) && Enabled(s, sv, l, e) && CleanStep(s, e)
    ensures Tracked(Apply(s, sv, l, e), sv)
  {
    match e
    case Issue(t, p) => IssueTracked(s, sv, l, t, p);
    case SendRequest(t, write) => SendTracked(s, sv, l, t, write);
    case ClientStep(ce) => ClientStepTracked(s, sv, ce);
    case ToServerStep(pe) =>
      PipeOnly(s.toServer, l, pe);
      PipeTracked(s, Apply(s, sv, l, e), sv);
    case HandleRequest => HandleTracked(s, sv, l);
    case PoolStep(we) => PoolTracked(s, sv, we);
    case Execute(w, write) => ExecuteTracked(s, sv, l, w, write);
    case ToClientStep(pe) =>
      PipeOnly(s.toClient, l, pe);
      PipeTracked(s, Apply(s, sv, l, e), sv);
    case HandleResponse => ResponseTracked(s, sv, l);
  }

  lemma {:induction false} RunTracked(s: State, sv: Service, l: P.Limits, es: seq<Event>, u: State)
    requires Inv(s, sv, l) && Tracked(s, sv) && WellBehaved(sv, l) && l.Roomy()
    requires IsRun(s, sv, l, es, u) && CleanRun(s, sv, l, es)
    ensures Inv(u, sv, l) && Tracked(u, sv)
    decreases |es|
  {
    if |es| != 0 {
      StepParts(s, sv, l, es[0]);
      StepCorrelated(s, sv, l, es[0]);
      StepBalanced(s, sv, l, es[0]);
      StepTracked(s, sv, l, es[0]);
      RunTracked(Apply(s, sv, l, es[0]), sv, l, es[1..], u);
    }
  }

  /** In every reachable state each awaited request is on its way: to the server, with its socket
      thread, in its pool, or on the way back. */
  lemma TrackedOverRuns(s: State, sv: Service, l: P.Limits, es: seq<Event>, u: State, t: int)
    requires WellBehaved(sv, l) && l.Roomy() && Initial(s) && IsRun(s, sv, l, es, u) && CleanRun(s, sv, l, es)
    requires Awaited(u, sv, t)
    ensures InFlight(u, sv, t)
  {
    InitialInv(s, sv, l);
    RunTracked(s, sv, l, es, u);
  }

  // ----- a refused request -----

  predicate Out(s: State, t: int) {
    t in s.client.handles && s.client.handles[t].requester.Refused? && t !in s.sent
  }

  lemma ClientStepOut(c: C.State, ce: C.Event, t: int)
    requires C.Enabled(c, ce) && t in c.handles && c.handles[t].requester.Refused?
    ensures t in C.Apply(c, ce).handles && C.Apply(c, ce).handles[t].requester.Refused?
  {
    C.OnlyTarget(c, ce);
  }

  lemma StepOut(s: State, sv: Service, l: P.Limits, e: Event, t: int)
    requires Enabled(s, sv, l, e) && Out(s, t)
    ensures Out(Apply(s, sv, l, e), t)
  {
    match e
    case Issue(r, _) => ClientStepOut(s.client, C.Create(r), t);
    case ClientStep(ce) => ClientStepOut(s.client, ce, t);
    case HandleResponse => RespondKeepsOut(s, sv, l, t);
    case SendRequest(r, write) => SendKeepsOut(s, l, r, write, t);
    case _ =>
  }

  lemma RespondKeepsOut(s: State, sv: Service, l: P.Limits, t: int)
    requires P.Enabled(s.toClient, l, P.Deliver) && Out(s, t)
    ensures Out(AfterResponse(s, sv, l), t)
  {
  }

  lemma SendKeepsOut(s: State, l: P.Limits, r: int, write: P.Event, t: int)
    requires P.Enabled(s.toServer, l, write) && r in s.client.handles && r != t && Out(s, t)
    ensures Out(AfterSend(s, l, r, write), t)
  {
  }

  lemma {:induction false} StaysOut(s: State, sv: Service, l: P.Limits, es: seq<Event>, u: State, t: int)
    requires IsRun(s, sv, l, es, u) && Out(s, t)
    ensures Out(u, t)
    decreases |es|
  {
    if |es| != 0 {
      StepOut(s, sv, l, es[0], t);
      StaysOut(Apply(s, sv, l, es[0]), sv, l, es[1..], u, t);
    }
  }

  /** A request whose package the cache refused is out, in whatever run follows, even one with
      orphan headers: it is never written again, and its thread never waits. */
  lemma RefusedIsOut(s: State, sv: Service, l: P.Limits, t: int, write: P.Event, es: seq<Event>, u: State)
    requires Enabled(s, sv, l, SendRequest(t, write)) && !Reported(write)
    requires IsRun(Apply(s, sv, l, SendRequest(t, write)), sv, l, es, u)
    ensures Out(u, t) && forall again :: !Enabled(u, sv, l, SendRequest(t, again))
    ensures forall timeout :: !Enabled(u, sv, l, ClientStep(C.Request(t, C.StartWait(timeout))))
  {
    StaysOut(Apply(s, sv, l, SendRequest(t, write)), sv, l, es, u, t);
  }
}
