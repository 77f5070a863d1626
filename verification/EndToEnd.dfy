/** One client connection from end to end: the requesting threads, the two byte pipes, and the
    server with its worker pool, composed of the step systems of the other modules. */
module EndToEnd {
  import opened Wrappers
  import opened Frames
  import P = Pipe
  import W = ThreadPool
  import C = Rendezvous

  /** What the generated code contributes: the tag and the method name that can be read off a
      package, and the registered functions from request bytes to response bytes. */
  datatype Service = Service(
    tag: Bytes -> int,
    name: Bytes -> string,
    funcs: map<string, Bytes -> Bytes>)

  predicate Registered(sv: Service, p: Bytes) {
    sv.name(p) in sv.funcs
  }

  function Answer(sv: Service, p: Bytes): Bytes
    requires Registered(sv, p)
  {
    sv.funcs[sv.name(p)](p)
  }

  /** Every registered function echoes method and query id, hence the tag, and its response
      fits a frame. */
  ghost predicate WellBehaved(sv: Service, l: P.Limits) {
    forall p: Package | Registered(sv, p) ::
      var r := Answer(sv, p);
      |r| < HALF_WORD && P.Sendable(r, l) && sv.tag(r) == sv.tag(p)
  }

  /** The counters record what became of the requests: `unhandled` had no registered function,
      `rejected` came after the exit flag, `responses` is `m_send_responses`, and `dropped`
      responses were refused by the send cache. `lost` holds the tags of the rejected and the dropped. */
  datatype State = State(
    client: C.State,
    requests: map<int, Package>,
    sent: set<int>,
    toServer: P.State,
    pool: W.State<Package>,
    toClient: P.State,
    unhandled: nat,
    rejected: nat,
    responses: nat,
    dropped: nat,
    lost: set<int>)

  /** The socket thread of the server is actor 0 of the pool. `write` is the step of the pipe that
      `write_package` takes. */
  datatype Event =
    | Issue(tag: int, payload: Package)
    | SendRequest(tag: int, write: P.Event)
    | ClientStep(ce: C.Event)
    | ToServerStep(pe: P.Event)
    | HandleRequest
    | PoolStep(we: W.Event<Package>)
    | Execute(w: nat, write: P.Event)
    | ToClientStep(pe: P.Event)
    | HandleResponse

  /** What a pipe does without a write and without handing a package on. */
  predicate Moves(e: P.Event) {
    P.Moves(e) && !e.Deliver?
  }

  /** The steps a client thread takes without the socket: the thread in `send_request` waits
      only after its package was written. */
  predicate Waits(s: State, e: C.Event) {
    && !e.Create?
    && (e.Request? ==> !e.act.Respond? && !e.act.Refuse?)
    && (e.Request? && e.act.StartWait? ==> e.tag in s.sent)
  }

  /** The step is a call of `write_package` with this body. */
  predicate Writes(write: P.Event, body: Package) {
    (write.Submit? || write.Reject?) && write.body == body
  }

  /** What the call returns. */
  predicate Reported(write: P.Event) {
    write.Submit? || (write.Reject? && write.ok)
  }

  ghost predicate Enabled(s: State, sv: Service, l: P.Limits, e: Event) {
    match e
    case Issue(t, p) => C.Enabled(s.client, C.Create(t)) && sv.tag(p) == t && P.Sendable(p, l)
    case SendRequest(t, write) =>
      t in s.requests && t !in s.sent && t in s.client.handles && s.client.handles[t].requester.Created?
      && Writes(write, s.requests[t]) && P.Enabled(s.toServer, l, write)
    case ClientStep(ce) => Waits(s, ce) && C.Enabled(s.client, ce)
    case ToServerStep(pe) => Moves(pe) && P.Enabled(s.toServer, l, pe)
    case HandleRequest => P.Enabled(s.toServer, l, P.Deliver) && |s.pool.actors| > 0 && s.pool.actors[0].Idle?
    case PoolStep(we) =>
      !we.Append? && !(we.Work? && we.step.Finish?) && W.Enabled(s.pool, we)
    case Execute(w, write) =>
      W.Enabled(s.pool, W.Work(w, W.Finish)) && s.pool.workers[w].i < |s.pool.appended|
      && var p := s.pool.appended[s.pool.workers[w].i];
         Registered(sv, p) && |Answer(sv, p)| < HALF_WORD
         && Writes(write, Answer(sv, p)) && P.Enabled(s.toClient, l, write)
    case ToClientStep(pe) => Moves(pe) && P.Enabled(s.toClient, l, pe)
    case HandleResponse => P.Enabled(s.toClient, l, P.Deliver) && s.client.io.IoIdle?
  }

  function AfterSend(s: State, l: P.Limits, t: int, write: P.Event): State
    requires P.Enabled(s.toServer, l, write) && t in s.client.handles
  {
    var u := s.(toServer := P.Apply(s.toServer, l, write));
    if Reported(write) then u.(sent := s.sent + {t})
    else u.(client := C.AfterRequest(s.client, t, C.Refuse))
  }

  /** The package at the front of the receive cache of a pipe. */
  function Incoming(p: P.State): Package
    requires NextPackage(p.recvCache).Some?
  {
    NextPackage(p.recvCache).value
  }

  function AfterHandle(s: State, sv: Service, l: P.Limits): State
    requires P.Enabled(s.toServer, l, P.Deliver) && |s.pool.actors| > 0 && s.pool.actors[0].Idle?
  {
    var p := Incoming(s.toServer);
    var u := s.(toServer := P.Apply(s.toServer, l, P.Deliver));
    if !Registered(sv, p) then u.(unhandled := s.unhandled + 1)
    else u.(pool := W.Apply(s.pool, W.Append(0, p)),
            rejected := if s.pool.exit then s.rejected + 1 else s.rejected,
            lost := if s.pool.exit then s.lost + {sv.tag(p)} else s.lost)
  }

  function AfterExecute(s: State, sv: Service, l: P.Limits, w: nat, write: P.Event): State
    requires W.Enabled(s.pool, W.Work(w, W.Finish)) && P.Enabled(s.toClient, l, write)
    requires write.Submit? || write.Reject?
  {
    var u := s.(pool := W.Apply(s.pool, W.Work(w, W.Finish)), toClient := P.Apply(s.toClient, l, write));
    if Reported(write) then u.(responses := s.responses + 1)
    else u.(dropped := s.dropped + 1, lost := s.lost + {sv.tag(write.body)})
  }

  /** The tag map refers to a handle with this tag. */
  predicate Mapped(c: C.State, t: int) {
    t in c.handles && c.handles[t].mapped
  }

  function AfterResponse(s: State, sv: Service, l: P.Limits): State
    requires P.Enabled(s.toClient, l, P.Deliver)
  {
    var r := Incoming(s.toClient);
    var t := sv.tag(r);
    var u := s.(toClient := P.Apply(s.toClient, l, P.Deliver));
    if Mapped(s.client, t) then u.(client := C.AfterRequest(s.client, t, C.Respond(r))) else u
  }

  ghost function Apply(s: State, sv: Service, l: P.Limits, e: Event): State
    requires Enabled(s, sv, l, e)
  {
    match e
    case Issue(t, p) => s.(client := C.Apply(s.client, C.Create(t)), requests := s.requests[t := p])
    case SendRequest(t, write) => AfterSend(s, l, t, write)
    case ClientStep(ce) => s.(client := C.Apply(s.client, ce))
    case ToServerStep(pe) => s.(toServer := P.Apply(s.toServer, l, pe))
    case HandleRequest => AfterHandle(s, sv, l)
    case PoolStep(we) => s.(pool := W.Apply(s.pool, we))
    case Execute(w, write) => AfterExecute(s, sv, l, w, write)
    case ToClientStep(pe) => s.(toClient := P.Apply(s.toClient, l, pe))
    case HandleResponse => AfterResponse(s, sv, l)
  }

  ghost predicate Initial(s: State) {
    && s.client == C.INIT && s.requests == map[] && s.sent == {}
    && s.toServer == P.INIT && s.toClient == P.INIT && W.Initial(s.pool)
    && s.unhandled == s.rejected == s.responses == s.dropped == 0 && s.lost == {}
  }

  ghost predicate IsRun(s: State, sv: Service, l: P.Limits, es: seq<Event>, u: State)
    decreases |es|
  {
    if |es| == 0 then s == u
    else Enabled(s, sv, l, es[0]) && IsRun(Apply(s, sv, l, es[0]), sv, l, es[1..], u)
  }

  /** No write leaves part of a package behind. */
  predicate CleanStep(s: State, e: Event) {
    match e
    case SendRequest(_, write) => P.CleanStep(s.toServer, write)
    case Execute(_, write) => P.CleanStep(s.toClient, write)
    case _ => true
  }

  ghost predicate CleanRun(s: State, sv: Service, l: P.Limits, es: seq<Event>)
    decreases |es|
  {
    |es| == 0
    || (CleanStep(s, es[0]) && Enabled(s, sv, l, es[0]) && CleanRun(Apply(s, sv, l, es[0]), sv, l, es[1..]))
  }

  // ----- what every step keeps -----

  ghost predicate Parts(s: State, l: P.Limits) {
    P.Inv(s.toServer, l) && P.Inv(s.toClient, l) && W.Inv(s.pool) && C.Inv(s.client)
  }

  /** A package the client wrote: the payload of the request with its tag. */
  predicate Asked(s: State, sv: Service, p: Package) {
    sv.tag(p) in s.requests && s.requests[sv.tag(p)] == p
  }

  /** A response to the payload of the request with its tag. */
  predicate Answered(s: State, sv: Service, r: Bytes) {
    var t := sv.tag(r);
    t in s.requests && Registered(sv, s.requests[t]) && r == Answer(sv, s.requests[t])
  }

  ghost predicate Correlated(s: State, sv: Service) {
    && s.requests.Keys == s.client.handles.Keys
    && (forall t | t in s.requests :: sv.tag(s.requests[t]) == t)
    && (forall p | p in s.toServer.accepted :: Asked(s, sv, p))
    && (forall p | p in s.pool.appended :: Asked(s, sv, p) && Registered(sv, p))
    && (forall a | 0 <= a < |s.pool.actors| && s.pool.actors[a].Checked? ::
          Asked(s, sv, s.pool.actors[a].task) && Registered(sv, s.pool.actors[a].task))
    && (forall r | r in s.toClient.accepted :: Answered(s, sv, r))
    && (forall t | t in s.client.handles && s.client.handles[t].response.Some? ::
          var r := s.client.handles[t].response.value; sv.tag(r) == t && Answered(s, sv, r))
  }

  /** A request between its check of the exit flag and its push into the queue. */
  function InAppend(s: State): nat {
    if |s.pool.actors| > 0 && s.pool.actors[0].Checked? then 1 else 0
  }

  ghost predicate Balanced(s: State) {
    && (forall a | 1 <= a < |s.pool.actors| :: !s.pool.actors[a].Checked?)
    && |s.toServer.delivered| == s.unhandled + s.rejected + InAppend(s) + |s.pool.appended|
    && |s.pool.finished| == s.responses + s.dropped
    && |s.toClient.accepted| == s.responses
  }

  ghost predicate Inv(s: State, sv: Service, l: P.Limits) {
    Parts(s, l) && Correlated(s, sv) && Balanced(s)
  }

  lemma SendParts(s: State, l: P.Limits, t: int, write: P.Event)
    requires Parts(s, l) && l.Roomy() && P.Enabled(s.toServer, l, write) && P.CleanStep(s.toServer, write)
    requires C.Enabled(s.client, C.Request(t, C.Refuse))
    ensures Parts(AfterSend(s, l, t, write), l)
  {
    P.StepInv(s.toServer, l, write);
    C.StepInv(s.client, C.Request(t, C.Refuse));
  }

  lemma HandleParts(s: State, sv: Service, l: P.Limits)
    requires Parts(s, l) && l.Roomy()
    requires P.Enabled(s.toServer, l, P.Deliver) && |s.pool.actors| > 0 && s.pool.actors[0].Idle?
    ensures Parts(AfterHandle(s, sv, l), l)
  {
    P.StepInv(s.toServer, l, P.Deliver);
    W.StepInv(s.pool, W.Append(0, Incoming(s.toServer)));
  }

  lemma ResponseParts(s: State, sv: Service, l: P.Limits)
    requires Parts(s, l) && l.Roomy() && P.Enabled(s.toClient, l, P.Deliver) && s.client.io.IoIdle?
    ensures Parts(AfterResponse(s, sv, l), l)
  {
    var r := Incoming(s.toClient);
    P.StepInv(s.toClient, l, P.Deliver);
    if Mapped(s.client, sv.tag(r)) {
      C.StepInv(s.client, C.Request(sv.tag(r), C.Respond(r)));
    }
  }

  lemma StepParts(s: State, sv: Service, l: P.Limits, e: Event)
    requires Parts(s, l) && l.Roomy() && Enabled(s, sv, l, e) && CleanStep(s, e)
    ensures Parts(Apply(s, sv, l, e), l)
  {
    match e
    case Issue(t, p) => C.StepInv(s.client, C.Create(t));
    case SendRequest(t, write) => SendParts(s, l, t, write);
    case ClientStep(ce) => C.StepInv(s.client, ce);
    case ToServerStep(pe) => P.StepInv(s.toServer, l, pe);
    case HandleRequest => HandleParts(s, sv, l);
    case PoolStep(we) => W.StepInv(s.pool, we);
    case Execute(w, write) =>
      W.StepInv(s.pool, W.Work(w, W.Finish));
      P.StepInv(s.toClient, l, write);
    case ToClientStep(pe) => P.StepInv(s.toClient, l, pe);
    case HandleResponse => ResponseParts(s, sv, l);
  }

  // ----- what the steps of the parts leave alone -----

  lemma ClientOnly(s: C.State, e: C.Event)
    requires C.Enabled(s, e) && !e.Create? && (e.Request? ==> !e.act.Respond?)
    ensures C.Apply(s, e).handles.Keys == s.handles.Keys
    ensures forall t | t in s.handles :: C.Apply(s, e).handles[t].response == s.handles[t].response
  {
    C.OnlyTarget(s, e);
    var u := C.Apply(s, e);
    match C.Target(s, e)
    case Some(t) => assert u.handles[t].response == s.handles[t].response;
    case None =>
  }

  lemma PoolOnly(s: W.State<Package>, e: W.Event<Package>)
    requires W.Enabled(s, e) && !e.Append?
    ensures var u := W.Apply(s, e);
            && |u.actors| == |s.actors|
            && (forall a | 0 <= a < |u.actors| && u.actors[a].Checked? :: u.actors[a] == s.actors[a])
            && (forall p | p in u.appended :: p in s.appended
                  || exists a :: 0 <= a < |s.actors| && s.actors[a] == W.Checked(p))
            && |u.appended| == |s.appended| + (if e.Push? then 1 else 0)
            && (!(e.Work? && e.step.Finish?) ==> u.finished == s.finished)
  {
  }

  lemma FinishOnly(s: W.State<Package>, w: nat)
    requires W.Enabled(s, W.Work(w, W.Finish))
    ensures var u := W.Apply(s, W.Work(w, W.Finish)); u.appended == s.appended && u.actors == s.actors
  {
  }

  lemma PipeOnly(s: P.State, l: P.Limits, e: P.Event)
    requires Moves(e) && P.Enabled(s, l, e)
    ensures P.Apply(s, l, e).accepted == s.accepted && P.Apply(s, l, e).delivered == s.delivered
  {
  }

  lemma WriteOnly(s: P.State, l: P.Limits, write: P.Event)
    requires P.Enabled(s, l, write) && P.CleanStep(s, write) && (write.Submit? || write.Reject?)
    ensures P.Apply(s, l, write).accepted == s.accepted + (if Reported(write) then [write.body] else [])
    ensures P.Apply(s, l, write).delivered == s.delivered
  {
  }

  lemma DeliverOnly(s: P.State, l: P.Limits)
    requires P.Inv(s, l) && P.Enabled(s, l, P.Deliver)
    ensures var p, u := Incoming(s), P.Apply(s, l, P.Deliver);
            p in s.accepted && u.accepted == s.accepted && u.delivered == s.delivered + [p]
  {
    P.Outstanding(s, l);
  }

  lemma AppendOnly(s: W.State<Package>, p: Package)
    requires W.Enabled(s, W.Append(0, p))
    ensures var u := W.Apply(s, W.Append(0, p));
            && u.appended == s.appended && u.finished == s.finished && |u.actors| == |s.actors|
            && u.actors[0] == (if s.exit then W.Idle else W.Checked(p))
            && forall a | 1 <= a < |s.actors| :: u.actors[a] == s.actors[a]
  {
  }

  lemma RespondOnly(s: C.State, t: int, r: Bytes)
    requires t in s.handles
    ensures var u := C.AfterRequest(s, t, C.Respond(r));
            && u.handles.Keys == s.handles.Keys
            && (u.handles[t].response == s.handles[t].response || u.handles[t].response == Some(r))
            && forall k | k in s.handles && k != t :: u.handles[k] == s.handles[k]
  {
  }

  lemma RefuseOnly(s: C.State, t: int)
    requires t in s.handles
    ensures var u := C.AfterRequest(s, t, C.Refuse);
            u.handles.Keys == s.handles.Keys
            && forall k | k in s.handles :: u.handles[k].response == s.handles[k].response
  {
  }

  // ----- correlation -----

  lemma ClientMoved(s: State, u: State, sv: Service)
    requires Correlated(s, sv) && u.client.handles.Keys == s.client.handles.Keys
    requires u.requests == s.requests && u.pool == s.pool
    requires u.toServer.accepted == s.toServer.accepted && u.toClient.accepted == s.toClient.accepted
    requires forall t | t in s.client.handles :: u.client.handles[t].response == s.client.handles[t].response
    ensures Correlated(u, sv)
  {
  }

  lemma IssueCorrelated(s: State, u: State, sv: Service, t: int, p: Package)
    requires Correlated(s, sv) && t !in s.client.handles && sv.tag(p) == t
    requires u == s.(client := u.client, requests := s.requests[t := p])
    requires u.client.handles == s.client.handles[t := C.NEW_HANDLE]
    ensures Correlated(u, sv)
  {
  }

  /** A request written is the one with its tag. */
  lemma RequestAdded(s: State, u: State, sv: Service, t: int)
    requires Correlated(s, sv) && t in s.requests
    requires u.requests == s.requests && u.client == s.client && u.pool == s.pool && u.toClient == s.toClient
    requires u.toServer.accepted == s.toServer.accepted + [s.requests[t]]
    ensures Correlated(u, sv)
  {
  }

  lemma SendCorrelated(s: State, sv: Service, l: P.Limits, t: int, write: P.Event)
    requires Correlated(s, sv) && t in s.requests && t in s.client.handles
    requires Writes(write, s.requests[t]) && P.Enabled(s.toServer, l, write) && P.CleanStep(s.toServer, write)
    ensures Correlated(AfterSend(s, l, t, write), sv)
  {
    WriteOnly(s.toServer, l, write);
    if Reported(write) {
      RequestAdded(s, AfterSend(s, l, t, write), sv, t);
    } else {
      RefuseOnly(s.client, t);
      ClientMoved(s, AfterSend(s, l, t, write), sv);
    }
  }

  /** The pool holds no packages but the ones it held and possibly `p`, just checked in. */
  lemma CheckedIn(s: State, u: State, sv: Service, p: Package)
    requires Correlated(s, sv) && Asked(s, sv, p) && Registered(sv, p)
    requires u.requests == s.requests && u.client == s.client && u.toClient.accepted == s.toClient.accepted
    requires u.toServer.accepted == s.toServer.accepted && u.pool.appended == s.pool.appended
    requires |u.pool.actors| == |s.pool.actors|
    requires forall a | 0 <= a < |s.pool.actors| && u.pool.actors[a].Checked? ::
               u.pool.actors[a] == s.pool.actors[a] || u.pool.actors[a].task == p
    ensures Correlated(u, sv)
  {
  }

  lemma HandleCorrelated(s: State, sv: Service, l: P.Limits)
    requires P.Inv(s.toServer, l) && Correlated(s, sv)
    requires P.Enabled(s.toServer, l, P.Deliver) && |s.pool.actors| > 0 && s.pool.actors[0].Idle?
    ensures Correlated(AfterHandle(s, sv, l), sv)
  {
    var p := Incoming(s.toServer);
    DeliverOnly(s.toServer, l);
    if Registered(sv, p) {
      AppendOnly(s.pool, p);
      CheckedIn(s, AfterHandle(s, sv, l), sv, p);
    } else {
      ClientMoved(s, AfterHandle(s, sv, l), sv);
    }
  }

  /** The pool holds no packages but the ones it held. */
  lemma PoolMoved(s: State, u: State, sv: Service)
    requires Correlated(s, sv) && u == s.(pool := u.pool) && |u.pool.actors| == |s.pool.actors|
    requires forall a | 0 <= a < |u.pool.actors| && u.pool.actors[a].Checked? ::
               u.pool.actors[a] == s.pool.actors[a]
    requires forall p | p in u.pool.appended ::
               p in s.pool.appended || exists a :: 0 <= a < |s.pool.actors| && s.pool.actors[a] == W.Checked(p)
    ensures Correlated(u, sv)
  {
    forall p | p in u.pool.appended ensures Asked(u, sv, p) && Registered(sv, p) {
      assert Asked(s, sv, p);
    }
  }

  /** A finished task leaves its package where it was, and possibly the answer to it. */
  lemma AnswerAdded(s: State, u: State, sv: Service, r: Package)
    requires Correlated(s, sv) && Answered(s, sv, r)
    requires u.requests == s.requests && u.client == s.client && u.toServer == s.toServer
    requires u.pool.appended == s.pool.appended && u.pool.actors == s.pool.actors
    requires forall q | q in u.toClient.accepted :: q in s.toClient.accepted || q == r
    ensures Correlated(u, sv)
  {
  }

  lemma AnswerIsAnswered(s: State, sv: Service, l: P.Limits, p: Package)
    requires Correlated(s, sv) && WellBehaved(sv, l) && p in s.pool.appended
    ensures Registered(sv, p) && Answered(s, sv, Answer(sv, p))
  {
    assert Asked(s, sv, p) && Registered(sv, p);
  }

  lemma ExecuteCorrelated(s: State, sv: Service, l: P.Limits, w: nat, write: P.Event)
    requires Correlated(s, sv) && WellBehaved(sv, l) && W.Enabled(s.pool, W.Work(w, W.Finish))
    requires s.pool.workers[w].i < |s.pool.appended| && Registered(sv, s.pool.appended[s.pool.workers[w].i])
    requires |Answer(sv, s.pool.appended[s.pool.workers[w].i])| < HALF_WORD
    requires Writes(write, Answer(sv, s.pool.appended[s.pool.workers[w].i]))
    requires P.Enabled(s.toClient, l, write) && P.CleanStep(s.toClient, write)
    ensures Correlated(AfterExecute(s, sv, l, w, write), sv)
  {
    AnswerIsAnswered(s, sv, l, s.pool.appended[s.pool.workers[w].i]);
    FinishOnly(s.pool, w);
    WriteOnly(s.toClient, l, write);
    AnswerAdded(s, AfterExecute(s, sv, l, w, write), sv, write.body);
  }

  /** The client holds no responses but the ones it held and possibly `r`, for its own tag. */
  lemma CameBack(s: State, u: State, sv: Service, r: Package)
    requires Correlated(s, sv) && Answered(s, sv, r)
    requires u.requests == s.requests && u.pool == s.pool && u.toServer == s.toServer
    requires u.toClient.accepted == s.toClient.accepted
    requires u.client.handles.Keys == s.client.handles.Keys
    requires forall t | t in s.client.handles && u.client.handles[t].response.Some? ::
               u.client.handles[t].response == s.client.handles[t].response
               || (t == sv.tag(r) && u.client.handles[t].response == Some(r))
    ensures Correlated(u, sv)
  {
  }

  lemma ResponseCorrelated(s: State, sv: Service, l: P.Limits)
    requires P.Inv(s.toClient, l) && Correlated(s, sv) && P.Enabled(s.toClient, l, P.Deliver)
    ensures Correlated(AfterResponse(s, sv, l), sv)
  {
    var r := Incoming(s.toClient);
    DeliverOnly(s.toClient, l);
    if Mapped(s.client, sv.tag(r)) {
      RespondOnly(s.client, sv.tag(r), r);
    }
    CameBack(s, AfterResponse(s, sv, l), sv, r);
  }

  lemma StepCorrelated(s: State, sv: Service, l: P.Limits, e: Event)
    requires Parts(s, l) && Correlated(s, sv) && WellBehaved(sv, l) && Enabled(s, sv, l, e) && CleanStep(s, e)
    ensures Correlated(Apply(s, sv, l, e), sv)
  {
    match e
    case Issue(t, p) => IssueCorrelated(s, Apply(s, sv, l, e), sv, t, p);
    case SendRequest(t, write) => SendCorrelated(s, sv, l, t, write);
    case ClientStep(ce) =>
      ClientOnly(s.client, ce);
      ClientMoved(s, Apply(s, sv, l, e), sv);
    case ToServerStep(pe) =>
      PipeOnly(s.toServer, l, pe);
      ClientMoved(s, Apply(s, sv, l, e), sv);
    case HandleRequest => HandleCorrelated(s, sv, l);
    case PoolStep(we) =>
      PoolOnly(s.pool, we);
      PoolMoved(s, Apply(s, sv, l, e), sv);
    case Execute(w, write) => ExecuteCorrelated(s, sv, l, w, write);
    case ToClientStep(pe) =>
      PipeOnly(s.toClient, l, pe);
      ClientMoved(s, Apply(s, sv, l, e), sv);
    case HandleResponse => ResponseCorrelated(s, sv, l);
  }

  /** What a response makes of the handle the tag map had for it: a waiting request is settled and
      holds exactly these bytes; one that has timed out stays as it was. */
  predicate Settles(r: Package, h: C.Handle, k: C.Handle) {
    && !k.mapped && k.requester == h.requester && k.timer == h.timer
    && (h.status.Waiting? ==> k.status.Done? && k.response == Some(r))
    && (h.status.Waiting? && |r| <= C.CAPACITY ==> k.buffer == r)
    && (h.status.TimedOut? ==> k.status.TimedOut? && k.response == h.response)
  }

  /** What the client does with a response: it goes to the handle the tag map has for its tag, and
      if that waits, its tag is about to be notified; a response that nobody has asked for changes
      nothing. */
  lemma ResponseHandled(s: State, sv: Service, l: P.Limits)
    requires P.Enabled(s.toClient, l, P.Deliver) && P.Inv(s.toClient, l) && s.client.io.IoIdle?
    ensures Enabled(s, sv, l, HandleResponse)
    ensures var r, u := Incoming(s.toClient), Apply(s, sv, l, HandleResponse);
            var t := sv.tag(r);
            && u.toClient.delivered == s.toClient.delivered + [r] && u.client.handles.Keys == s.client.handles.Keys
            && (forall k | k in s.client.handles && k != t :: u.client.handles[k] == s.client.handles[k])
            && (Mapped(s.client, t) ==> Settles(r, s.client.handles[t], u.client.handles[t]))
            && (Mapped(s.client, t) && s.client.handles[t].status.Waiting? ==> u.client.io == C.IoFlag(t))
            && (Mapped(s.client, t) && s.client.handles[t].status.TimedOut? ==> u.client.io == s.client.io)
            && (!Mapped(s.client, t) ==> u.client == s.client)
  {
    DeliverOnly(s.toClient, l);
  }

  // ----- conservation of requests -----

  lemma PoolBalanced(s: State, we: W.Event<Package>)
    requires Balanced(s) && W.Enabled(s.pool, we) && !we.Append? && !(we.Work? && we.step.Finish?)
    ensures Balanced(s.(pool := W.Apply(s.pool, we)))
  {
    PoolOnly(s.pool, we);
  }

  lemma ExecuteBalanced(s: State, sv: Service, l: P.Limits, w: nat, write: P.Event)
    requires Balanced(s) && W.Inv(s.pool) && W.Enabled(s.pool, W.Work(w, W.Finish))
    requires P.Enabled(s.toClient, l, write) && P.CleanStep(s.toClient, write) && (write.Submit? || write.Reject?)
    ensures Balanced(AfterExecute(s, sv, l, w, write))
  {
    W.FinishedOnce(s.pool, w);
    FinishOnly(s.pool, w);
    WriteOnly(s.toClient, l, write);
  }

  lemma HandleBalanced(s: State, sv: Service, l: P.Limits)
    requires Balanced(s) && P.Inv(s.toServer, l)
    requires P.Enabled(s.toServer, l, P.Deliver) && |s.pool.actors| > 0 && s.pool.actors[0].Idle?
    ensures Balanced(AfterHandle(s, sv, l))
  {
    DeliverOnly(s.toServer, l);
    AppendOnly(s.pool, Incoming(s.toServer));
  }

  lemma ResponseBalanced(s: State, sv: Service, l: P.Limits)
    requires Balanced(s) && P.Inv(s.toClient, l) && P.Enabled(s.toClient, l, P.Deliver)
    ensures Balanced(AfterResponse(s, sv, l))
  {
    DeliverOnly(s.toClient, l);
    SameBalance(s, AfterResponse(s, sv, l));
  }

  /** Steps that touch none of what is counted. */
  lemma SameBalance(s: State, u: State)
    requires Balanced(s)
    requires u.pool == s.pool && u.unhandled == s.unhandled && u.rejected == s.rejected
    requires u.responses == s.responses && u.dropped == s.dropped
    requires u.toServer.delivered == s.toServer.delivered && u.toClient.accepted == s.toClient.accepted
    ensures Balanced(u)
  {
  }

  lemma SendBalanced(s: State, l: P.Limits, t: int, write: P.Event)
    requires Balanced(s) && P.Enabled(s.toServer, l, write) && t in s.client.handles
    requires write.Submit? || write.Reject?
    ensures Balanced(AfterSend(s, l, t, write))
  {
    SameBalance(s, AfterSend(s, l, t, write));
  }

  lemma StepBalanced(s: State, sv: Service, l: P.Limits, e: Event)
    requires Balanced(s) && Parts(s, l) && Enabled(s, sv, l, e) && CleanStep(s, e)
    ensures Balanced(Apply(s, sv, l, e))
  {
    match e
    case Issue(_, _) => SameBalance(s, Apply(s, sv, l, e));
    case SendRequest(t, write) => SendBalanced(s, l, t, write);
    case ClientStep(_) => SameBalance(s, Apply(s, sv, l, e));
    case ToServerStep(pe) =>
      PipeOnly(s.toServer, l, pe);
      SameBalance(s, Apply(s, sv, l, e));
    case HandleRequest => HandleBalanced(s, sv, l);
    case PoolStep(we) => PoolBalanced(s, we);
    case Execute(w, write) => ExecuteBalanced(s, sv, l, w, write);
    case ToClientStep(pe) =>
      PipeOnly(s.toClient, l, pe);
      SameBalance(s, Apply(s, sv, l, e));
    case HandleResponse => ResponseBalanced(s, sv, l);
  }

  // ----- every run -----

  lemma {:induction false} RunInv(s: State, sv: Service, l: P.Limits, es: seq<Event>, u: State)
    requires Inv(s, sv, l) && WellBehaved(sv, l) && l.Roomy() && IsRun(s, sv, l, es, u)
    requires CleanRun(s, sv, l, es)
    ensures Inv(u, sv, l)
    decreases |es|
  {
    if |es| != 0 {
      StepParts(s, sv, l, es[0]);
      StepCorrelated(s, sv, l, es[0]);
      StepBalanced(s, sv, l, es[0]);
      RunInv(Apply(s, sv, l, es[0]), sv, l, es[1..], u);
    }
  }

  /** Some run in which no write leaves part of a package behind leads there. */
  ghost predicate Leads(s: State, sv: Service, l: P.Limits, u: State) {
    exists es :: IsRun(s, sv, l, es, u) && CleanRun(s, sv, l, es)
  }

  lemma LeadsSelf(s: State, sv: Service, l: P.Limits)
    ensures Leads(s, sv, l, s)
  {
    assert IsRun(s, sv, l, [], s) && CleanRun(s, sv, l, []);
  }

  lemma LeadsAfter(s: State, sv: Service, l: P.Limits, e: Event, u: State)
    requires Enabled(s, sv, l, e) && CleanStep(s, e) && Leads(Apply(s, sv, l, e), sv, l, u)
    ensures Leads(s, sv, l, u)
  {
    var es :| IsRun(Apply(s, sv, l, e), sv, l, es, u) && CleanRun(Apply(s, sv, l, e), sv, l, es);
    LeadsCons(s, sv, l, e, es, u);
  }

  lemma LeadsCons(s: State, sv: Service, l: P.Limits, e: Event, es: seq<Event>, u: State)
    requires Enabled(s, sv, l, e) && CleanStep(s, e)
    requires IsRun(Apply(s, sv, l, e), sv, l, es, u) && CleanRun(Apply(s, sv, l, e), sv, l, es)
    ensures Leads(s, sv, l, u)
  {
    var all := [e] + es;
    assert all[0] == e && all[1..] == es;
    assert IsRun(s, sv, l, all, u) && CleanRun(s, sv, l, all);
  }

  lemma InitialInv(s: State, sv: Service, l: P.Limits)
    requires Initial(s)
    ensures Inv(s, sv, l)
  {
    P.InitInv(l);
    W.InitialInv(s.pool);
  }

  /** What a request that has returned brings back: bytes are always the answer to its own
      payload `p`; the whole answer if it came in time and has at most 2047 bytes; nothing
      after a timeout. */
  predicate Delivers(h: C.Handle, sv: Service, p: Package)
    requires h.requester.Returned?
  {
    && (h.requester.length > 0 ==>
          Registered(sv, p) && h.requester.length == |Answer(sv, p)| <= C.CAPACITY)
    && (h.requester.length > 0 && h.requester.copied.Some? ==>
          h.requester.copied.value == Answer(sv, p))
    && (h.status.Done? ==>
          Registered(sv, p)
          && (h.requester == C.Returned(|Answer(sv, p)|, Some(Answer(sv, p))) <==> |Answer(sv, p)| < C.CAPACITY))
    && (h.status.TimedOut? ==> h.requester == C.Returned(0, None))
  }

  lemma ReturnedAnswer(u: State, sv: Service, t: int)
    requires C.Inv(u.client) && Correlated(u, sv)
    requires t in u.client.handles && u.client.handles[t].requester.Returned?
    ensures t in u.requests && sv.tag(u.requests[t]) == t
    ensures Delivers(u.client.handles[t], sv, u.requests[t])
  {
    C.ReadExact(u.client, t);
    assert C.Sound(u.client.handles[t]);
  }

  /** In every run, however the bytes are cut, the workers scheduled and the timers fire: a
      request that returns bytes returns the registered function's answer to the payload sent
      with its own tag, and it returns them whenever the answer arrived in time and has at most
      2047 bytes. */
  lemma EveryAnswerIsItsOwn(s: State, sv: Service, l: P.Limits, es: seq<Event>, u: State, t: int)
    requires WellBehaved(sv, l) && l.Roomy() && Initial(s) && IsRun(s, sv, l, es, u)
    requires CleanRun(s, sv, l, es)
    requires t in u.client.handles && u.client.handles[t].requester.Returned?
    ensures t in u.requests && sv.tag(u.requests[t]) == t
    ensures Delivers(u.client.handles[t], sv, u.requests[t])
  {
    InitialInv(s, sv, l);
    RunInv(s, sv, l, es, u);
    ReturnedAnswer(u, sv, t);
  }

  /** Every request the server decoded is accounted for, and no response is sent for a request
      that was not received. */
  lemma RequestsConserved(s: State, sv: Service, l: P.Limits, es: seq<Event>, u: State)
    requires WellBehaved(sv, l) && l.Roomy() && Initial(s) && IsRun(s, sv, l, es, u)
    requires CleanRun(s, sv, l, es)
    ensures |u.toServer.delivered| ==
              u.unhandled + u.rejected + InAppend(u) + |u.pool.queue| + W.Sum(W.Load, u.pool.workers)
              + |u.pool.cleared| + u.responses + u.dropped
    ensures u.responses <= |u.toServer.delivered|
    ensures u.toServer.delivered <= u.toServer.accepted && u.toClient.delivered <= u.toClient.accepted
  {
    InitialInv(s, sv, l);
    RunInv(s, sv, l, es, u);
    P.Outstanding(u.toServer, l);
    P.Outstanding(u.toClient, l);
  }
}
