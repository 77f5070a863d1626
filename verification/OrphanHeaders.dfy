/** What a refused request does to the others if it leaves an orphan header behind. */
module OrphanHeaders {
  import opened Wrappers
  import opened Frames
  import P = Pipe
  import W = ThreadPool
  import C = Rendezvous
  import opened EndToEnd

  // ----- the pipe to the server as a part of the whole -----

  /** The socket thread of the server waits for the next block. */
  predicate Ready(s: State) {
    |s.pool.actors| > 0 && s.pool.actors[0].Idle?
  }

  /** The pipe has moved on to `p`; the client has done nothing. */
  predicate Advanced(s: State, u: State, p: P.State) {
    u.toServer == p && u.client == s.client && u.requests == s.requests && u.sent == s.sent && Ready(u)
  }

  lemma PoolRound(s: State, sv: Service, l: P.Limits) returns (u: State)
    requires |s.pool.actors| > 0 && s.pool.actors[0].Checked?
    ensures Advanced(s, u, s.toServer)
    ensures forall z | Leads(u, sv, l, z) :: Leads(s, sv, l, z)
  {
    var a := s.(pool := W.Apply(s.pool, W.Push(0)));
    var b := a.(pool := W.Apply(a.pool, W.Flag(0)));
    u := b.(pool := W.Apply(b.pool, W.Notify(0)));
    forall z | Leads(u, sv, l, z) ensures Leads(s, sv, l, z) {
      LeadsAfter(b, sv, l, PoolStep(W.Notify(0)), z);
      LeadsAfter(a, sv, l, PoolStep(W.Flag(0)), z);
      LeadsAfter(s, sv, l, PoolStep(W.Push(0)), z);
    }
  }

  lemma HandleRound(s: State, sv: Service, l: P.Limits) returns (u: State)
    requires P.Enabled(s.toServer, l, P.Deliver) && Ready(s)
    ensures Advanced(s, u, P.Apply(s.toServer, l, P.Deliver))
    ensures forall z | Leads(u, sv, l, z) :: Leads(s, sv, l, z)
  {
    var a := AfterHandle(s, sv, l);
    u := a;
    if a.pool.actors[0].Checked? {
      u := PoolRound(a, sv, l);
    }
    forall z | Leads(u, sv, l, z) ensures Leads(s, sv, l, z) {
      LeadsAfter(s, sv, l, HandleRequest, z);
    }
  }

  lemma OneMove(s: State, sv: Service, l: P.Limits, e: P.Event) returns (u: State)
    requires P.Enabled(s.toServer, l, e) && P.Moves(e) && Ready(s)
    ensures Advanced(s, u, P.Apply(s.toServer, l, e))
    ensures forall z | Leads(u, sv, l, z) :: Leads(s, sv, l, z)
  {
    if e.Deliver? {
      u := HandleRound(s, sv, l);
    } else {
      u := s.(toServer := P.Apply(s.toServer, l, e));
      forall z | Leads(u, sv, l, z) ensures Leads(s, sv, l, z) {
        LeadsAfter(s, sv, l, ToServerStep(e), z);
      }
    }
  }

  /** Whatever the pipe can do by itself it can do as a part of the whole. */
  lemma {:induction false} Lifted(s: State, sv: Service, l: P.Limits, es: seq<P.Event>, p: P.State) returns (u: State)
    requires P.IsRun(s.toServer, l, es, p) && (forall i | 0 <= i < |es| :: P.Moves(es[i])) && Ready(s)
    ensures Advanced(s, u, p)
    ensures forall z | Leads(u, sv, l, z) :: Leads(s, sv, l, z)
    decreases |es|
  {
    if |es| == 0 {
      u := s;
    } else {
      var v := OneMove(s, sv, l, es[0]);
      u := Lifted(v, sv, l, es[1..], p);
    }
  }

  lemma LiftedTo(s: State, sv: Service, l: P.Limits, p: P.State) returns (u: State)
    requires P.Reaches(s.toServer, l, p) && Ready(s)
    ensures Advanced(s, u, p)
    ensures forall z | Leads(u, sv, l, z) :: Leads(s, sv, l, z)
  {
    var es :| P.IsRun(s.toServer, l, es, p) && forall i | 0 <= i < |es| :: P.Moves(es[i]);
    u := Lifted(s, sv, l, es, p);
  }

  // ----- the misled server -----

  lemma SendFiller(s: State, sv: Service, l: P.Limits, t: int, p: Package) returns (u: State)
    requires t !in s.client.handles && t != C.NO_TAG && t !in s.sent && sv.tag(p) == t && Ready(s)
    requires P.Enabled(s.toServer, l, P.Submit(p))
    ensures u.toServer == P.Apply(s.toServer, l, P.Submit(p)) && Ready(u)
    ensures forall z | Leads(u, sv, l, z) :: Leads(s, sv, l, z)
  {
    var a := Apply(s, sv, l, Issue(t, p));
    u := Apply(a, sv, l, SendRequest(t, P.Submit(p)));
    forall z | Leads(u, sv, l, z) ensures Leads(s, sv, l, z) {
      LeadsAfter(a, sv, l, SendRequest(t, P.Submit(p)), z);
      LeadsAfter(s, sv, l, Issue(t, p), z);
    }
  }

  lemma OrphanReaches(s: State, sv: Service, l: P.Limits, v: P.State, k: nat) returns (u: State)
    requires l.Roomy() && k < HALF_WORD && HEADER_SIZE + k <= l.maxFrame && HEADER_SIZE + k <= l.sendCapacity
    requires P.Inv(v, l) && s.toServer == v.(sendCache := v.sendCache + Header(k)) && Ready(s)
    requires k > 0 ==>
               var t := sv.tag(P.Filler(k)); t !in s.client.handles && t != C.NO_TAG && t !in s.sent
    ensures Leads(s, sv, l, u) && !(u.toServer.delivered <= u.toServer.accepted)
  {
    P.OrphanStream(v, l, k);
    if k == 0 {
      var p := P.CanDeliverAll(s.toServer, l, v.accepted + [[]], []);
      u := LiftedTo(s, sv, l, p);
      P.NotPrefix(v.accepted, [], p.accepted);
    } else {
      var p := P.CanDeliverAll(s.toServer, l, v.accepted, Header(k));
      var a := LiftedTo(s, sv, l, p);
      u := FillerReaches(a, sv, l, k);
    }
    LeadsSelf(u, sv, l);
  }

  lemma FillerReaches(a: State, sv: Service, l: P.Limits, k: nat) returns (u: State)
    requires 1 <= k < HALF_WORD && l.Roomy() && a.toServer.sendCache == [] && Ready(a)
    requires HEADER_SIZE + k <= l.maxFrame && HEADER_SIZE + k <= l.sendCapacity
    requires P.Stream(a.toServer, l, a.toServer.accepted, Header(k))
    requires var t := sv.tag(P.Filler(k)); t !in a.client.handles && t != C.NO_TAG && t !in a.sent
    ensures !(u.toServer.delivered <= u.toServer.accepted)
    ensures forall z | Leads(u, sv, l, z) :: Leads(a, sv, l, z)
  {
    var f, g := P.Filler(k), Frame(P.Filler(k))[..k];
    P.FillerSubmitted(a.toServer, l, k);
    var b := SendFiller(a, sv, l, sv.tag(f), f);
    var p := P.CanDeliverAll(b.toServer, l, a.toServer.accepted + [g], Frame(f)[k..]);
    u := LiftedTo(b, sv, l, p);
    P.NotPrefix(a.toServer.accepted, g, p.accepted);
  }

  /** The request of tag `t` is refused. As in `Pipe.RejectIff` it is one that an empty cache would
      take, and meets the head with neither of its writes; the tag of the filler is free. */
  ghost predicate Refusal(s: State, sv: Service, l: P.Limits, t: int, ok: bool, after: Bytes) {
    && t in s.requests && Ready(s)
    && (var body, free := s.requests[t], l.sendCapacity - |s.toServer.sendCache|;
        && Enabled(s, sv, l, SendRequest(t, P.Reject(body, ok, after)))
        && |Frame(body)| <= l.maxFrame && |Frame(body)| <= l.sendCapacity
        && free != HEADER_SIZE && (free != |Frame(body)| || body == []))
    && (var r := sv.tag(P.Filler(|s.requests[t]|));
        r !in s.client.handles && r != C.NO_TAG && r !in s.sent)
  }

  function Refused(s: State, l: P.Limits, t: int, ok: bool, after: Bytes): State
    requires t in s.requests && t in s.client.handles
    requires P.Enabled(s.toServer, l, P.Reject(s.requests[t], ok, after))
  {
    AfterSend(s, l, t, P.Reject(s.requests[t], ok, after))
  }

  lemma CleanRefusal(s: State, sv: Service, l: P.Limits, t: int, ok: bool, after: Bytes)
    requires Inv(s, sv, l) && l.Roomy() && Refusal(s, sv, l, t, ok, after)
    requires l.sendCapacity - |s.toServer.sendCache| < HEADER_SIZE
    ensures Inv(Refused(s, l, t, ok, after), sv, l)
  {
    var write := P.Reject(s.requests[t], ok, after);
    SendParts(s, l, t, write);
    SendCorrelated(s, sv, l, t, write);
    SendBalanced(s, l, t, write);
  }

  lemma OrphanRefusal(s: State, sv: Service, l: P.Limits, t: int, ok: bool, after: Bytes) returns (u: State)
    requires P.Inv(s.toServer, l) && l.Roomy() && Refusal(s, sv, l, t, ok, after)
    requires l.sendCapacity - |s.toServer.sendCache| >= HEADER_SIZE
    ensures Leads(Refused(s, l, t, ok, after), sv, l, u) && !(u.toServer.delivered <= u.toServer.accepted)
  {
    RefuseKeys(s.client, t);
    u := OrphanReaches(Refused(s, l, t, ok, after), sv, l, s.toServer, |s.requests[t]|);
  }

  /** A refused request does no harm if and only if not even its header fitted. Otherwise the
      server can come to decode a package that no client wrote: the requests delivered need no
      longer be a prefix of those sent. */
  lemma RefusedIff(s: State, sv: Service, l: P.Limits, t: int, ok: bool, after: Bytes)
    requires Inv(s, sv, l) && l.Roomy() && WellBehaved(sv, l) && Refusal(s, sv, l, t, ok, after)
    ensures (forall u | Leads(Refused(s, l, t, ok, after), sv, l, u) :: u.toServer.delivered <= u.toServer.accepted)
            <==> l.sendCapacity - |s.toServer.sendCache| < HEADER_SIZE
  {
    var v := Refused(s, l, t, ok, after);
    if l.sendCapacity - |s.toServer.sendCache| < HEADER_SIZE {
      CleanRefusal(s, sv, l, t, ok, after);
      forall u | Leads(v, sv, l, u) ensures u.toServer.delivered <= u.toServer.accepted {
        PrefixAfter(v, sv, l, u);
      }
    } else {
      var u := OrphanRefusal(s, sv, l, t, ok, after);
    }
  }

  lemma RefuseKeys(c: C.State, t: int)
    requires t in c.handles
    ensures C.AfterRequest(c, t, C.Refuse).handles.Keys == c.handles.Keys
  {
  }

  lemma PrefixAfter(v: State, sv: Service, l: P.Limits, u: State)
    requires Inv(v, sv, l) && l.Roomy() && WellBehaved(sv, l) && Leads(v, sv, l, u)
    ensures u.toServer.delivered <= u.toServer.accepted
  {
    var es :| IsRun(v, sv, l, es, u) && CleanRun(v, sv, l, es);
    RunInv(v, sv, l, es, u);
    P.Outstanding(u.toServer, l);
  }
}
