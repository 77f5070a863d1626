/** One direction of a connection as a step system: packages written into a send cache, moved
    in arbitrary pieces by a non-blocking sender over the wire, received in blocks into the
    other side's cache and cut into packages again. A package that does not fit whole is
    rejected, which may leave part of it behind. */
module Pipe {
  import opened Wrappers
  import opened Frames
  import RingBuffer

  const BLOCK_SIZE: nat := 2048

  /** The capacities of the two caches and a bound on every frame that is sent. */
  datatype Limits = Limits(sendCapacity: nat, recvCapacity: nat, maxFrame: nat)
  {
    predicate Roomy() {
      maxFrame > 0 && recvCapacity >= maxFrame + BLOCK_SIZE
    }
  }

  /** Where `write_socket` stands: before the peek, between peek and send, or between send and
      the read that removes what was sent. Packages may be appended at any of these points. */
  datatype Sender = AtPeek | Peeked(block: Bytes) | Sent(n: nat)

  datatype State = State(
    accepted: seq<Package>,
    sendCache: Bytes,
    sender: Sender,
    wire: Bytes,
    recvCache: Bytes,
    draining: bool,
    delivered: seq<Package>)

  /** `Submit` and `Reject` are the calls of `write_package` that append a frame and all others;
      a rejection may nevertheless report success. */
  datatype Event =
    | Submit(body: Package)
    | Reject(body: Package, ok: bool, after: Bytes)
    | Peek
    | Send(n: nat)
    | Remove
    | Receive(n: nat, after: Bytes)
    | Deliver
    | Drained

  const INIT := State([], [], AtPeek, [], [], false, [])

  function FirstBlock(s: Bytes): Bytes {
    if |s| <= BLOCK_SIZE then s else s[..BLOCK_SIZE]
  }

  /** The front of the send cache that a read of `n` bytes removes. */
  function Removed(s: State, n: nat): nat {
    if n <= |s.sendCache| then n else |s.sendCache|
  }

  predicate Sendable(p: Package, l: Limits) {
    1 <= |p| && |Frame(p)| <= l.maxFrame
  }

  predicate Enabled(s: State, l: Limits, e: Event) {
    match e
    case Submit(body) => Sendable(body, l) && |s.sendCache| + |Frame(body)| <= l.sendCapacity
    case Reject(body, ok, after) => RingBuffer.RejectOutcome(l.sendCapacity, s.sendCache, body, ok, after)
    case Peek => s.sender.AtPeek?
    case Send(n) => s.sender.Peeked? && n <= |s.sender.block|
    case Remove => s.sender.Sent?
    case Receive(n, after) =>
      !s.draining && n <= BLOCK_SIZE && n <= |s.wire|
      && RingBuffer.WriteOutcome(l.recvCapacity, s.recvCache, s.wire[..n], after)
    case Deliver => s.draining && NextPackage(s.recvCache).Some?
    case Drained => s.draining && NextPackage(s.recvCache).None?
  }

  function Apply(s: State, l: Limits, e: Event): State
    requires Enabled(s, l, e)
  {
    match e
    case Submit(body) => s.(sendCache := s.sendCache + Frame(body), accepted := s.accepted + [body])
    case Reject(_, _, after) => s.(sendCache := after)
    case Peek => s.(sender := Peeked(FirstBlock(s.sendCache)))
    case Send(n) =>
      s.(wire := s.wire + s.sender.block[..n], sender := if n > 0 then Sent(n) else AtPeek)
    case Remove => s.(sendCache := s.sendCache[Removed(s, s.sender.n)..], sender := AtPeek)
    case Receive(n, after) => s.(wire := s.wire[n..], recvCache := after, draining := true)
    case Deliver =>
      var body := NextPackage(s.recvCache).value;
      s.(recvCache := s.recvCache[|Frame(body)|..], delivered := s.delivered + [body])
    case Drained => s.(draining := false)
  }

  /** A rejection that says so and leaves the send cache as it was. */
  predicate CleanStep(s: State, e: Event) {
    e.Reject? ==> !e.ok && e.after == s.sendCache
  }

  /** What sender and receiver do by themselves. */
  predicate Moves(e: Event) {
    !e.Submit? && !e.Reject?
  }

  /** The bytes of the send cache that are not yet on the wire. */
  function Unsent(s: State): Bytes {
    if s.sender.Sent? then s.sendCache[Removed(s, s.sender.n)..] else s.sendCache
  }

  /** The bytes delivered and in transit are the frames of `ps`, and behind them a `tail` too
      short for a package. */
  ghost predicate Stream(s: State, l: Limits, ps: seq<Package>, tail: Bytes) {
    && EncodeAll(s.delivered) + (s.recvCache + (s.wire + Unsent(s))) == EncodeAll(ps) + tail
    && Inert(tail) && (tail != [] ==> HEADER_SIZE < l.maxFrame)
    && (forall p | p in ps :: |Frame(p)| <= l.maxFrame)
    && (s.sender.Peeked? ==> s.sender.block <= s.sendCache)
    && (s.sender.Sent? ==> s.sender.n <= |s.sendCache|)
    && (!s.draining ==> NextPackage(s.recvCache).None?)
  }

  /** The stream is that of the accepted packages. */
  ghost predicate Inv(s: State, l: Limits) {
    Stream(s, l, s.accepted, []) && forall p | p in s.accepted :: 1 <= |p|
  }

  lemma StreamOutstanding(s: State, l: Limits, ps: seq<Package>, tail: Bytes)
    requires Stream(s, l, ps, tail)
    ensures s.delivered <= ps
    ensures s.recvCache + (s.wire + Unsent(s)) == EncodeAll(ps[|s.delivered|..]) + tail
    ensures NextPackage(s.recvCache).Some? ==>
              |s.delivered| < |ps| && NextPackage(s.recvCache).value == ps[|s.delivered|]
    ensures !s.draining ==> |s.recvCache| < l.maxFrame || s.recvCache == []
  {
    PrefixCode(s.delivered, s.recvCache + (s.wire + Unsent(s)), ps, tail);
    var rest := ps[|s.delivered|..];
    CutTail(s.recvCache, s.wire + Unsent(s), rest, tail);
    if rest != [] {
      assert rest[0] == ps[|s.delivered|];
      assert rest[0] in ps;
    }
  }

  /** Every byte between the delivered packages and the end of the accepted stream belongs to
      the frames still outstanding; delivery never runs ahead, out of order or astray. */
  lemma Outstanding(s: State, l: Limits)
    requires Inv(s, l)
    ensures s.delivered <= s.accepted
    ensures s.recvCache + (s.wire + Unsent(s)) == EncodeAll(s.accepted[|s.delivered|..])
    ensures |s.recvCache| >= HEADER_SIZE ==> HasMagic(s.recvCache) && !UndefinedHeader(s.recvCache)
    ensures NextPackage(s.recvCache).Some? ==>
              |s.delivered| < |s.accepted|
              && NextPackage(s.recvCache).value == s.accepted[|s.delivered|]
    ensures !s.draining ==> |s.recvCache| < l.maxFrame || s.recvCache == []
  {
    StreamOutstanding(s, l, s.accepted, []);
    var rest := EncodeAll(s.accepted[|s.delivered|..]);
    assert rest + [] == rest;
    CutStream(s.recvCache, s.wire + Unsent(s), s.accepted[|s.delivered|..]);
  }

  /** With caches of the required size a block received after a complete drain is never
      refused and never collapses the cache. */
  lemma NoDrop(s: State, l: Limits, ps: seq<Package>, tail: Bytes, n: nat, after: Bytes)
    requires Stream(s, l, ps, tail) && l.Roomy()
    requires Enabled(s, l, Receive(n, after))
    ensures after == s.recvCache + s.wire[..n]
  {
    StreamOutstanding(s, l, ps, tail);
  }

  lemma InitInv(l: Limits)
    ensures Inv(INIT, l)
  {
  }

  lemma Regrouped(a: Bytes, b: Bytes, c: Bytes, d: Bytes, e: Bytes)
    ensures a + (b + (c + (d + e))) == a + (b + (c + d)) + e
  {
    assert c + (d + e) == c + d + e;
    assert b + (c + d + e) == b + (c + d) + e;
  }

  /** Bytes appended to the send cache are appended to the stream. */
  lemma Appended(s: State, t: State, more: Bytes)
    requires t == s.(sendCache := s.sendCache + more, accepted := t.accepted)
    requires s.sender.Sent? ==> s.sender.n <= |s.sendCache|
    ensures EncodeAll(t.delivered) + (t.recvCache + (t.wire + Unsent(t)))
         == EncodeAll(s.delivered) + (s.recvCache + (s.wire + Unsent(s))) + more
  {
    assert Unsent(t) == Unsent(s) + more;
    Regrouped(EncodeAll(s.delivered), s.recvCache, s.wire, Unsent(s), more);
  }

  lemma SubmitInv(s: State, l: Limits, body: Package)
    requires Inv(s, l) && Enabled(s, l, Submit(body))
    ensures Inv(Apply(s, l, Submit(body)), l)
  {
    var t := Apply(s, l, Submit(body));
    EncodeAllAppend(s.accepted, body);
    Appended(s, t, Frame(body));
    assert EncodeAll(s.accepted) + [] == EncodeAll(s.accepted);
    assert EncodeAll(t.accepted) + [] == EncodeAll(t.accepted);
  }

  lemma SentOn(a: Bytes, b: Bytes, c: Bytes, d: Bytes)
    ensures a + (b + c + d) == a + (b + (c + d))
  {
    assert b + c + d == b + (c + d);
  }

  lemma TakenIn(a: Bytes, b: Bytes, c: Bytes, d: Bytes)
    ensures a + b + (c + d) == a + (b + c + d)
  {
    assert b + c + d == b + (c + d);
  }

  lemma SendInv(s: State, l: Limits, ps: seq<Package>, tail: Bytes, n: nat)
    requires Stream(s, l, ps, tail) && Enabled(s, l, Send(n))
    ensures Stream(Apply(s, l, Send(n)), l, ps, tail)
  {
    var t := Apply(s, l, Send(n));
    Split(s.sendCache, n, s.sender.block);
    var sent, rest := s.sender.block[..n], s.sendCache[n..];
    assert Unsent(t) == rest && Unsent(s) == sent + rest;
    SentOn(s.recvCache, s.wire, sent, rest);
  }

  lemma Split(b: Bytes, n: nat, front: Bytes)
    requires n <= |front| && front <= b
    ensures b == front[..n] + b[n..]
  {
  }

  lemma ReceiveInv(s: State, l: Limits, ps: seq<Package>, tail: Bytes, n: nat, after: Bytes)
    requires Stream(s, l, ps, tail) && l.Roomy() && Enabled(s, l, Receive(n, after))
    ensures Stream(Apply(s, l, Receive(n, after)), l, ps, tail)
  {
    NoDrop(s, l, ps, tail, n, after);
    var first, rest := s.wire[..n], s.wire[n..];
    assert s.wire == first + rest;
    TakenIn(s.recvCache, first, rest, Unsent(s));
  }

  lemma DeliverInv(s: State, l: Limits, ps: seq<Package>, tail: Bytes)
    requires Stream(s, l, ps, tail) && Enabled(s, l, Deliver)
    ensures Stream(Apply(s, l, Deliver), l, ps, tail)
  {
    var t := Apply(s, l, Deliver);
    var body := NextPackage(s.recvCache).value;
    NextPackageIff(s.recvCache, body);
    EncodeAllAppend(s.delivered, body);
    assert s.recvCache == Frame(body) + t.recvCache;
    TakenIn(EncodeAll(s.delivered), Frame(body), t.recvCache, s.wire + Unsent(s));
  }

  /** What sender and receiver do keeps the stream, whatever it is. */
  lemma MoveKeeps(s: State, l: Limits, ps: seq<Package>, tail: Bytes, e: Event)
    requires Stream(s, l, ps, tail) && l.Roomy() && Enabled(s, l, e) && Moves(e)
    ensures Stream(Apply(s, l, e), l, ps, tail)
  {
    match e
    case Peek =>
    case Send(n) => SendInv(s, l, ps, tail, n);
    case Remove =>
    case Receive(n, after) => ReceiveInv(s, l, ps, tail, n, after);
    case Deliver => DeliverInv(s, l, ps, tail);
    case Drained =>
  }

  lemma StepInv(s: State, l: Limits, e: Event)
    requires Inv(s, l) && l.Roomy() && Enabled(s, l, e) && CleanStep(s, e)
    ensures Inv(Apply(s, l, e), l)
  {
    match e
    case Submit(body) => SubmitInv(s, l, body);
    case Reject(_, _, _) =>
    case _ => MoveKeeps(s, l, s.accepted, [], e);
  }

  ghost predicate IsRun(s: State, l: Limits, es: seq<Event>, t: State)
    decreases |es|
  {
    if |es| == 0 then s == t
    else Enabled(s, l, es[0]) && IsRun(Apply(s, l, es[0]), l, es[1..], t)
  }

  ghost predicate CleanRun(s: State, l: Limits, es: seq<Event>)
    decreases |es|
  {
    |es| == 0
    || (CleanStep(s, es[0]) && Enabled(s, l, es[0]) && CleanRun(Apply(s, l, es[0]), l, es[1..]))
  }

  lemma {:induction false} RunInv(s: State, l: Limits, es: seq<Event>, t: State)
    requires Inv(s, l) && l.Roomy() && IsRun(s, l, es, t) && CleanRun(s, l, es)
    ensures Inv(t, l)
    decreases |es|
  {
    if |es| != 0 {
      StepInv(s, l, es[0]);
      RunInv(Apply(s, l, es[0]), l, es[1..], t);
    }
  }

  /** A run of sender and receiver alone. */
  ghost predicate Reaches(s: State, l: Limits, t: State) {
    exists es :: IsRun(s, l, es, t) && forall i | 0 <= i < |es| :: Moves(es[i])
  }

  lemma ReachesSelf(s: State, l: Limits)
    ensures Reaches(s, l, s)
  {
    assert IsRun(s, l, [], s);
  }

  lemma ReachesAfter(s: State, l: Limits, e: Event, t: State)
    requires Enabled(s, l, e) && Moves(e) && Reaches(Apply(s, l, e), l, t)
    ensures Reaches(s, l, t)
  {
    var es :| IsRun(Apply(s, l, e), l, es, t) && forall i | 0 <= i < |es| :: Moves(es[i]);
    assert ([e] + es)[1..] == es;
    assert IsRun(s, l, [e] + es, t);
  }

  /** Whatever the interleaving, the partial sends and the block sizes: the packages delivered
      are a prefix of the packages accepted, and all of them once nothing is left in transit. */
  lemma DeliveryOverRuns(l: Limits, es: seq<Event>, t: State)
    requires l.Roomy() && IsRun(INIT, l, es, t) && CleanRun(INIT, l, es)
    ensures t.delivered <= t.accepted
    ensures |t.recvCache| >= HEADER_SIZE ==> HasMagic(t.recvCache)
    ensures t.sendCache == [] && t.wire == [] && !t.draining ==>
              t.delivered == t.accepted && t.recvCache == []
  {
    InitInv(l);
    RunInv(INIT, l, es, t);
    Outstanding(t, l);
    if t.sendCache == [] && t.wire == [] && !t.draining {
      NothingLeft(t, l, t.accepted, []);
    }
  }

  lemma NothingLeft(s: State, l: Limits, ps: seq<Package>, tail: Bytes)
    requires Stream(s, l, ps, tail) && s.sendCache == [] && s.wire == [] && !s.draining
    ensures s.delivered == ps && s.recvCache == tail
  {
    StreamOutstanding(s, l, ps, tail);
    var rest := ps[|s.delivered|..];
    assert s.recvCache + (s.wire + Unsent(s)) == s.recvCache;
    CutTail(s.recvCache, [], rest, tail);
  }

  // ----- nothing gets stuck -----

  /** A step of the sender or the receiver, if one of them has something left to do. */
  function NextMove(s: State): Option<Event> {
    match s.sender
    case Peeked(block) => Some(Send(|block|))
    case Sent(_) => Some(Remove)
    case AtPeek =>
      if s.sendCache != [] then Some(Peek)
      else if s.draining then Some(if NextPackage(s.recvCache).Some? then Deliver else Drained)
      else if s.wire != [] then
        var n := |FirstBlock(s.wire)|;
        Some(Receive(n, s.recvCache + s.wire[..n]))
      else None
  }

  function SenderRank(sender: Sender): nat {
    match sender
    case Peeked(block) => if block == [] then 2 else 0
    case AtPeek => 1
    case Sent(_) => 2
  }

  predicate Nearer(t: State, s: State) {
    || |Unsent(t)| < |Unsent(s)|
    || (|Unsent(t)| == |Unsent(s)|
        && (|| SenderRank(t.sender) < SenderRank(s.sender)
            || (t.sender == s.sender
                && (|| |t.wire| < |s.wire|
                    || (t.wire == s.wire
                        && (|| (s.draining && !t.draining)
                            || (t.draining == s.draining && |t.recvCache| < |s.recvCache|)))))))
  }

  lemma DeliverNearer(s: State, l: Limits)
    requires Enabled(s, l, Deliver) && s.sender.AtPeek?
    ensures Nearer(Apply(s, l, Deliver), s)
  {
    TakenFrame(s.recvCache);
  }

  lemma ReceiveNearer(s: State, l: Limits, ps: seq<Package>, tail: Bytes)
    requires Stream(s, l, ps, tail) && l.Roomy() && !s.draining && s.wire != [] && s.sender.AtPeek?
    ensures var n := |FirstBlock(s.wire)|;
            var e := Receive(n, s.recvCache + s.wire[..n]);
            Enabled(s, l, e) && Nearer(Apply(s, l, e), s)
  {
    StreamOutstanding(s, l, ps, tail);
  }

  lemma SenderNearer(s: State, l: Limits, e: Event)
    requires s.sender.Peeked? ==> s.sender.block <= s.sendCache
    requires match s.sender
             case Peeked(block) => e == Send(|block|)
             case Sent(_) => e == Remove
             case AtPeek => e == Peek && s.sendCache != []
    ensures Enabled(s, l, e) && Nearer(Apply(s, l, e), s)
  {
  }

  lemma MoveEnabled(s: State, l: Limits, ps: seq<Package>, tail: Bytes)
    requires Stream(s, l, ps, tail) && l.Roomy() && NextMove(s).Some?
    ensures Enabled(s, l, NextMove(s).value) && Moves(NextMove(s).value)
    ensures var t := Apply(s, l, NextMove(s).value); t.accepted == s.accepted && Nearer(t, s)
  {
    if !s.sender.AtPeek? || s.sendCache != [] {
      SenderNearer(s, l, NextMove(s).value);
    } else if s.draining {
      if NextPackage(s.recvCache).Some? {
        DeliverNearer(s, l);
      }
    } else {
      ReceiveNearer(s, l, ps, tail);
    }
  }

  /** Whatever state a run reaches, sender and receiver can by themselves bring every package of
      the stream to the other side: no cache fills up and no frame is cut off for good. */
  lemma {:induction false} CanDeliverAll(s: State, l: Limits, ps: seq<Package>, tail: Bytes) returns (t: State)
    requires Stream(s, l, ps, tail) && l.Roomy()
    ensures Reaches(s, l, t) && t.accepted == s.accepted && Stream(t, l, ps, tail)
    ensures t.delivered == ps && t.recvCache == tail && t.wire == [] && t.sendCache == [] && t.sender == AtPeek
    decreases |Unsent(s)|, SenderRank(s.sender), |s.wire|, s.draining, |s.recvCache|
  {
    if NextMove(s).None? {
      NothingLeft(s, l, ps, tail);
      ReachesSelf(s, l);
      t := s;
    } else {
      var e := NextMove(s).value;
      MoveEnabled(s, l, ps, tail);
      MoveKeeps(s, l, ps, tail, e);
      t := CanDeliverAll(Apply(s, l, e), l, ps, tail);
      ReachesAfter(s, l, e, t);
    }
  }

  // ----- packages that do not fit -----

  /** After an orphan header of length `k` the next package is never delivered. The receiver takes
      `k` bytes of the stream that follows for a body, beginning with the bytes of the next
      package's own header; for `k` = 0 it delivers an empty package at once. */
  lemma OrphanHeaderMisleads(k: nat, p: Package, rest: Bytes)
    requires k <= |Frame(p) + rest| && k < HALF_WORD
    ensures var garbage := NextPackage(Header(k) + (Frame(p) + rest));
            && garbage == Some((Frame(p) + rest)[..k])
            && (k > 0 ==> garbage.value[0] == LittleEndian(MAGIC)[0])
            && (k <= |Frame(p)| ==> garbage.value == Frame(p)[..k])
  {
    var stream := Frame(p) + rest;
    HeaderIsFrame(k, stream);
    NextPackageOfFrame(stream[..k], stream[k..]);
  }

  lemma HeaderIsFrame(k: nat, stream: Bytes)
    requires k <= |stream| && k < HALF_WORD
    ensures Header(k) + stream == Frame(stream[..k]) + stream[k..]
  {
    assert stream == stream[..k] + stream[k..];
  }

  lemma LoneHeader(k: nat)
    requires 1 <= k < HALF_WORD
    ensures Inert(Header(k))
  {
    HeaderReads(k, []);
    assert Header(k) + [] == Header(k);
  }

  /** A package to follow an orphan header of length `k`: its frame is `k` bytes long, or 9 if
      that is too short. */
  function Filler(k: nat): (p: Package)
    requires k < HALF_WORD
    ensures |Frame(p)| == if k < 9 then 9 else k
  {
    seq(if k < 9 then 1 else k - 8, _ => 0)
  }

  lemma NotMagic(c: Bytes)
    requires |c| >= 4 && c[0] != LittleEndian(MAGIC)[0]
    ensures NextPackage(c).None?
  {
    BytesRoundTrip(c[..4]);
  }

  /** What the receiver makes of the two. */
  lemma Misread(k: nat)
    requires 1 <= k < HALF_WORD
    ensures var f := Frame(Filler(k));
            Header(k) + f == Frame(f[..k]) + f[k..] && f[..k] != Filler(k) && Inert(f[k..])
  {
    var f := Frame(Filler(k));
    HeaderIsFrame(k, f);
    if k == 1 {
      assert f[0] != 0 && f[..k][0] == f[0];
      NotMagic(f[k..]);
    }
  }

  ghost predicate CleanlyReaches(s: State, l: Limits, t: State) {
    exists es :: IsRun(s, l, es, t) && CleanRun(s, l, es)
  }

  lemma {:induction false} MovesClean(s: State, l: Limits, es: seq<Event>, t: State, u: State)
    requires IsRun(s, l, es, t) && (forall i | 0 <= i < |es| :: Moves(es[i])) && CleanlyReaches(t, l, u)
    ensures CleanlyReaches(s, l, u)
    decreases |es|
  {
    if |es| != 0 {
      MovesClean(Apply(s, l, es[0]), l, es[1..], t, u);
      CleanlyAfter(s, l, es[0], u);
    }
  }

  lemma CleanlyAfter(s: State, l: Limits, e: Event, u: State)
    requires Enabled(s, l, e) && CleanStep(s, e) && CleanlyReaches(Apply(s, l, e), l, u)
    ensures CleanlyReaches(s, l, u)
  {
    var es :| IsRun(Apply(s, l, e), l, es, u) && CleanRun(Apply(s, l, e), l, es);
    assert ([e] + es)[1..] == es;
    assert IsRun(s, l, [e] + es, u) && CleanRun(s, l, [e] + es);
  }

  lemma ReachesClean(s: State, l: Limits, t: State, u: State)
    requires Reaches(s, l, t) && CleanlyReaches(t, l, u)
    ensures CleanlyReaches(s, l, u)
  {
    var es :| IsRun(s, l, es, t) && forall i | 0 <= i < |es| :: Moves(es[i]);
    MovesClean(s, l, es, t, u);
  }

  lemma CleanlySelf(s: State, l: Limits)
    ensures CleanlyReaches(s, l, s)
  {
    assert IsRun(s, l, [], s) && CleanRun(s, l, []);
  }

  /** The stream with an orphan header at its end. */
  lemma OrphanStream(s: State, l: Limits, k: nat)
    requires Inv(s, l) && k < HALF_WORD && HEADER_SIZE + k <= l.maxFrame
    ensures var t := s.(sendCache := s.sendCache + Header(k));
            if k == 0 then Stream(t, l, s.accepted + [[]], []) else Stream(t, l, s.accepted, Header(k))
  {
    var t := s.(sendCache := s.sendCache + Header(k));
    Appended(s, t, Header(k));
    assert EncodeAll(s.accepted) + [] == EncodeAll(s.accepted);
    if k == 0 {
      EncodeAllAppend(s.accepted, []);
      assert Frame([]) == Header(0);
      var all := EncodeAll(s.accepted + [[]]);
      assert all + [] == all;
    } else {
      LoneHeader(k);
    }
  }

  /** The stream with an orphan header and a filler behind it is one of misread packages. */
  lemma FilledStream(s: State, l: Limits, k: nat)
    requires 1 <= k < HALF_WORD && HEADER_SIZE + k <= l.maxFrame && Stream(s, l, s.accepted, Header(k))
    ensures var f := Frame(Filler(k));
            Stream(s.(sendCache := s.sendCache + f, accepted := s.accepted + [Filler(k)]), l,
                   s.accepted + [f[..k]], f[k..])
  {
    var f := Frame(Filler(k));
    var t := s.(sendCache := s.sendCache + f, accepted := s.accepted + [Filler(k)]);
    Appended(s, t, f);
    Misread(k);
    EncodeAllAppend(s.accepted, f[..k]);
    Rejoined(EncodeAll(s.accepted), Header(k), f, Frame(f[..k]), f[k..]);
  }

  lemma Rejoined(a: Bytes, b: Bytes, c: Bytes, d: Bytes, e: Bytes)
    requires b + c == d + e
    ensures a + b + c == a + d + e
  {
    assert a + b + c == a + (b + c);
    assert a + d + e == a + (d + e);
  }

  lemma NotPrefix(ps: seq<Package>, g: Package, qs: seq<Package>)
    requires qs == ps || (|qs| == |ps| + 1 && qs[|ps|] != g)
    ensures !(ps + [g] <= qs)
  {
    assert (ps + [g])[|ps|] == g;
  }

  /** An orphan header leads to a package that nobody accepted. */
  lemma OrphanDelivered(s: State, l: Limits, k: nat) returns (u: State)
    requires Inv(s, l) && l.Roomy() && k < HALF_WORD
    requires HEADER_SIZE + k <= l.maxFrame && HEADER_SIZE + k <= l.sendCapacity
    ensures CleanlyReaches(s.(sendCache := s.sendCache + Header(k)), l, u) && !(u.delivered <= u.accepted)
  {
    var t := s.(sendCache := s.sendCache + Header(k));
    OrphanStream(s, l, k);
    if k == 0 {
      u := CanDeliverAll(t, l, s.accepted + [[]], []);
      NotPrefix(s.accepted, [], u.accepted);
      CleanlySelf(u, l);
      ReachesClean(t, l, u, u);
    } else {
      var v := CanDeliverAll(t, l, s.accepted, Header(k));
      u := FillerMisread(v, l, k);
      ReachesClean(t, l, v, u);
    }
  }

  lemma FillerSubmitted(v: State, l: Limits, k: nat)
    requires 1 <= k < HALF_WORD && v.sendCache == [] && Stream(v, l, v.accepted, Header(k))
    requires HEADER_SIZE + k <= l.maxFrame && HEADER_SIZE + k <= l.sendCapacity
    ensures Enabled(v, l, Submit(Filler(k))) && Frame(Filler(k))[..k] != Filler(k)
    ensures var f := Frame(Filler(k));
            Stream(Apply(v, l, Submit(Filler(k))), l, v.accepted + [f[..k]], f[k..])
  {
    FilledStream(v, l, k);
    Misread(k);
  }

  lemma FillerMisread(v: State, l: Limits, k: nat) returns (u: State)
    requires 1 <= k < HALF_WORD && l.Roomy() && v.sendCache == []
    requires HEADER_SIZE + k <= l.maxFrame && HEADER_SIZE + k <= l.sendCapacity
    requires Stream(v, l, v.accepted, Header(k))
    ensures CleanlyReaches(v, l, u) && !(u.delivered <= u.accepted)
  {
    var p, g := Filler(k), Frame(Filler(k))[..k];
    FillerSubmitted(v, l, k);
    var w := Apply(v, l, Submit(p));
    u := CanDeliverAll(w, l, v.accepted + [g], Frame(p)[k..]);
    NotPrefix(v.accepted, g, u.accepted);
    CleanlySelf(u, l);
    ReachesClean(w, l, u, u);
    CleanlyAfter(v, l, Submit(p), u);
  }

  /** A rejected package does no harm if and only if it leaves the send cache as it was, which is
      when not even its header fits: otherwise what is delivered later need not be a prefix of
      what was accepted. The package is one that an empty cache would take, and meets the head
      with neither of its writes. */
  lemma RejectIff(s: State, l: Limits, body: Package, ok: bool, after: Bytes)
    requires Inv(s, l) && l.Roomy() && Enabled(s, l, Reject(body, ok, after))
    requires |Frame(body)| <= l.maxFrame && |Frame(body)| <= l.sendCapacity
    requires var free := l.sendCapacity - |s.sendCache|;
             free != HEADER_SIZE && (free != |Frame(body)| || body == [])
    ensures var t := Apply(s, l, Reject(body, ok, after));
            (forall u | CleanlyReaches(t, l, u) :: u.delivered <= u.accepted)
            <==> l.sendCapacity - |s.sendCache| < HEADER_SIZE
  {
    var t := Apply(s, l, Reject(body, ok, after));
    if l.sendCapacity - |s.sendCache| < HEADER_SIZE {
      assert t == s;
      forall u | CleanlyReaches(t, l, u) ensures u.delivered <= u.accepted {
        var es :| IsRun(t, l, es, u) && CleanRun(t, l, es);
        RunInv(t, l, es, u);
        Outstanding(u, l);
      }
    } else {
      assert t == s.(sendCache := s.sendCache + Header(|body|));
      var u := OrphanDelivered(s, l, |body|);
    }
  }
}
