/** The socket loops of both sides. `ClientService` and `RequestHandle` run the same two loops
    over their caches; each is shown to carry out a run of the pipe. */
module Sockets {
  import opened Frames
  import opened RingBuffer
  import opened Pipe

  /** What one `write` call takes of `offered` bytes when the socket has room for `room`. */
  function Taken(offered: nat, room: nat): nat {
    if room <= offered then room else offered
  }

  /** The bytes a cache of `size` bytes gives up, if the i-th `write` call on the socket finds
      room for `kernel[i]` bytes and for none once `kernel` is used up: the loop goes on only
      after a full block. */
  function SendTotal(size: nat, kernel: seq<nat>): (total: nat)
    ensures total <= size
    decreases |kernel|
  {
    if kernel == [] then 0
    else
      var taken := Taken(Clip(BLOCK_SIZE, size), kernel[0]);
      if taken == BLOCK_SIZE then taken + SendTotal(size - taken, kernel[1..]) else taken
  }

  lemma OneTurn(size: nat, kernel: seq<nat>, i: nat)
    requires i <= |kernel|
    ensures var taken := Taken(Clip(BLOCK_SIZE, size), Room(kernel, i));
            SendTotal(size, kernel[i..])
            == if taken == BLOCK_SIZE then taken + SendTotal(size - taken, kernel[i + 1..]) else taken
  {
    if i < |kernel| {
      assert kernel[i..][1..] == kernel[i + 1..];
    }
  }

  /** One turn of the send loop: peek at a block, offer it to the socket, remove what it took. */
  method SendBlock(cache: BufferCache, room: nat) returns (bytes: Bytes)
    requires cache.Valid()
    modifies cache`head
    ensures cache.Valid()
    ensures |bytes| <= BLOCK_SIZE && |bytes| <= room
    ensures |bytes| == BLOCK_SIZE || |bytes| == room || cache.Contents() == []
    ensures bytes + cache.Contents() == old(cache.Contents())
  {
    var block := cache.HaveALook(BLOCK_SIZE);
    var taken := Taken(|block|, room);
    bytes := [];
    if taken > 0 {
      bytes := cache.Read(taken);
    }
  }

  /** Moving bytes from the front of a stream to the end of what was taken from it. */
  lemma Moved(taken: Bytes, piece: Bytes, rest: Bytes)
    ensures (taken + piece) + rest == taken + (piece + rest)
  {
  }

  /** The room the socket has for the i-th `write` call. */
  function Room(kernel: seq<nat>, i: nat): nat {
    if i < |kernel| then kernel[i] else 0
  }

  /** The socket has room for a whole block often enough for `size` bytes. */
  predicate RoomForAll(kernel: seq<nat>, size: nat) {
    (forall i | 0 <= i < |kernel| :: kernel[i] >= BLOCK_SIZE) && |kernel| * BLOCK_SIZE > size
  }

  /** `write_socket`: what leaves the cache is what is sent, in order. There are `full` turns in
      which the socket takes a whole block, and then one in which it takes less, because it has
      no room for more or because that empties the cache. */
  method WriteSocket(cache: BufferCache, kernel: seq<nat>) returns (sent: Bytes, ghost full: nat)
    requires cache.Valid()
    modifies cache`head
    ensures cache.Valid()
    ensures sent + cache.Contents() == old(cache.Contents())
    ensures forall i | 0 <= i < full :: Room(kernel, i) >= BLOCK_SIZE
    ensures full * BLOCK_SIZE <= |sent| < (full + 1) * BLOCK_SIZE
    ensures |sent| - full * BLOCK_SIZE <= Room(kernel, full)
    ensures |sent| - full * BLOCK_SIZE == Room(kernel, full) || cache.Contents() == []
    ensures RoomForAll(kernel, |old(cache.Contents())|) ==> sent == old(cache.Contents())
    ensures |sent| == SendTotal(|old(cache.Contents())|, kernel)
  {
    ghost var whole, rest := cache.Contents(), cache.Contents();
    sent := [];
    full := 0;
    var i := 0;
    while true
      invariant 0 <= i <= |kernel| && cache.Valid()
      invariant cache.Contents() == rest && sent + rest == whole
      invariant full == i && |sent| == i * BLOCK_SIZE
      invariant forall j | 0 <= j < i :: kernel[j] >= BLOCK_SIZE
      invariant |sent| + SendTotal(|rest|, kernel[i..]) == SendTotal(|whole|, kernel)
      decreases |kernel| - i
    {
      OneTurn(|rest|, kernel, i);
      var bytes := SendBlock(cache, Room(kernel, i));
      rest := cache.Contents();
      Moved(sent, bytes, rest);
      sent := sent + bytes;
      if |bytes| != BLOCK_SIZE {
        break;
      }
      i := i + 1;
      full := full + 1;
    }
  }

  /** The inner loop of `read_socket`. The cache holds the front of a stream of frames, cut
      before `more`; the loop takes exactly the packages that are complete. */
  method DrainPackages(cache: BufferCache, ghost stream: seq<Package>, ghost more: Bytes)
    returns (packages: seq<Package>)
    requires cache.Valid() && cache.Contents() + more == EncodeAll(stream)
    modifies cache`head
    ensures cache.Valid() && NextPackage(cache.Contents()).None?
    ensures packages <= stream
    ensures cache.Contents() + more == EncodeAll(stream[|packages|..])
  {
    packages := [];
    var state := true;
    while state
      invariant cache.Valid() && packages <= stream
      invariant cache.Contents() + more == EncodeAll(stream[|packages|..])
      invariant !state ==> NextPackage(cache.Contents()).None?
      decreases state, |cache.Contents()|
    {
      ghost var left, before := stream[|packages|..], cache.Contents();
      CutStream(before, more, left);
      var body;
      state, body := cache.ReadPackage();
      if state {
        NextFrame(before, more, left, cache.Contents());
        assert left[1..] == stream[|packages| + 1..];
        packages := packages + [body];
      }
    }
  }

  lemma NextFrame(c: Bytes, more: Bytes, ps: seq<Package>, after: Bytes)
    requires c + more == EncodeAll(ps) && ps != []
    requires c == Frame(ps[0]) + after
    ensures after + more == EncodeAll(ps[1..])
  {
    var whole := c + more;
    assert whole[|Frame(ps[0])|..] == after + more;
  }

  ghost predicate Receives(s: State, l: Limits, cache: BufferCache)
    reads cache, cache.data
  {
    cache.Valid() && s.recvCache == cache.Contents() && l.recvCapacity == cache.data.Length
  }

  /** `read_socket`: one block of at most 2048 bytes goes into the cache, then every complete
      package is taken out. The packages are the next ones accepted on the other side. */
  method ReadSocket(cache: BufferCache, block: Bytes, ghost s: State, ghost l: Limits)
    returns (packages: seq<Package>, ghost t: State)
    requires Inv(s, l) && l.Roomy() && !s.draining && Receives(s, l, cache)
    requires |block| <= BLOCK_SIZE && block <= s.wire
    modifies cache, cache.data
    ensures Receives(t, l, cache) && NextPackage(cache.Contents()).None?
    ensures s.delivered + packages <= s.accepted
    ensures t == s.(wire := s.wire[|block|..], recvCache := cache.Contents(),
                    delivered := s.delivered + packages)
    ensures Reaches(s, l, t)
  {
    var _ := cache.Write(block, |block|);
    assert block[..|block|] == block;
    ghost var e, u := ReceiveRound(s, l, block, cache.Contents());
    packages := DrainPackages(cache, u.accepted[|u.delivered|..], u.wire + Unsent(u));
    t := DrainRound(s, l, e, u, packages, cache.Contents());
  }

  function DrainedState(u: State, packages: seq<Package>, rest: Bytes): State {
    u.(recvCache := rest, delivered := u.delivered + packages, draining := false)
  }

  /** A block written into the cache of a drained receiver as a pipe step. */
  lemma ReceiveRound(s: State, l: Limits, block: Bytes, after: Bytes)
    returns (e: Event, u: State)
    requires Inv(s, l) && l.Roomy() && !s.draining
    requires |block| <= BLOCK_SIZE && block <= s.wire
    requires WriteOutcome(l.recvCapacity, s.recvCache, block, after)
    ensures Enabled(s, l, e) && Moves(e) && u == Apply(s, l, e)
    ensures u == s.(wire := s.wire[|block|..], recvCache := after, draining := true)
    ensures u.delivered <= u.accepted
    ensures u.recvCache + (u.wire + Unsent(u)) == EncodeAll(u.accepted[|u.delivered|..])
  {
    e := Receive(|block|, after);
    assert s.wire[..|block|] == block;
    u := Apply(s, l, e);
    ReceiveInv(s, l, s.accepted, [], |block|, after);
    Outstanding(u, l);
  }

  lemma DrainRound(s: State, l: Limits, e: Event, u: State, packages: seq<Package>, rest: Bytes)
    returns (t: State)
    requires Enabled(s, l, e) && Moves(e) && u == Apply(s, l, e) && u.draining
    requires u.delivered <= u.accepted && packages <= u.accepted[|u.delivered|..]
    requires rest + (u.wire + Unsent(u)) == EncodeAll(u.accepted[|u.delivered|..][|packages|..])
    requires u.recvCache + (u.wire + Unsent(u)) == EncodeAll(u.accepted[|u.delivered|..])
    requires NextPackage(rest).None?
    ensures t == DrainedState(u, packages, rest) && Reaches(s, l, t)
    ensures u.delivered + packages <= u.accepted
  {
    t := DrainedState(u, packages, rest);
    var stream := u.accepted[|u.delivered|..];
    Cached(stream, packages, u.recvCache, rest, u.wire + Unsent(u));
    DrainRun(u, l, packages, rest);
    ReachesAfter(s, l, e, t);
    Prefixed(u.delivered, u.accepted, packages);
  }

  lemma Prefixed(ds: seq<Package>, ps: seq<Package>, packages: seq<Package>)
    requires ds <= ps && packages <= ps[|ds|..]
    ensures ds + packages <= ps
  {
    assert ps == ds + ps[|ds|..];
  }

  /** What was in the cache is the packages taken out of it and what is left. */
  lemma Cached(stream: seq<Package>, packages: seq<Package>, c: Bytes, rest: Bytes, more: Bytes)
    requires packages <= stream && c + more == EncodeAll(stream)
    requires rest + more == EncodeAll(stream[|packages|..])
    ensures c == EncodeAll(packages) + rest
  {
    assert stream == packages + stream[|packages|..];
    EncodeAllConcat(packages, stream[|packages|..]);
    SameTail(c, EncodeAll(packages), rest, more);
  }

  lemma SameTail(c: Bytes, front: Bytes, rest: Bytes, more: Bytes)
    requires c + more == front + (rest + more)
    ensures c == front + rest
  {
    assert c == (c + more)[..|c|];
    assert front + (rest + more) == front + rest + more;
    assert front + rest == (front + rest + more)[..|c|];
  }

  lemma DeliverFront(u: State, l: Limits, p: Package, later: Bytes) returns (v: State)
    requires u.draining && u.recvCache == Frame(p) + later
    ensures v == u.(recvCache := later, delivered := u.delivered + [p])
    ensures Enabled(u, l, Deliver) && v == Apply(u, l, Deliver)
  {
    NextPackageOfFrame(p, later);
    v := Apply(u, l, Deliver);
  }

  /** Taking the complete packages one by one as pipe steps. */
  lemma {:induction false} DrainRun(u: State, l: Limits, packages: seq<Package>, rest: Bytes)
    requires u.draining && NextPackage(rest).None?
    requires u.recvCache == EncodeAll(packages) + rest
    ensures Reaches(u, l, DrainedState(u, packages, rest))
    decreases |packages|
  {
    var t := DrainedState(u, packages, rest);
    if packages == [] {
      assert u.recvCache == rest && u.delivered + packages == u.delivered;
      ReachesSelf(t, l);
      ReachesAfter(u, l, Drained, t);
    } else {
      var p, later := packages[0], EncodeAll(packages[1..]) + rest;
      FrameFirst(packages, rest);
      var v := DeliverFront(u, l, p, later);
      DrainRun(v, l, packages[1..], rest);
      FirstDelivered(u.delivered, packages);
      ReachesAfter(u, l, Deliver, t);
    }
  }

  lemma FirstDelivered(ds: seq<Package>, packages: seq<Package>)
    requires packages != []
    ensures ds + [packages[0]] + packages[1..] == ds + packages
  {
  }

  function SentState(s: State, n: nat): State
    requires n <= |s.sendCache|
  {
    s.(sendCache := s.sendCache[n..], wire := s.wire + s.sendCache[..n])
  }

  /** The send loop as pipe steps. */
  lemma {:induction false} SendRun(s: State, l: Limits, kernel: seq<nat>)
    requires s.sender.AtPeek?
    ensures Reaches(s, l, SentState(s, SendTotal(|s.sendCache|, kernel)))
    decreases |kernel|
  {
    var n := SendTotal(|s.sendCache|, kernel);
    if kernel == [] {
      assert SentState(s, n) == s;
      ReachesSelf(s, l);
    } else {
      var taken := Taken(Clip(BLOCK_SIZE, |s.sendCache|), kernel[0]);
      if taken == BLOCK_SIZE {
        SendRun(SentState(s, taken), l, kernel[1..]);
        SentTwice(s, taken, n - taken);
      } else {
        ReachesSelf(SentState(s, n), l);
      }
      SendRound(s, l, taken, SentState(s, n));
    }
  }

  lemma SentTwice(s: State, n: nat, m: nat)
    requires n + m <= |s.sendCache|
    ensures SentState(SentState(s, n), m) == SentState(s, n + m)
  {
    assert s.sendCache[..n + m] == s.sendCache[..n] + s.sendCache[n..][..m];
  }

  lemma SendRound(s: State, l: Limits, n: nat, t: State)
    requires s.sender.AtPeek? && n <= |FirstBlock(s.sendCache)|
    requires Reaches(SentState(s, n), l, t)
    ensures Reaches(s, l, t)
  {
    assert FirstBlock(s.sendCache)[..n] == s.sendCache[..n];
    var peeked := Apply(s, l, Peek);
    var sent := Apply(peeked, l, Send(n));
    if n > 0 {
      ReachesAfter(sent, l, Remove, t);
    } else {
      assert sent == SentState(s, 0);
    }
    ReachesAfter(peeked, l, Send(n), t);
    ReachesAfter(s, l, Peek, t);
  }
}
