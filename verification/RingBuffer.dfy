/** The wrap-around byte cache `BufferCacheBase` and, above it, the package cache `BufferCache`.
    Both are one class here; the abstract value is the byte sequence still to be read. */
module RingBuffer {
  import opened Wrappers
  import opened Frames

  /** `is_full`: the modulo of the second return statement is never reached. */
  predicate ReadsFull(head: int, tail: int) {
    tail + 1 == head
  }

  /** When a package is appended whole: header and body both fit without meeting the head. */
  predicate PackageFits(free: int, head: int, length: int) {
    1 <= length && (HEADER_SIZE + length < free || (HEADER_SIZE + length == free && head == 0))
  }

  /** What a cache of this capacity can hold after it is asked to write `src`, as far as that
      depends on its contents alone; only an exact fit leaves more than one possibility. */
  predicate WriteOutcome(capacity: int, before: Bytes, src: Bytes, after: Bytes) {
    var free := capacity - |before|;
    || (|src| < free && after == before + src)
    || (|src| == free && after in [before + src, before, []])
    || (|src| > free && after == before)
  }

  /** What a cache of this capacity can hold, and `write_package` return, when the frame of `body`
      is not appended whole: refused for want of room for the header; an orphan header; or the
      header or the body meets the head exactly and the cache collapses. */
  predicate RejectOutcome(capacity: int, before: Bytes, body: Package, ok: bool, after: Bytes) {
    var free, length := capacity - |before|, |body|;
    || (!ok && after == before && free < HEADER_SIZE)
    || (!ok && after == before + Header(length)
        && free >= HEADER_SIZE && (length == 0 || length > free - HEADER_SIZE || free == HEADER_SIZE + 1))
    || (ok && after == [] && 1 <= length == free - HEADER_SIZE)
    || (free == HEADER_SIZE && after == (if 1 <= length < capacity then body else [])
        && (ok <==> 1 <= length <= capacity))
  }

  /** Where a write of `n` bytes moves the tail: round the end only if it does not fit before it. */
  function Advance(capacity: int, tail: int, n: int): int {
    if capacity - tail >= n then tail + n else n - (capacity - tail)
  }

  /** The caller's `buf.length`, cut down to what there is. */
  function Clip(length: nat, size: nat): nat {
    if length > size then size else length
  }

  predicate InRange(d: Bytes, head: int, tail: int) {
    0 <= head <= |d| && 0 <= tail <= |d|
  }

  function Used(capacity: int, head: int, tail: int): int {
    if head <= tail then tail - head else tail + capacity - head
  }

  /** The position of the `i`-th byte counted from the head. */
  function Slot(capacity: int, head: int, i: int): int {
    if head + i < capacity then head + i else head + i - capacity
  }

  /** The bytes between head and tail, going round the end of the storage if head > tail. */
  function Live(d: Bytes, head: int, tail: int): (s: Bytes)
    requires InRange(d, head, tail)
    ensures |s| == Used(|d|, head, tail)
  {
    if head <= tail then d[head..tail] else d[head..] + d[..tail]
  }

  lemma LiveAt(d: Bytes, head: int, tail: int)
    requires InRange(d, head, tail)
    ensures forall i | 0 <= i < Used(|d|, head, tail) ::
              Live(d, head, tail)[i] == d[Slot(|d|, head, i)]
  {
  }

  /** The first `n` bytes from the head on, as `memcpy` collects them in one or two pieces. */
  function Gathered(d: Bytes, head: int, n: int): (s: Bytes)
    requires 0 <= head <= |d| && 0 <= n <= |d|
    ensures |s| == n
    ensures forall i | 0 <= i < n :: s[i] == d[Slot(|d|, head, i)]
  {
    if |d| - head >= n then d[head..head + n]
    else d[head..head + (|d| - head)] + d[0..n - (|d| - head)]
  }

  lemma GatheredIsFront(d: Bytes, head: int, tail: int, n: int)
    requires InRange(d, head, tail) && 0 <= n <= Used(|d|, head, tail)
    ensures Gathered(d, head, n) == Live(d, head, tail)[..n]
    ensures Live(d, Advance(|d|, head, n), tail) == Live(d, head, tail)[n..]
  {
    var s, r := Live(d, head, tail), Live(d, Advance(|d|, head, n), tail);
    assert |r| == |s| - n;
    LiveAt(d, head, tail);
    LiveAt(d, Advance(|d|, head, n), tail);
    forall i | 0 <= i < |r| ensures r[i] == s[n + i] {
    }
  }

  /** The storage after `memcpy` of `src` to position `at`. */
  function Patched(d: Bytes, at: int, src: Bytes): (r: Bytes)
    requires 0 <= at && at + |src| <= |d|
    ensures |r| == |d|
    ensures forall k | 0 <= k < |d| :: r[k] == if at <= k < at + |src| then src[k - at] else d[k]
  {
    d[..at] + src + d[at + |src|..]
  }

  /** Bytes written behind the tail do not touch the live ones, and follow them. */
  lemma SlotStraight(d: Bytes, head: int, tail: int, src: Bytes, i: int)
    requires InRange(d, head, tail) && |src| <= |d| - tail
    requires |src| < |d| - Used(|d|, head, tail) || head == 0
    requires 0 <= i < Used(|d|, head, tail) + |src|
    ensures var k, used := Slot(|d|, head, i), Used(|d|, head, tail);
            0 <= k < |d| && Patched(d, tail, src)[k] == if i < used then d[k] else src[i - used]
  {
    var used := Used(|d|, head, tail);
    if i >= used {
      assert Slot(|d|, head, i) == tail + (i - used);
    }
  }

  lemma WriteStraight(d: Bytes, head: int, tail: int, src: Bytes)
    requires InRange(d, head, tail) && |src| <= |d| - tail
    requires |src| < |d| - Used(|d|, head, tail) || head == 0
    ensures Live(Patched(d, tail, src), head, tail + |src|) == Live(d, head, tail) + src
  {
    var e := Patched(d, tail, src);
    var r, s := Live(e, head, tail + |src|), Live(d, head, tail) + src;
    LiveAt(d, head, tail);
    LiveAt(e, head, tail + |src|);
    assert |r| == |s|;
    forall i | 0 <= i < |r| ensures r[i] == s[i] {
      SlotStraight(d, head, tail, src, i);
    }
  }

  /** The storage `e` is `d` with `src` written from the tail on and round the end. */
  predicate WrittenRound(d: Bytes, tail: int, src: Bytes, e: Bytes)
    requires 0 <= tail <= |d| && |d| - tail < |src| <= |d|
  {
    var n := |d| - tail;
    && |e| == |d|
    && forall k | 0 <= k < |d| ::
         e[k] == if k < |src| - n then src[n + k] else if k >= tail then src[k - tail] else d[k]
  }

  lemma PatchedTwice(d: Bytes, tail: int, src: Bytes)
    requires 0 <= tail <= |d| && |d| - tail < |src| <= |d|
    ensures var n := |d| - tail;
            WrittenRound(d, tail, src, Patched(Patched(d, tail, src[..n]), 0, src[n..]))
  {
  }

  /** Bytes written round the end do not touch the live ones, and follow them. */
  lemma SlotRound(d: Bytes, head: int, tail: int, src: Bytes, e: Bytes, i: int)
    requires InRange(d, head, tail) && |d| - tail < |src|
    requires |src| < |d| - Used(|d|, head, tail) && WrittenRound(d, tail, src, e)
    requires 0 <= i < Used(|d|, head, tail) + |src|
    ensures var k, used := Slot(|d|, head, i), Used(|d|, head, tail);
            0 <= k < |d| && e[k] == if i < used then d[k] else src[i - used]
  {
    var used, n := Used(|d|, head, tail), |d| - tail;
    if i >= used {
      assert Slot(|d|, head, i) == if i - used < n then tail + (i - used) else i - used - n;
    } else {
      assert Slot(|d|, head, i) == head + i < tail;
    }
  }

  lemma LiveRound(d: Bytes, head: int, tail: int, src: Bytes, e: Bytes)
    requires InRange(d, head, tail) && |d| - tail < |src|
    requires |src| < |d| - Used(|d|, head, tail) && WrittenRound(d, tail, src, e)
    ensures Live(e, head, |src| - (|d| - tail)) == Live(d, head, tail) + src
  {
    var r, s := Live(e, head, |src| - (|d| - tail)), Live(d, head, tail) + src;
    LiveAt(d, head, tail);
    LiveAt(e, head, |src| - (|d| - tail));
    assert |r| == |s|;
    forall i | 0 <= i < |r| ensures r[i] == s[i] {
      SlotRound(d, head, tail, src, e, i);
    }
  }

  lemma WriteWrapped(d: Bytes, head: int, tail: int, src: Bytes)
    requires InRange(d, head, tail) && |d| - tail < |src|
    requires |src| < |d| - Used(|d|, head, tail)
    ensures var n := |d| - tail;
            Live(Patched(Patched(d, tail, src[..n]), 0, src[n..]), head, |src| - n)
            == Live(d, head, tail) + src
  {
    var n := |d| - tail;
    PatchedTwice(d, tail, src);
    LiveRound(d, head, tail, src, Patched(Patched(d, tail, src[..n]), 0, src[n..]));
  }

  class BufferCache {
    const data: array<byte>
    var head: int
    var tail: int

    /** `head` and `tail` may both equal the capacity; `tail` never wraps to 0. */
    ghost predicate Valid()
      reads this
    {
      && data.Length < HALF_WORD
      && 0 <= head <= data.Length
      && 0 <= tail <= data.Length
      && (tail == 0 ==> head == 0)
    }

    ghost function Contents(): (s: Bytes)
      reads this, data
      requires Valid()
    {
      Live(data[..], head, tail)
    }

    constructor (size: nat)
      requires size < HALF_WORD
      ensures Valid() && Contents() == [] && head == 0
      ensures data.Length == size && fresh(data)
    {
      data := new byte[size](_ => 0);
      head, tail := 0, 0;
    }

    function Size(): (n: int)
      reads this, data
      requires Valid()
      ensures n == |Contents()| <= data.Length
    {
      if head <= tail then tail - head else tail + data.Length - head
    }

    function Capacity(): int
    {
      data.Length
    }

    predicate IsEmpty()
      reads this, data
      requires Valid()
      ensures IsEmpty() <==> Contents() == []
    {
      head == tail
    }

    predicate IsFull()
      reads this
    {
      ReadsFull(head, tail)
    }

    ghost function Free(): int
      reads this, data
      requires Valid()
    {
      data.Length - |Contents()|
    }

    /** `memcpy` out of the cache. */
    method CopyOut(at: nat, n: nat) returns (bytes: Bytes)
      requires at + n <= data.Length
      ensures bytes == data[..][at..at + n]
    {
      bytes := data[at..at + n];
    }

    /** A peek: the front of the contents, at most `length` bytes of it. */
    method HaveALook(length: nat) returns (bytes: Bytes)
      requires Valid()
      ensures |bytes| <= length && bytes <= Contents()
      ensures |bytes| == length || bytes == Contents()
    {
      var want := Clip(length, Size());
      if IsEmpty() {
        return [];
      }
      GatheredIsFront(data[..], head, tail, want);
      if data.Length - head >= want {
        bytes := CopyOut(head, want);
      } else {
        var n := data.Length - head;
        bytes := CopyOut(head, n);
        var rest := CopyOut(0, want - n);
        bytes := bytes + rest;
      }
    }

    /** A read removes exactly the bytes it returns. */
    method Read(length: nat) returns (bytes: Bytes)
      requires Valid()
      modifies `head
      ensures Valid()
      ensures |bytes| <= length && bytes <= old(Contents())
      ensures |bytes| == length || bytes == old(Contents())
      ensures Contents() == old(Contents())[|bytes|..]
    {
      bytes := HaveALook(length);
      GatheredIsFront(data[..], head, tail, |bytes|);
      if data.Length - head >= |bytes| {
        head := head + |bytes|;
      } else {
        head := |bytes| - (data.Length - head);
      }
    }

    /** `memcpy` into the cache. */
    method CopyIn(at: nat, src: Bytes)
      requires at + |src| <= data.Length
      modifies data
      ensures data[..] == Patched(old(data[..]), at, src)
    {
      forall i | 0 <= i < |src| {
        data[at + i] := src[i];
      }
    }

    /** The first `length` bytes of `src` are taken whole or refused. Taken bytes are appended
        if they leave room or if the head is at 0; otherwise the tail meets the head and the
        whole cache, old contents included, reads as empty. */
    method Write(src: Bytes, length: int) returns (n: int)
      requires Valid() && length <= |src|
      modifies `tail, data
      ensures Valid()
      ensures old(IsFull()) <==> old(Free()) == 1 && old(tail) < head
      ensures n == if old(IsFull()) || length <= 0 || length > old(Free()) then 0 else length
      ensures n == 0 ==> Contents() == old(Contents()) && tail == old(tail) && data[..] == old(data[..])
      ensures length >= 0 ==>
                WriteOutcome(data.Length, old(Contents()), src[..length], Contents())
      ensures n > 0 ==> tail == Advance(data.Length, old(tail), length)
      ensures n > 0 && (length < old(Free()) || head == 0) ==>
                Contents() == old(Contents()) + src[..length]
      ensures n > 0 && length == old(Free()) && head != 0 ==> Contents() == []
    {
      if IsFull() || length > Capacity() - Size() || length <= 0 {
        return 0;
      }
      Put(src[..length]);
      return length;
    }

    /** The copying part of a write: in one piece, or in two that go round the end. */
    method Put(src: Bytes)
      requires Valid() && 1 <= |src| <= Free()
      modifies `tail, data
      ensures Valid() && tail == Advance(data.Length, old(tail), |src|)
      ensures Contents() == if |src| < old(Free()) || head == 0 then old(Contents()) + src else []
    {
      ghost var d := data[..];
      ghost var appends := |src| < Free() || head == 0;
      if data.Length - tail >= |src| {
        if appends {
          WriteStraight(d, head, tail, src);
        }
        CopyIn(tail, src);
        tail := tail + |src|;
      } else {
        if appends {
          WriteWrapped(d, head, tail, src);
        }
        var n := data.Length - tail;
        CopyIn(tail, src[..n]);
        CopyIn(0, src[n..]);
        tail := |src| - n;
      }
    }

    /** Header and body are two separate writes. Only the first clause is a success; the others
        are every other way the call can end: refused and unchanged, an orphan header left
        behind, the body collapsing the cache, or the header collapsing it. */
    method WritePackage(body: Bytes, length: nat) returns (ok: bool)
      requires Valid() && length == |body| < WORD
      modifies `tail, data
      ensures Valid()
      ensures PackageFits(old(Free()), head, length) <==>
              ok && length < HALF_WORD && Contents() == old(Contents()) + Frame(body)
      ensures old(IsFull()) || old(Free()) < HEADER_SIZE ==> !ok && Contents() == old(Contents())
      ensures var free := old(Free()) - HEADER_SIZE;
              free > 0 || (free == 0 && head == 0) ==>
                var refused := length == 0 || length > free
                               || ReadsFull(head, Advance(data.Length, old(tail), HEADER_SIZE));
                && (refused ==> !ok && Contents() == old(Contents()) + Header(length))
                && (!refused && length == free && head != 0 ==> ok && Contents() == [])
      ensures old(Free()) == HEADER_SIZE && head != 0 ==>
                && (ok <==> 1 <= length <= data.Length)
                && Contents() == if 1 <= length < data.Length then body else []
      ensures length < HALF_WORD && !PackageFits(old(Free()), head, length) ==>
                RejectOutcome(data.Length, old(Contents()), body, ok, Contents())
    {
      ghost var before, free := Contents(), Free();
      var n := Write(Header(length), HEADER_SIZE);
      if n == 0 {
        return false;
      }
      n := Write(body, if length < HALF_WORD then length else length - WORD);
      ok := n != 0;
    }

    /** Takes the package at the front, if it is complete; the frame taken and the bytes left
        make up the old contents. Otherwise nothing changes, and no frame of any package is a
        prefix of the contents. */
    method ReadPackage() returns (ok: bool, body: Bytes)
      requires Valid() && !UndefinedHeader(Contents())
      modifies `head
      ensures Valid()
      ensures ok ==> |body| < HALF_WORD && old(Contents()) == Frame(body) + Contents()
      ensures !ok ==> Contents() == old(Contents()) && forall p: Package :: !(Frame(p) <= Contents())
      ensures NextPackage(old(Contents())) == if ok then Some(body) else None
    {
      ghost var before := Contents();
      if Size() < HEADER_SIZE {
        NoFrame(before);
        return false, [];
      }
      var header := HaveALook(HEADER_SIZE);
      SameHeader(header, before);
      if FromLittleEndian(header[..4]) != MAGIC {
        NoFrame(before);
        return false, [];
      }
      var length := SignedLength(header);
      // `sizeof(Header) + head.length` is unsigned: a length below -8 wraps to a huge number.
      if length < 0 || Size() < HEADER_SIZE + length {
        NoFrame(before);
        return false, [];
      }
      TakenFrame(before);
      var _ := Read(HEADER_SIZE);
      body := Read(length);
      ok := true;
    }
  }
}
