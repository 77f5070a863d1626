/** The byte format of one package: an eight-byte header (magic, length, both little-endian)
    followed by the body. */
module Frames {
  import opened Wrappers

  newtype byte = x: int | 0 <= x < 256
  type Bytes = seq<byte>

  const WORD: int := 0x1_0000_0000
  const HALF_WORD: int := 0x8000_0000
  const MAGIC: nat := 0xa2b3_c4d5
  const HEADER_SIZE: nat := 8

  /** A body whose length fits the signed 32-bit length field of the header. */
  type Package = b: Bytes | |b| < HALF_WORD

  function LittleEndian(n: nat): (b: Bytes)
    requires n < WORD
    ensures |b| == 4
  {
    [(n % 0x100) as byte, (n / 0x100 % 0x100) as byte, (n / 0x1_0000 % 0x100) as byte, (n / 0x100_0000) as byte]
  }

  function FromLittleEndian(b: Bytes): (n: nat)
    requires |b| == 4
    ensures n < WORD
  {
    b[0] as int + 0x100 * b[1] as int + 0x1_0000 * b[2] as int + 0x100_0000 * b[3] as int
  }

  lemma WordRoundTrip(n: nat)
    requires n < WORD
    ensures FromLittleEndian(LittleEndian(n)) == n
  {
    assert n / 0x1_0000 == n / 0x100 / 0x100;
    assert n / 0x100_0000 == n / 0x1_0000 / 0x100;
  }

  lemma BytesRoundTrip(b: Bytes)
    requires |b| == 4
    ensures LittleEndian(FromLittleEndian(b)) == b
  {
    var n := FromLittleEndian(b);
    assert n / 0x100 == b[1] as int + 0x100 * b[2] as int + 0x1_0000 * b[3] as int;
    assert n / 0x1_0000 == b[2] as int + 0x100 * b[3] as int;
    assert n / 0x100_0000 == b[3] as int;
  }

  function Header(length: nat): (h: Bytes)
    requires length < WORD
    ensures |h| == HEADER_SIZE
  {
    LittleEndian(MAGIC) + LittleEndian(length)
  }

  function Frame(body: Package): (f: Bytes)
    ensures |f| == HEADER_SIZE + |body|
  {
    Header(|body|) + body
  }

  /** The length field as the signed `int` it is declared to be. */
  function SignedLength(c: Bytes): (n: int)
    requires |c| >= HEADER_SIZE
    ensures -HALF_WORD <= n < HALF_WORD
  {
    var n := FromLittleEndian(c[4..8]);
    if n < HALF_WORD then n else n - WORD
  }

  predicate HasMagic(c: Bytes)
  {
    |c| >= 4 && FromLittleEndian(c[..4]) == MAGIC
  }

  /** Headers on which `read_package` has undefined behaviour: the length is negative but so
      small that the unsigned sum `sizeof(Header) + head.length` wraps round to at most 7. */
  predicate UndefinedHeader(c: Bytes)
  {
    |c| >= HEADER_SIZE && HasMagic(c) && -8 <= SignedLength(c) < 0
  }

  lemma HeaderReads(length: nat, rest: Bytes)
    requires length < HALF_WORD
    ensures HasMagic(Header(length) + rest)
    ensures SignedLength(Header(length) + rest) == length
    ensures !UndefinedHeader(Header(length) + rest)
  {
    var c := Header(length) + rest;
    assert c[..4] == LittleEndian(MAGIC);
    assert c[4..8] == LittleEndian(length);
    WordRoundTrip(MAGIC);
    WordRoundTrip(length);
  }

  /** The body of the complete package at the front of `c`, if there is one. */
  function NextPackage(c: Bytes): Option<Package>
  {
    if |c| < HEADER_SIZE || !HasMagic(c) then None
    else
      var n := SignedLength(c);
      if n < 0 || |c| < HEADER_SIZE + n then None else Some(c[HEADER_SIZE..HEADER_SIZE + n])
  }

  /** Decoding finds a package exactly when the bytes start with that package's frame. */
  lemma NextPackageIff(c: Bytes, p: Package)
    ensures NextPackage(c) == Some(p) <==> Frame(p) <= c
  {
    if Frame(p) <= c {
      var rest := c[HEADER_SIZE..];
      assert c == Header(|p|) + rest;
      HeaderReads(|p|, rest);
      assert c[HEADER_SIZE..HEADER_SIZE + |p|] == p;
    }
    if NextPackage(c) == Some(p) {
      BytesRoundTrip(c[..4]);
      BytesRoundTrip(c[4..8]);
      assert Frame(p) == c[..HEADER_SIZE + |p|] by {
        assert c[..4] + c[4..8] == c[..8];
        assert c[..8] + p == c[..8 + |p|];
      }
    }
  }

  lemma SameHeader(h: Bytes, c: Bytes)
    requires |c| >= HEADER_SIZE && h == c[..HEADER_SIZE]
    ensures HasMagic(h) == HasMagic(c) && SignedLength(h) == SignedLength(c)
  {
    assert h[..4] == c[..4] && h[4..8] == c[4..8];
  }

  lemma NoFrame(c: Bytes)
    requires NextPackage(c).None?
    ensures forall p: Package :: !(Frame(p) <= c)
  {
    forall p: Package ensures !(Frame(p) <= c) {
      NextPackageIff(c, p);
    }
  }

  /** A decoded package together with what follows it makes up the bytes. */
  lemma TakenFrame(c: Bytes)
    requires NextPackage(c).Some?
    ensures var p := NextPackage(c).value;
            && p == c[HEADER_SIZE..][..|p|]
            && c == Frame(p) + c[HEADER_SIZE..][|p|..]
  {
    var p := NextPackage(c).value;
    NextPackageIff(c, p);
    assert c[HEADER_SIZE..][|p|..] == c[|Frame(p)|..];
  }

  lemma NextPackageOfFrame(p: Package, rest: Bytes)
    ensures NextPackage(Frame(p) + rest) == Some(p)
    ensures !UndefinedHeader(Frame(p) + rest)
  {
    assert Frame(p) + rest == Header(|p|) + (p + rest);
    HeaderReads(|p|, p + rest);
    NextPackageIff(Frame(p) + rest, p);
  }

  function EncodeAll(ps: seq<Package>): Bytes
  {
    if ps == [] then [] else Frame(ps[0]) + EncodeAll(ps[1..])
  }

  lemma {:induction false} EncodeAllConcat(ps: seq<Package>, qs: seq<Package>)
    ensures EncodeAll(ps + qs) == EncodeAll(ps) + EncodeAll(qs)
  {
    if ps == [] {
      assert ps + qs == qs;
    } else {
      assert (ps + qs)[1..] == ps[1..] + qs;
      EncodeAllConcat(ps[1..], qs);
      FrameFirst(ps, EncodeAll(qs));
    }
  }

  lemma EncodeAllAppend(ps: seq<Package>, p: Package)
    ensures EncodeAll(ps + [p]) == EncodeAll(ps) + Frame(p)
  {
    EncodeAllConcat(ps, [p]);
    assert EncodeAll([p]) == Frame(p);
  }

  /** Bytes too few to hold a package. */
  predicate Inert(tail: Bytes) {
    |tail| <= HEADER_SIZE && NextPackage(tail).None?
  }

  lemma SameFrame(d: Package, a: Bytes, p: Package, b: Bytes)
    requires Frame(d) + a == Frame(p) + b
    ensures d == p && a == b
  {
    NextPackageOfFrame(d, a);
    NextPackageOfFrame(p, b);
    assert a == (Frame(d) + a)[|Frame(d)|..];
  }

  lemma FrameFirst(ps: seq<Package>, rest: Bytes)
    requires ps != []
    ensures EncodeAll(ps) + rest == Frame(ps[0]) + (EncodeAll(ps[1..]) + rest)
  {
  }

  /** Frames form a prefix code: whatever follows, a stream determines its packages. */
  lemma {:induction false} PrefixCode(ds: seq<Package>, rest: Bytes, ps: seq<Package>, tail: Bytes)
    requires EncodeAll(ds) + rest == EncodeAll(ps) + tail && Inert(tail)
    ensures ds <= ps
    ensures rest == EncodeAll(ps[|ds|..]) + tail
  {
    if ds == [] {
      assert rest == EncodeAll(ds) + rest;
    } else {
      FrameFirst(ds, rest);
      NextPackageOfFrame(ds[0], EncodeAll(ds[1..]) + rest);
      assert ps == [] ==> EncodeAll(ps) + tail == tail;
      FrameFirst(ps, tail);
      SameFrame(ds[0], EncodeAll(ds[1..]) + rest, ps[0], EncodeAll(ps[1..]) + tail);
      PrefixCode(ds[1..], rest, ps[1..], tail);
      assert ps[1..][|ds| - 1..] == ps[|ds|..];
    }
  }

  /** The received part `c` of a stream that begins with a frame never shows a wrong magic or an
      undefined header, and it holds the package exactly when it has the bytes for it. */
  lemma CutFrame(c: Bytes, more: Bytes, p: Package, rest: Bytes)
    requires c + more == Frame(p) + rest
    ensures |c| >= HEADER_SIZE ==> HasMagic(c) && !UndefinedHeader(c)
    ensures NextPackage(c) == if |Frame(p)| <= |c| then Some(p) else None
  {
    var whole := c + more;
    assert whole == Header(|p|) + (p + rest);
    HeaderReads(|p|, p + rest);
    if |c| >= HEADER_SIZE {
      assert c[..HEADER_SIZE] == whole[..HEADER_SIZE];
      SameHeader(c[..HEADER_SIZE], c);
      SameHeader(whole[..HEADER_SIZE], whole);
    }
    if |Frame(p)| <= |c| {
      assert Frame(p) <= whole;
      NextPackageIff(c, p);
    }
  }

  /** A stream of frames, cut anywhere. */
  lemma CutStream(c: Bytes, more: Bytes, ps: seq<Package>)
    requires c + more == EncodeAll(ps)
    ensures |c| >= HEADER_SIZE ==> HasMagic(c) && !UndefinedHeader(c)
    ensures NextPackage(c) ==
            if ps != [] && |Frame(ps[0])| <= |c| then Some(ps[0]) else None
  {
    if ps == [] {
      assert c == [];
    } else {
      CutFrame(c, more, ps[0], EncodeAll(ps[1..]));
    }
  }

  /** A stream of frames that ends in the middle of a header, or with an orphan one. */
  lemma CutTail(c: Bytes, more: Bytes, ps: seq<Package>, tail: Bytes)
    requires c + more == EncodeAll(ps) + tail && Inert(tail)
    ensures NextPackage(c) ==
            if ps != [] && |Frame(ps[0])| <= |c| then Some(ps[0]) else None
  {
    if ps == [] {
      assert c + more == tail;
      assert |c| == HEADER_SIZE ==> c == tail;
    } else {
      assert c + more == Frame(ps[0]) + (EncodeAll(ps[1..]) + tail);
      CutFrame(c, more, ps[0], EncodeAll(ps[1..]) + tail);
    }
  }
}
