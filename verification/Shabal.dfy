/**
 One lane of the Shabal-256 hash: the compression of a 64-byte block, the
 buffered stream, and the final rounds. The vector and assembly versions are
 proved against these functions.
 */
module Shabal {
  type Byte = bv8
  type Word = bv32

  // ----- words and bytes

  function Rotl1(x: bv32): bv32 { (x << 1) | (x >> 31) }
  function Rotl15(x: bv32): bv32 { (x << 15) | (x >> 17) }
  function Rotl17(x: bv32): bv32 { (x << 17) | (x >> 15) }
  function Times5(x: bv32): bv32 { (x << 2) + x }
  function Times3(x: bv32): bv32 { (x << 1) + x }

  /** The rotations turn the word left by their number of places. */
  lemma RotationLaws(x: bv32)
    ensures Rotl1(x) == x.RotateLeft(1)
    ensures Rotl15(x) == x.RotateLeft(15)
    ensures Rotl17(x) == x.RotateLeft(17)
  {
  }

  /** The shifts and additions are products modulo 2^32. */
  lemma ProductLaws(x: bv32)
    ensures Times3(x) == 3 * x
    ensures Times5(x) == 5 * x
  {
  }

  function Plus(x: bv32, y: bv32): bv32 { x + y }
  function Minus(x: bv32, y: bv32): bv32 { x - y }
  function XorWord(x: bv32, y: bv32): bv32 { x ^ y }

  /** ~x & y */
  function AndNot(x: bv32, y: bv32): bv32 { !x & y }

  /** The little-endian word at four bytes. */
  function MakeWord(b0: Byte, b1: Byte, b2: Byte, b3: Byte): Word {
    (b0 as bv32) | ((b1 as bv32) << 8) | ((b2 as bv32) << 16) | ((b3 as bv32) << 24)
  }

  function LoadWord(data: seq<Byte>, o: nat): Word
    requires o + 4 <= |data|
  {
    MakeWord(data[o], data[o + 1], data[o + 2], data[o + 3])
  }

  function StoreWord(x: bv32): (s: seq<Byte>)
    ensures |s| == 4
  {
    [(x & 0xFF) as bv8, ((x >> 8) & 0xFF) as bv8, ((x >> 16) & 0xFF) as bv8, ((x >> 24) & 0xFF) as bv8]
  }

  /** A word is stored low byte first, and reading its four bytes gives the word back. */
  lemma StoredWord(x: bv32)
    ensures StoreWord(x)[0] as bv32 == x & 0xFF && StoreWord(x)[1] as bv32 == (x & 0xFFFF) >> 8
    ensures StoreWord(x)[2] as bv32 == (x & 0xFF_FFFF) >> 16 && StoreWord(x)[3] as bv32 == x >> 24
    ensures MakeWord(StoreWord(x)[0], StoreWord(x)[1], StoreWord(x)[2], StoreWord(x)[3]) == x
  {
  }

  // ----- the block counter

  /** The 64-bit block counter, in the two halves that are added to the state. */
  datatype Counter = Counter(hi: Word, lo: Word)

  function Next(w: Counter): Counter {
    Counter(if w.lo + 1 == 0 then w.hi + 1 else w.hi, w.lo + 1)
  }

  function Previous(w: Counter): Counter {
    Counter(if w.lo == 0 then w.hi - 1 else w.hi, w.lo - 1)
  }

  function Advance(w: Counter, n: nat): Counter {
    if n == 0 then w else Next(Advance(w, n - 1))
  }

  lemma PreviousOfNext(w: Counter)
    ensures Previous(Next(w)) == w
  {
  }

  lemma {:induction false} AdvanceAdd(w: Counter, m: nat, n: nat)
    ensures Advance(Advance(w, m), n) == Advance(w, m + n)
  {
    if n == 0 {
    } else {
      AdvanceAdd(w, m, n - 1);
    }
  }

  // ----- the compression function

  datatype State = State(a: seq<Word>, b: seq<Word>, c: seq<Word>) {
    predicate Valid() { |a| == 12 && |b| == 16 && |c| == 16 }
  }

  type Core = s: State | s.Valid() witness State(seq(12, _ => 0), seq(16, _ => 0), seq(16, _ => 0))
  type Block = m: seq<Word> | |m| == 16 witness seq(16, _ => 0)

  /** The new A word of a round. */
  function MixA(a0: Word, a1: Word, b1: Word, b2: Word, b3: Word, c: Word, m: Word): Word {
    XorWord(XorWord(Times3(XorWord(XorWord(a0, Times5(Rotl15(a1))), c)), b1), XorWord(AndNot(b3, b2), m))
  }

  /** The new B word of a round. */
  function MixB(b0: Word, a: Word): Word {
    XorWord(Rotl1(b0), XorWord(a, 0xFFFF_FFFF))
  }

  /** Round u of the permutation. */
  function Round(s: Core, m: Block, u: nat): (r: Core)
    ensures r.c == s.c
  {
    var x := MixA(s.a[u % 12], s.a[(u + 11) % 12], s.b[(u + 13) % 16], s.b[(u + 9) % 16], s.b[(u + 6) % 16],
                  s.c[(24 - u % 16) % 16], m[u % 16]);
    State(s.a[u % 12 := x], s.b[u % 16 := MixB(s.b[u % 16], x)], s.c)
  }

  /** The first n rounds. */
  function Rounds(s: Core, m: Block, n: nat): (r: Core)
    ensures r.c == s.c
  {
    if n == 0 then s else Round(Rounds(s, m, n - 1), m, n - 1)
  }

  /** Before the rounds: message added to B and rotated, counter into A. */
  function Prepare(s: Core, w: Counter, m: Block): (r: Core) {
    State(s.a[0 := XorWord(s.a[0], w.lo)][1 := XorWord(s.a[1], w.hi)],
          seq(16, j requires 0 <= j < 16 => Rotl17(Plus(s.b[j], m[j]))),
          s.c)
  }

  /** The low half of the counter goes into A[0], the high half into A[1], and the message into B. */
  lemma PreparedAt(s: Core, w: Counter, m: Block, i: nat, j: nat)
    requires i < 12 && j < 16
    ensures Prepare(s, w, m).a[i]
            == if i == 0 then XorWord(s.a[0], w.lo) else if i == 1 then XorWord(s.a[1], w.hi) else s.a[i]
    ensures Prepare(s, w, m).b[j] == Rotl17(Plus(s.b[j], m[j])) && Prepare(s, w, m).c == s.c
  {
    hide Rotl17, XorWord, Plus;
  }

  /** After the rounds: C added to A three times, then B and C - M change places. */
  function Finalize(s: Core, m: Block): (r: Core) {
    State(seq(12, i requires 0 <= i < 12 =>
              Plus(Plus(Plus(s.a[i], s.c[(i + 11) % 16]), s.c[(i + 15) % 16]), s.c[(i + 3) % 16])),
          seq(16, j requires 0 <= j < 16 => Minus(s.c[j], m[j])),
          s.b)
  }

  function CompressBlock(s: Core, w: Counter, m: Block): (r: Core) {
    Finalize(Rounds(Prepare(s, w, m), m, 48), m)
  }

  // ----- many blocks

  /** Block i of the data, as words. */
  function BlockAt(data: seq<Byte>, i: nat): (m: Block)
    requires 64 * i + 64 <= |data|
  {
    seq(16, j requires 0 <= j < 16 => LoadWord(data, 64 * i + 4 * j))
  }

  /** The state after n blocks of the data. */
  function Absorb(s: Core, w: Counter, data: seq<Byte>, n: nat): (r: Core)
    requires 64 * n <= |data|
  {
    if n == 0 then s
    else CompressBlock(Absorb(s, w, data, n - 1), Advance(w, n - 1), BlockAt(data, n - 1))
  }

  lemma NoBlocks(w: Counter)
    ensures Advance(w, 0) == w
  {
  }

  lemma NoBlocksAbsorbed(s: Core, w: Counter, data: seq<Byte>)
    ensures Absorb(s, w, data, 0) == s
  {
  }

  lemma AbsorbOne(s: Core, w: Counter, data: seq<Byte>)
    requires |data| >= 64
    ensures Absorb(s, w, data, 1) == CompressBlock(s, w, BlockAt(data, 0))
    ensures Advance(w, 1) == Next(w)
  {
    hide CompressBlock, LoadWord, Next;
    assert Absorb(s, w, data, 0) == s && Advance(w, 0) == w;
  }

  lemma {:induction false} AbsorbPrefix(s: Core, w: Counter, d: seq<Byte>, e: seq<Byte>, n: nat)
    requires 64 * n <= |d|
    ensures Absorb(s, w, d + e, n) == Absorb(s, w, d, n)
  {
    hide CompressBlock, Advance, LoadWord;
    if n == 0 {
    } else {
      AbsorbPrefix(s, w, d, e, n - 1);
      var i := 64 * (n - 1);
      assert (d + e)[i..i + 64] == d[i..i + 64];
      SameBlock(d + e, n - 1, d, n - 1);
    }
  }

  lemma {:induction false} AbsorbSplit(s: Core, w: Counter, d: seq<Byte>, m: nat, e: seq<Byte>, n: nat)
    requires |d| == 64 * m && 64 * n <= |e|
    ensures Absorb(s, w, d + e, m + n) == Absorb(Absorb(s, w, d, m), Advance(w, m), e, n)
  {
    hide CompressBlock, Advance, LoadWord;
    if n == 0 {
      AbsorbPrefix(s, w, d, e, m);
    } else {
      AbsorbSplit(s, w, d, m, e, n - 1);
      var i, j := 64 * (m + n - 1), 64 * (n - 1);
      assert i == |d| + j;
      assert (d + e)[i..i + 64] == e[j..j + 64];
      SameBlock(d + e, m + n - 1, e, n - 1);
      AdvanceAdd(w, m, n - 1);
    }
  }

  lemma SameBlock(d: seq<Byte>, i: nat, e: seq<Byte>, j: nat)
    requires 64 * i + 64 <= |d| && 64 * j + 64 <= |e|
    requires d[64 * i..64 * i + 64] == e[64 * j..64 * j + 64]
    ensures BlockAt(d, i) == BlockAt(e, j)
  {
    hide MakeWord;
    forall k | 0 <= k < 16
      ensures LoadWord(d, 64 * i + 4 * k) == LoadWord(e, 64 * j + 4 * k)
    {
      SliceIndex(d, 64 * i, e, 64 * j, 4 * k);
      SliceIndex(d, 64 * i, e, 64 * j, 4 * k + 1);
      SliceIndex(d, 64 * i, e, 64 * j, 4 * k + 2);
      SliceIndex(d, 64 * i, e, 64 * j, 4 * k + 3);
    }
  }

  lemma SliceIndex(d: seq<Byte>, i: nat, e: seq<Byte>, j: nat, k: nat)
    requires i + 64 <= |d| && j + 64 <= |e| && k < 64
    requires d[i..i + 64] == e[j..j + 64]
    ensures d[i + k] == e[j + k]
  {
    assert d[i..i + 64][k] == e[j..j + 64][k];
  }

  // ----- the buffered stream

  /** A hash in progress: the state after the full blocks, the counter, and the bytes of the partial block. */
  datatype Stream = Stream(state: State, w: Counter, tail: seq<Byte>) {
    predicate Valid() { state.Valid() && |tail| < 64 }
  }

  type Live = s: Stream | s.Valid()
    witness Stream(State(seq(12, _ => 0), seq(16, _ => 0), seq(16, _ => 0)), Counter(0, 0), [])

  /** More data into the stream. */
  function Feed(s: Live, data: seq<Byte>): (r: Live) {
    var all := s.tail + data;
    var n := |all| / 64;
    Stream(Absorb(s.state, s.w, all, n), Advance(s.w, n), all[64 * n..])
  }

  /** Feeding two pieces is feeding their concatenation. */
  lemma {:induction false} FeedTwice(s: Live, d: seq<Byte>, e: seq<Byte>)
    ensures Feed(Feed(s, d), e) == Feed(s, d + e)
  {
    hide Absorb, Advance;
    var all1 := s.tail + d;
    var n1 := |all1| / 64;
    var head, tail := all1[..64 * n1], all1[64 * n1..];
    var all2 := tail + e;
    var n2 := |all2| / 64;
    assert all1 == head + tail;
    assert s.tail + (d + e) == head + all2;
    assert |head + all2| / 64 == n1 + n2;
    AbsorbPrefix(s.state, s.w, head, tail, n1);
    AbsorbSplit(s.state, s.w, head, n1, all2, n2);
    AdvanceAdd(s.w, n1, n2);
    assert (head + all2)[64 * (n1 + n2)..] == all2[64 * n2..];
  }

  /** Data that does not fill the block is only buffered. */
  lemma FeedShort(s: Live, d: seq<Byte>)
    requires |s.tail| + |d| < 64
    ensures Feed(s, d) == Stream(s.state, s.w, s.tail + d)
  {
    assert (s.tail + d)[64 * 0..] == s.tail + d;
  }

  /** Data that exactly fills the block is one compression. */
  lemma FeedFull(s: Live, d: seq<Byte>)
    requires |s.tail| + |d| == 64
    ensures Feed(s, d) == Stream(CompressBlock(s.state, s.w, BlockAt(s.tail + d, 0)), Next(s.w), [])
  {
    hide CompressBlock, Next, LoadWord;
    AbsorbOne(s.state, s.w, s.tail + d);
    assert (s.tail + d)[64 * 1..] == [];
  }

  /** With an empty buffer the full blocks are compressed and the rest is buffered. */
  lemma FeedAligned(s: Live, d: seq<Byte>, n: nat)
    requires s.tail == [] && n == |d| / 64
    ensures Feed(s, d) == Stream(Absorb(s.state, s.w, d, n), Advance(s.w, n), d[64 * n..])
  {
    hide Absorb, Advance;
    assert s.tail + d == d;
  }

  function Concat(chunks: seq<seq<Byte>>): seq<Byte>
    decreases |chunks|
  {
    if chunks == [] then [] else chunks[0] + Concat(chunks[1..])
  }

  function FeedAll(s: Live, chunks: seq<seq<Byte>>): (r: Live)
    decreases |chunks|
  {
    if chunks == [] then s else FeedAll(Feed(s, chunks[0]), chunks[1..])
  }

  /** However a message is cut into pieces, of any lengths, the stream ends in the same state. */
  lemma {:induction false} ChunkingIndependent(s: Live, chunks: seq<seq<Byte>>)
    ensures FeedAll(s, chunks) == Feed(s, Concat(chunks))
    decreases |chunks|
  {
    hide Feed;
    if chunks == [] {
      FeedNothing(s);
    } else {
      ChunkingIndependent(Feed(s, chunks[0]), chunks[1..]);
      FeedTwice(s, chunks[0], Concat(chunks[1..]));
    }
  }

  lemma FeedNothing(s: Live)
    ensures Feed(s, []) == s
  {
    assert s.tail + [] == s.tail;
  }

  // ----- initial state and final rounds

  /** Block of the sixteen words first, first + 1, ..., first + 15, for first below 2^16 - 15. */
  function CountingBlock(first: nat): (data: seq<Byte>)
    ensures |data| == 64
  {
    seq(64, i requires 0 <= i < 64 => CountingByte(first + i / 4, i % 4))
  }

  /** Byte i of the word n, for n below 2^16. */
  function CountingByte(n: nat, i: nat): Byte {
    if i == 0 then (n % 256) as Byte else if i == 1 then (n / 256 % 256) as Byte else 0
  }

  function ZeroCore(): Core {
    State(seq(12, _ => 0), seq(16, _ => 0), seq(16, _ => 0))
  }

  /** The counter before the first prefix block: -1. */
  function FirstCounter(): Counter {
    Counter(0xFFFF_FFFF, 0xFFFF_FFFF)
  }

  /** The state after the two prefix blocks. */
  function InitialCore(): Core {
    CompressBlock(CompressBlock(ZeroCore(), FirstCounter(), BlockAt(CountingBlock(256), 0)),
                  Next(FirstCounter()), BlockAt(CountingBlock(272), 0))
  }

  /** The stream after initialisation for 256 bits. */
  function InitialStream(): Live {
    Stream(InitialCore(), Next(Next(FirstCounter())), [])
  }

  lemma InitialCounterIsOne()
    ensures InitialStream().w == Counter(0, 1)
  {
  }

  /** The partial block closed with one bit and zeros. */
  function Padded(tail: seq<Byte>): (data: seq<Byte>)
    requires |tail| < 64
    ensures |data| == 64
  {
    tail + [0x80] + seq(63 - |tail|, _ => 0)
  }

  /** n compressions of the same block at the same counter. */
  function Repeat(s: Core, w: Counter, m: Block, n: nat): (r: Core) {
    if n == 0 then s else CompressBlock(Repeat(s, w, m, n - 1), w, m)
  }

  /** The hash value: the upper half of C after four compressions of the closed block. */
  function Finish(s: Live): (digest: seq<Byte>)
    ensures |digest| == 32
  {
    Digest(Repeat(s.state, s.w, BlockAt(Padded(s.tail), 0), 4))
  }

  function Digest(s: Core): (digest: seq<Byte>)
    ensures |digest| == 32
  {
    DigestOf(s, 8)
  }

  /** The bytes of C[8], ..., C[8 + n - 1]. */
  function DigestOf(s: Core, n: nat): (digest: seq<Byte>)
    requires n <= 8
    ensures |digest| == 4 * n
  {
    if n == 0 then [] else DigestOf(s, n - 1) + StoreWord(s.c[8 + n - 1])
  }

  /** The closed block byte by byte. */
  lemma PaddedAt(tail: seq<Byte>, k: nat)
    requires |tail| < 64 && k < 64
    ensures Padded(tail)[k] == if k < |tail| then tail[k] else if k == |tail| then 0x80 else 0
  {
  }

  /** Byte 4 * k + i of the digest is byte i of word 8 + k of C after four compressions at the same counter. */
  lemma {:induction false} FinishAt(s: Live, k: nat, i: nat)
    requires k < 8 && i < 4
    ensures var m := BlockAt(Padded(s.tail), 0);
            var two := CompressBlock(CompressBlock(s.state, s.w, m), s.w, m);
            var four := CompressBlock(CompressBlock(two, s.w, m), s.w, m);
            Finish(s)[4 * k + i] == StoreWord(four.c[8 + k])[i]
  {
    hide CompressBlock, StoreWord, BlockAt, Padded;
    RepeatFour(s.state, s.w, BlockAt(Padded(s.tail), 0));
    DigestAt(Repeat(s.state, s.w, BlockAt(Padded(s.tail), 0), 4), 8, k, i);
  }

  lemma RepeatFour(s: Core, w: Counter, m: Block)
    ensures Repeat(s, w, m, 4)
            == CompressBlock(CompressBlock(CompressBlock(CompressBlock(s, w, m), w, m), w, m), w, m)
  {
    hide CompressBlock;
    assert Repeat(s, w, m, 1) == CompressBlock(s, w, m);
    assert Repeat(s, w, m, 2) == CompressBlock(Repeat(s, w, m, 1), w, m);
  }

  lemma {:induction false} DigestAt(s: Core, n: nat, k: nat, i: nat)
    requires k < n <= 8 && i < 4
    ensures DigestOf(s, n)[4 * k + i] == StoreWord(s.c[8 + k])[i]
  {
    hide StoreWord;
    if k == n - 1 {
    } else {
      DigestAt(s, n - 1, k, i);
    }
  }

  function Hash(message: seq<Byte>): (digest: seq<Byte>)
    ensures |digest| == 32
  {
    Finish(Feed(InitialStream(), message))
  }
}
