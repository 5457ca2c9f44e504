/**
 The scalar assembly version of Shabal-256. The block routine keeps a window of
 64 B words on the stack and never rotates the B array; it is proved to compute
 the same compression as the in-place form.
 */
module ShabalAsm {
  import opened Shabal
  import opened ShabalInitial

  // ----- the 64-bit block counter

  function LowHalf(w: bv64): bv32 { (w & 0xFFFF_FFFF) as bv32 }
  function HighHalf(w: bv64): bv32 { (w >> 32) as bv32 }

  function CounterOf(w: bv64): Counter {
    Counter(HighHalf(w), LowHalf(w))
  }

  lemma IncrementCounter(w: bv64)
    ensures CounterOf(w + 1) == Next(CounterOf(w))
  {
  }

  lemma DecrementCounter(w: bv64)
    ensures CounterOf(w - 1) == Previous(CounterOf(w))
  {
  }

  // ----- the regrouped word operations

  function NotWord(x: bv32): bv32 { !x }

  /** The A word in the order of the instructions: c ^ ..., times 3, then the B terms in one go. */
  function AsmMixA(a0: bv32, prev: bv32, b1: bv32, b2: bv32, b3: bv32, c: bv32, m: bv32): bv32 {
    XorWord(Times3(XorWord(XorWord(Times5(Rotl15(prev)), a0), c)),
            XorWord(AndNot(b3, b2), XorWord(m, b1)))
  }

  lemma XorRegroup(t: bv32, b1: bv32, n: bv32, m: bv32)
    ensures XorWord(t, XorWord(n, XorWord(m, b1))) == XorWord(XorWord(t, b1), XorWord(n, m))
  {
  }

  lemma XorCommute(x: bv32, y: bv32)
    ensures XorWord(x, y) == XorWord(y, x)
  {
  }

  lemma AsmMixAIsMixA(a0: bv32, prev: bv32, b1: bv32, b2: bv32, b3: bv32, c: bv32, m: bv32)
    ensures AsmMixA(a0, prev, b1, b2, b3, c, m) == MixA(a0, prev, b1, b2, b3, c, m)
  {
    hide Times3, Times5, Rotl15, AndNot, XorWord;
    XorCommute(a0, Times5(Rotl15(prev)));
    XorRegroup(Times3(XorWord(XorWord(Times5(Rotl15(prev)), a0), c)), b1, AndNot(b3, b2), m);
  }

  /** The new window word: complement first, then rotate and add A. */
  lemma AsmMixBIsMixB(b0: bv32, a: bv32)
    ensures XorWord(Rotl1(NotWord(b0)), a) == MixB(b0, a)
  {
  }

  lemma PlusIsSum(x: bv32, y: bv32)
    ensures Plus(x, y) == x + y
  {
  }

  lemma PlusOfSums(x: bv32, y: bv32, z: bv32)
    ensures Plus(x + y, z) == (x + y) + z
    ensures Plus(x, y + z) == x + (y + z)
  {
  }

  lemma SumAssoc(x: bv32, y: bv32, z: bv32)
    ensures (x + y) + z == x + (y + z)
  {
  }

  lemma SumComm(x: bv32, y: bv32)
    ensures x + y == y + x
  {
  }

  lemma PlusLaws(x: bv32, y: bv32, z: bv32)
    ensures Plus(x, y) == Plus(y, x)
    ensures Plus(Plus(x, y), z) == Plus(x, Plus(y, z))
  {
    hide Plus;
    PlusIsSum(x, y);
    PlusIsSum(y, x);
    PlusIsSum(y, z);
    SumComm(x, y);
    PlusOfSums(x, y, z);
    SumAssoc(x, y, z);
  }

  lemma PlusSwap(a: bv32, x: bv32, y: bv32)
    ensures Plus(Plus(a, x), y) == Plus(Plus(a, y), x)
  {
    hide Plus;
    PlusLaws(a, x, y);
    PlusLaws(x, y, 0);
    PlusLaws(a, y, x);
  }

  /** The three groupings of the additions of C words, for A[4..8], A[8..12] and A[0..4]. */
  lemma PlusRegroup(a: bv32, x: bv32, y: bv32, z: bv32)
    ensures Plus(Plus(Plus(a, x), y), z) == Plus(Plus(Plus(a, z), x), y)
    ensures Plus(Plus(a, y), Plus(x, z)) == Plus(Plus(Plus(a, x), y), z)
    ensures Plus(Plus(a, Plus(x, y)), z) == Plus(Plus(Plus(a, y), z), x)
  {
    hide Plus;
    PlusSwap(Plus(a, x), y, z);
    PlusSwap(a, x, z);
    PlusLaws(Plus(a, y), x, z);
    PlusSwap(a, y, x);
    PlusLaws(a, x, y);
    PlusSwap(Plus(a, x), y, z);
    PlusSwap(a, x, y);
    PlusSwap(Plus(a, y), x, z);
  }

  // ----- the context of the scalar functions

  class AsmContext {
    const a: array<bv32>
    const b: array<bv32>
    const c: array<bv32>
    const buf: array<bv8>
    var w: bv64
    var ptr: nat

    ghost predicate Valid()
      reads `ptr
    {
      && a.Length == 12 && b.Length == 16 && c.Length == 16 && buf.Length == 64 && ptr < 64
      && a != b && a != c && b != c
    }

    ghost function CoreNow(): Core
      reads `ptr, a, b, c
      requires Valid()
    {
      State(a[..], b[..], c[..])
    }

    ghost function StreamNow(): Live
      reads this, a, b, c, buf
      requires Valid()
    {
      Stream(CoreNow(), CounterOf(w), buf[..ptr])
    }

    constructor ()
      ensures Valid() && fresh(a) && fresh(b) && fresh(c) && fresh(buf)
    {
      a := new bv32[12](_ => 0);
      b := new bv32[16](_ => 0);
      c := new bv32[16](_ => 0);
      buf := new bv8[64](_ => 0);
      w := 0;
      ptr := 0;
    }

    /** The assembly routine shabal_inner: num blocks, num at least 1. */
    method Inner(data: seq<Byte>, num: nat)
      requires Valid() && 1 <= num && 64 * num <= |data|
      modifies a, b, c, `w
      ensures CoreNow() == Absorb(old(CoreNow()), CounterOf(old(w)), data, num)
      ensures CounterOf(w) == Advance(CounterOf(old(w)), num)
    {
      hide CompressBlock, LoadWord, CounterOf, Next;
      NoBlocks(CounterOf(w));
      for i := 0 to num
        invariant CoreNow() == Absorb(old(CoreNow()), CounterOf(old(w)), data, i)
        invariant CounterOf(w) == Advance(CounterOf(old(w)), i)
      {
        InnerBlock(BlockAt(data, i));
        IncrementCounter(w);
        w := w + 1;
      }
    }

    /** One pass over the label Lm0. */
    method InnerBlock(m: Block)
      requires Valid()
      modifies a, b, c
      ensures CoreNow() == CompressBlock(old(CoreNow()), CounterOf(w), m)
    {
      hide Rounds, Finalize;
      var bx := new bv32[64](_ => 0);
      LoadWindow(bx, m);
      ghost var s := Prepare(old(CoreNow()), CounterOf(w), m);
      assert a[..] == s.a && bx[..16] == s.b;
      RunRounds(bx, m, s);
      Conclude(bx, m, Rounds(s, m, 48));
    }

    /** B words plus message, rotated, into the first 16 window words; counter into A[0] and A[1]. */
    method LoadWindow(bx: array<bv32>, m: Block)
      requires Valid() && bx.Length == 64 && bx != a && bx != b && bx != c
      modifies a, bx
      ensures a[..] == Prepare(old(CoreNow()), CounterOf(w), m).a
      ensures bx[..16] == Prepare(old(CoreNow()), CounterOf(w), m).b
    {
      hide Rotl17, Plus, XorWord, LowHalf, HighHalf;
      for j := 0 to 16
        invariant a[..] == old(a[..]) && b[..] == old(b[..])
        invariant forall i | 0 <= i < j :: bx[i] == Rotl17(Plus(b[i], m[i]))
      {
        bx[j] := Rotl17(Plus(b[j], m[j]));
      }
      a[0] := XorWord(a[0], LowHalf(w));
      a[1] := XorWord(a[1], HighHalf(w));
      assert bx[..16] == Prepare(old(CoreNow()), CounterOf(w), m).b;
      assert a[..] == Prepare(old(CoreNow()), CounterOf(w), m).a;
    }

    /** The 48 unrolled rounds; eax carries the last A word. */
    method RunRounds(bx: array<bv32>, m: Block, ghost s: Core)
      requires Valid() && bx.Length == 64 && bx != a && bx != b && bx != c
      requires a[..] == s.a && bx[..16] == s.b && c[..] == s.c
      modifies a, bx
      ensures a[..] == Rounds(s, m, 48).a && bx[48..] == Rounds(s, m, 48).b
    {
      hide MixA, MixB, Times3, Times5, Rotl1, Rotl15, AndNot, NotWord, XorWord, AsmMixA, IsWindow, Round;
      var eax := a[11];
      FirstWindow(bx[..], s.b);
      for u := 0 to 48
        invariant a[..] == Rounds(s, m, u).a && eax == a[(u + 11) % 12]
        invariant IsWindow(bx[..], u, Rounds(s, m, u).b)
      {
        AsmRound(bx[..], u, Rounds(s, m, u), m, eax);
        ghost var a0, bx0 := a[..], bx[..];
        var x := AsmMixA(a[u % 12], eax, bx[u + 13], bx[u + 9], bx[u + 6], c[(24 - u % 16) % 16], m[u % 16]);
        var ecx := XorWord(Rotl1(NotWord(bx[u])), x);
        eax := x;
        a[u % 12] := x;
        bx[u + 16] := ecx;
        assert a[..] == a0[u % 12 := x] && bx[..] == bx0[u + 16 := ecx];
        assert (u + 12) % 12 == u % 12;
      }
      LastWindow(bx[..], Rounds(s, m, 48).b);
    }

    // ----- shabal_init, shabal, shabal_close for 256 bits

    /** Copy the table for 256 bits, set the counter to 1. */
    method Init()
      requires Valid()
      modifies a, b, c, `w, `ptr
      ensures Valid() && StreamNow() == InitialStream()
    {
      hide CompressBlock, LoadWord, InitialCore, IV;
      var iv := IV();
      forall j | 0 <= j < 12 { a[j] := iv[j]; }
      forall j | 0 <= j < 16 { b[j] := iv[12 + j]; }
      forall j | 0 <= j < 16 { c[j] := iv[28 + j]; }
      w := 1;
      ptr := 0;
      assert CounterOf(1) == Counter(0, 1);
      InitialCounterIsOne();
      TableIsInitialState();
      assert a[..] == InitialCore().a && b[..] == InitialCore().b && c[..] == InitialCore().c;
    }

    /** reduced_memcpy into the buffer at ptr. */
    method CopyIn(data: seq<Byte>)
      requires Valid() && ptr + |data| <= 64
      modifies buf
      ensures buf[..ptr + |data|] == old(buf[..ptr]) + data
    {
      for i := 0 to |data|
        invariant buf[..ptr] == old(buf[..ptr])
        invariant forall j | 0 <= j < i :: buf[ptr + j] == data[j]
      {
        buf[ptr + i] := data[i];
      }
    }

    method Update(data: seq<Byte>)
      requires Valid()
      modifies a, b, c, buf, `w, `ptr
      ensures Valid()
      ensures StreamNow() == Feed(old(StreamNow()), data)
    {
      hide Feed, Absorb, Advance, CounterOf, CompressBlock, Next, LoadWord;
      ghost var s := StreamNow();
      var room := 64 - ptr;
      if |data| < room {
        CopyIn(data);
        ptr := ptr + |data|;
        FeedShort(s, data);
        return;
      }
      var rest := data;
      if ptr != 0 {
        rest := data[room..];
        FillBlock(data[..room]);
        FeedTwice(s, data[..room], rest);
        assert data[..room] + rest == data;
      }
      UpdateAligned(rest);
    }

    /** Complete the partial block and compress it. */
    method FillBlock(data: seq<Byte>)
      requires Valid() && ptr + |data| == 64
      modifies a, b, c, buf, `w, `ptr
      ensures Valid() && ptr == 0
      ensures StreamNow() == Feed(old(StreamNow()), data)
    {
      hide Feed, Absorb, Advance, CounterOf, CompressBlock, Next, LoadWord;
      ghost var s := StreamNow();
      CopyIn(data);
      assert buf[..] == s.tail + data;
      ptr := 0;
      Inner(buf[..], 1);
      FeedFull(s, data);
      AbsorbOne(s.state, s.w, s.tail + data);
    }

    /** Full blocks directly from the data, the rest into the empty buffer. */
    method UpdateAligned(data: seq<Byte>)
      requires Valid() && ptr == 0
      modifies a, b, c, buf, `w, `ptr
      ensures Valid()
      ensures StreamNow() == Feed(old(StreamNow()), data)
    {
      hide Feed, Absorb, Advance, CounterOf, CompressBlock, Next, LoadWord;
      ghost var s := StreamNow();
      var num := |data| / 64;
      if num != 0 {
        Inner(data, num);
      } else {
        NoBlocks(s.w);
        NoBlocksAbsorbed(s.state, s.w, data);
      }
      CopyIn(data[64 * num..]);
      ptr := |data| % 64;
      FeedAligned(s, data, num);
    }

    method Close() returns (digest: seq<Byte>)
      requires Valid()
      modifies a, b, c, buf, `w
      ensures CounterOf(w) == CounterOf(old(w))
      ensures digest == Finish(old(StreamNow()))
    {
      hide CompressBlock, CounterOf, Next, Previous, Digest, LoadWord, Absorb, Advance;
      ghost var s := StreamNow();
      buf[ptr] := 0x80;
      forall i | ptr < i < 64 { buf[i] := 0; }
      assert buf[..] == Padded(s.tail);
      for z := 0 to 4
        invariant buf[..] == Padded(s.tail) && CounterOf(w) == s.w
        invariant CoreNow() == Repeat(s.state, s.w, BlockAt(Padded(s.tail), 0), z)
      {
        AbsorbOne(CoreNow(), s.w, Padded(s.tail));
        Inner(buf[..], 1);
        DecrementCounter(w);
        PreviousOfNext(s.w);
        w := w - 1;
      }
      digest := Output();
    }

    /** The last eight words of C, as bytes. */
    method Output() returns (digest: seq<Byte>)
      requires Valid()
      ensures digest == Digest(CoreNow())
    {
      hide StoreWord;
      digest := [];
      for i := 0 to 8
        invariant digest == DigestOf(CoreNow(), i)
      {
        digest := digest + StoreWord(c[8 + i]);
      }
    }

    /** New B from C - M, additions to A in three groups of four, new C from the end of the window. */
    method Conclude(bx: array<bv32>, m: Block, ghost s: Core)
      requires Valid() && bx.Length == 64 && bx != a && bx != b && bx != c
      requires a[..] == s.a && c[..] == s.c && bx[48..] == s.b
      modifies a, b, c
      ensures CoreNow() == Finalize(s, m)
    {
      hide Plus, Minus;
      for j := 0 to 16
        invariant a[..] == s.a && c[..] == s.c
        invariant forall i | 0 <= i < j :: b[i] == Minus(s.c[i], m[i])
      {
        b[j] := Minus(c[j], m[j]);
      }
      assert b[..] == Finalize(s, m).b;
      AddWords();
      assert a[..] == Finalize(s, m).a;
      for j := 0 to 16
        invariant a[..] == Finalize(s, m).a && b[..] == Finalize(s, m).b
        invariant forall i | 0 <= i < j :: c[i] == s.b[i]
      {
        assert bx[48 + j] == bx[48..][j];
        c[j] := bx[48 + j];
      }
      assert c[..] == Finalize(s, m).c;
    }

    /** The vector additions of C words to A words. */
    method AddWords()
      requires Valid()
      modifies a
      ensures forall j | 0 <= j < 12 :: a[j] == WithC(old(a[..])[j], c[..], j)
    {
      hide Plus, WithC;
      ghost var a0 := a[..];
      for i := 0 to 4
        invariant forall j | 0 <= j < i || 4 <= j < 4 + i || 8 <= j < 8 + i :: a[j] == WithC(a0[j], c[..], j)
        invariant forall j | i <= j < 4 || 4 + i <= j < 8 || 8 + i <= j < 12 :: a[j] == a0[j]
      {
        AddGroups(a0, c[..], i);
        var x0 := c[(15 + i) % 16];
        var x1, x2, x3 := c[3 + i], c[7 + i], c[11 + i];
        a[4 + i] := Plus(Plus(Plus(a[4 + i], x1), x2), x0);
        a[8 + i] := Plus(Plus(a[8 + i], x2), Plus(x1, x3));
        a[i] := Plus(Plus(a[i], Plus(x1, x3)), x0);
      }
    }
  }

  /** A word j after the three additions. */
  function WithC(x: Word, c: seq<Word>, j: nat): Word
    requires |c| == 16
  {
    Plus(Plus(Plus(x, c[(j + 11) % 16]), c[(j + 15) % 16]), c[(j + 3) % 16])
  }

  /** Column i of the three vector sums. */
  lemma AddGroups(a: seq<Word>, c: seq<Word>, i: nat)
    requires |a| == 12 && |c| == 16 && i < 4
    ensures WithC(a[4 + i], c, 4 + i) == Plus(Plus(Plus(a[4 + i], c[3 + i]), c[7 + i]), c[(15 + i) % 16])
    ensures WithC(a[8 + i], c, 8 + i) == Plus(Plus(a[8 + i], c[7 + i]), Plus(c[3 + i], c[11 + i]))
    ensures WithC(a[i], c, i) == Plus(Plus(a[i], Plus(c[3 + i], c[11 + i])), c[(15 + i) % 16])
  {
    hide Plus;
    PlusRegroup(a[4 + i], c[3 + i], c[7 + i], c[(15 + i) % 16]);
    PlusRegroup(a[8 + i], c[3 + i], c[7 + i], c[11 + i]);
    PlusRegroup(a[i], c[3 + i], c[11 + i], c[(15 + i) % 16]);
  }

  /** Window positions u .. u + 15 hold the sixteen B words, each at its index modulo 16. */
  ghost predicate IsWindow(bx: seq<Word>, u: nat, b: seq<Word>) {
    |bx| == 64 && |b| == 16 && u <= 48 && forall i | u <= i < u + 16 :: bx[i] == b[i % 16]
  }

  lemma FirstWindow(bx: seq<Word>, b: seq<Word>)
    requires |bx| == 64 && |b| == 16 && bx[..16] == b
    ensures IsWindow(bx, 0, b)
  {
    forall i | 0 <= i < 16
      ensures bx[i] == b[i % 16]
    {
      assert bx[..16][i] == bx[i];
    }
  }

  /** Appending the new word for B[u % 16] slides the window by one. */
  lemma WindowStep(bx: seq<Word>, u: nat, b: seq<Word>, y: Word)
    requires IsWindow(bx, u, b) && u < 48
    ensures IsWindow(bx[u + 16 := y], u + 1, b[u % 16 := y])
  {
    forall i | u + 1 <= i < u + 17
      ensures bx[u + 16 := y][i] == b[u % 16 := y][i % 16]
    {
      SameResidue(i, u);
    }
  }

  lemma SameResidue(i: nat, u: nat)
    requires u + 1 <= i < u + 17
    ensures i % 16 == u % 16 <==> i == u + 16
  {
  }

  lemma LastWindow(bx: seq<Word>, b: seq<Word>)
    requires IsWindow(bx, 48, b)
    ensures bx[48..] == b
  {
    forall i | 0 <= i < 16
      ensures bx[48..][i] == b[i]
    {
      assert bx[48 + i] == b[(48 + i) % 16];
    }
  }

  /** A round on the window is a round on the sixteen words. */
  lemma AsmRound(bx: seq<Word>, u: nat, r: Core, m: Block, prev: Word)
    requires IsWindow(bx, u, r.b) && u < 48 && prev == r.a[(u + 11) % 12]
    ensures |bx| == 64
    ensures var x := AsmMixA(r.a[u % 12], prev, bx[u + 13], bx[u + 9], bx[u + 6], r.c[(24 - u % 16) % 16], m[u % 16]);
            var y := XorWord(Rotl1(NotWord(bx[u])), x);
            && Round(r, m, u) == State(r.a[u % 12 := x], r.b[u % 16 := y], r.c)
            && IsWindow(bx[u + 16 := y], u + 1, Round(r, m, u).b)
  {
    hide MixA, MixB, Times3, Times5, Rotl1, Rotl15, AndNot, NotWord, XorWord, AsmMixA;
    var x := AsmMixA(r.a[u % 12], prev, bx[u + 13], bx[u + 9], bx[u + 6], r.c[(24 - u % 16) % 16], m[u % 16]);
    AsmMixAIsMixA(r.a[u % 12], prev, bx[u + 13], bx[u + 9], bx[u + 6], r.c[(24 - u % 16) % 16], m[u % 16]);
    AsmMixBIsMixB(bx[u], x);
    WindowStep(bx, u, r.b, XorWord(Rotl1(NotWord(bx[u])), x));
  }
}
