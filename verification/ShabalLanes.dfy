/**
 The SIMD versions of Shabal-256: 4 lanes (SSE) or 8 lanes (AVX2) hashed at
 once. A vector register is a sequence with one word per lane; every method is
 proved to do to each lane what the one-lane functions of Shabal do.
 */
module ShabalLanes {
  import opened Shabal

  // ----- vector registers

  type Vec = seq<bv32>

  /** A two-operand vector instruction: f in every lane. */
  function Each2(f: (Word, Word) -> Word, x: Vec, y: Vec): (r: Vec)
    requires |x| == |y|
    ensures |r| == |x| && forall k | 0 <= k < |x| :: r[k] == f(x[k], y[k])
  {
    seq(|x|, k requires 0 <= k < |x| => f(x[k], y[k]))
  }

  /** The same word in every lane. */
  function Set1(lanes: nat, w: Word): (r: Vec)
    ensures |r| == lanes && forall k | 0 <= k < lanes :: r[k] == w
  {
    seq(lanes, _ => w)
  }

  /** A one-operand vector instruction sequence (a rotation, a shift and add): f in every lane. */
  function Each(f: Word -> Word, x: Vec): (r: Vec)
    ensures |r| == |x| && forall k | 0 <= k < |x| :: r[k] == f(x[k])
  {
    seq(|x|, k requires 0 <= k < |x| => f(x[k]))
  }

  /** First half of the macro PP. */
  function VMixA(a0: Vec, a1: Vec, b1: Vec, b2: Vec, b3: Vec, c: Vec, m: Vec): (r: Vec)
    requires |a0| == |a1| == |b1| == |b2| == |b3| == |c| == |m|
    ensures |r| == |a0|
    ensures forall k | 0 <= k < |r| :: r[k] == MixA(a0[k], a1[k], b1[k], b2[k], b3[k], c[k], m[k])
  {
    hide Rotl15, Times5, Times3, AndNot, XorWord;
    var t1 := Each(Rotl15, a1);
    var t2 := Each(Times5, t1);
    var t3 := Each2(XorWord, Each2(XorWord, a0, t2), c);
    var t4 := Each(Times3, t3);
    Each2(XorWord, Each2(XorWord, t4, b1), Each2(XorWord, Each2(AndNot, b3, b2), m))
  }

  /** Second half of the macro PP. */
  function VMixB(b0: Vec, a: Vec): (r: Vec)
    requires |b0| == |a|
    ensures |r| == |a|
    ensures forall k | 0 <= k < |r| :: r[k] == MixB(b0[k], a[k])
  {
    Each2(XorWord, Each(Rotl1, b0), Each2(XorWord, a, Set1(|a|, 0xFFFF_FFFF)))
  }

  // ----- lanes of a register file

  /** n registers of the given number of lanes. */
  ghost predicate Shape(v: seq<Vec>, n: nat, lanes: nat) {
    |v| == n && forall j | 0 <= j < n :: |v[j]| == lanes
  }

  ghost predicate Shapes(a: seq<Vec>, b: seq<Vec>, c: seq<Vec>, lanes: nat) {
    Shape(a, 12, lanes) && Shape(b, 16, lanes) && Shape(c, 16, lanes)
  }

  ghost function Column(v: seq<Vec>, n: nat, lanes: nat, k: nat): (r: seq<Word>)
    requires Shape(v, n, lanes) && k < lanes
    ensures |r| == n && forall j | 0 <= j < n :: r[j] == v[j][k]
  {
    seq(n, j requires 0 <= j < n => v[j][k])
  }

  ghost function Lane(a: seq<Vec>, b: seq<Vec>, c: seq<Vec>, lanes: nat, k: nat): (r: Core)
    requires Shapes(a, b, c, lanes) && k < lanes
  {
    State(Column(a, 12, lanes, k), Column(b, 16, lanes, k), Column(c, 16, lanes, k))
  }

  // ----- compression in registers

  class Registers {
    const lanes: nat
    const a: array<Vec>
    const b: array<Vec>
    const c: array<Vec>

    ghost predicate Valid()
      reads this, a, b, c
    {
      a != b && a != c && b != c && Shapes(a[..], b[..], c[..], lanes)
    }

    ghost function LaneOf(k: nat): Core
      reads this, a, b, c
      requires Valid() && k < lanes
    {
      Lane(a[..], b[..], c[..], lanes, k)
    }

    constructor (lanes: nat)
      ensures Valid() && this.lanes == lanes && fresh(a) && fresh(b) && fresh(c)
    {
      this.lanes := lanes;
      a := new Vec[12](_ => Set1(lanes, 0));
      b := new Vec[16](_ => Set1(lanes, 0));
      c := new Vec[16](_ => Set1(lanes, 0));
    }

    /** The macro PP in round u: the 48 unrolled calls use exactly these operands. */
    method Pp(u: nat, m: seq<Vec>)
      requires Valid() && Shape(m, 16, lanes) && u < 48
      modifies a, b
      ensures Valid()
      ensures forall k: nat | k < lanes :: LaneOf(k) == Round(old(LaneOf(k)), Column(m, 16, lanes, k), u)
    {
      hide MixA, MixB;
      var x := VMixA(a[u % 12], a[(u + 11) % 12], b[(u + 13) % 16], b[(u + 9) % 16], b[(u + 6) % 16],
                     c[(24 - u % 16) % 16], m[u % 16]);
      var y := VMixB(b[u % 16], x);
      a[u % 12] := x;
      b[u % 16] := y;
      assert a[..] == old(a[..])[u % 12 := x];
      assert b[..] == old(b[..])[u % 16 := y];
      forall k: nat | k < lanes
        ensures LaneOf(k) == Round(old(LaneOf(k)), Column(m, 16, lanes, k), u)
      {
        RoundOfColumns(old(a[..]), old(b[..]), c[..], m, lanes, k, u, x, y);
      }
    }
  
    /** Message into B, rotation, counter into A. */
    method Prepare(w: Counter, m: seq<Vec>)
      requires Valid() && Shape(m, 16, lanes)
      modifies a, b
      ensures Valid()
      ensures forall k: nat | k < lanes :: LaneOf(k) == Shabal.Prepare(old(LaneOf(k)), w, Column(m, 16, lanes, k))
    {
      hide Rotl17, Plus, XorWord;
      ghost var a0, b0 := a[..], b[..];
      for j := 0 to 16
        invariant Valid() && a[..] == a0
        invariant forall i | 0 <= i < j :: b[i] == Each2(Plus, b0[i], m[i])
        invariant forall i | j <= i < 16 :: b[i] == b0[i]
      {
        b[j] := Each2(Plus, b[j], m[j]);
      }
      a[0] := Each2(XorWord, a[0], Set1(lanes, w.lo));
      a[1] := Each2(XorWord, a[1], Set1(lanes, w.hi));
      for j := 0 to 16
        invariant Valid()
        invariant a[..]
                  == a0[0 := Each2(XorWord, a0[0], Set1(lanes, w.lo))][1 := Each2(XorWord, a0[1], Set1(lanes, w.hi))]
        invariant forall i | 0 <= i < j :: b[i] == Each(Rotl17, Each2(Plus, b0[i], m[i]))
        invariant forall i | j <= i < 16 :: b[i] == Each2(Plus, b0[i], m[i])
      {
        b[j] := Each(Rotl17, b[j]);
      }
      forall k: nat | k < lanes
        ensures LaneOf(k) == Shabal.Prepare(old(LaneOf(k)), w, Column(m, 16, lanes, k))
      {
        var r := Shabal.Prepare(Lane(a0, b0, c[..], lanes, k), w, Column(m, 16, lanes, k));
        assert Column(a[..], 12, lanes, k) == r.a;
        assert Column(b[..], 16, lanes, k) == r.b;
      }
    }

    /** The 36 additions of C words to A words, then SWAP_AND_SUB on the sixteen B and C words. */
    method Finalize(m: seq<Vec>)
      requires Valid() && Shape(m, 16, lanes)
      modifies a, b, c
      ensures Valid()
      ensures forall k: nat | k < lanes :: LaneOf(k) == Shabal.Finalize(old(LaneOf(k)), Column(m, 16, lanes, k))
    {
      hide Plus, Minus;
      ghost var a0, b0, c0 := a[..], b[..], c[..];
      AddC(11);
      ghost var a1 := a[..];
      AddC(15);
      ghost var a2 := a[..];
      AddC(3);
      ghost var a3 := a[..];
      SwapAndSub(m);
      forall k: nat | k < lanes
        ensures LaneOf(k) == Shabal.Finalize(old(LaneOf(k)), Column(m, 16, lanes, k))
      {
        FinalizeOfColumns(a0, b0, c0, m, a3, b[..], lanes, k);
      }
    }

    /** A[11] += C[11 + shift], ..., A[0] += C[shift], indices of C modulo 16. */
    method AddC(shift: nat)
      requires Valid()
      modifies a
      ensures Valid()
      ensures forall i | 0 <= i < 12 :: a[i] == Each2(Plus, old(a[..])[i], c[(i + shift) % 16])
    {
      hide Plus;
      ghost var a0 := a[..];
      for i := 12 downto 0
        invariant Valid()
        invariant forall j | i <= j < 12 :: a[j] == Each2(Plus, a0[j], c[(j + shift) % 16])
        invariant forall j | 0 <= j < i :: a[j] == a0[j]
      {
        a[i] := Each2(Plus, a[i], c[(i + shift) % 16]);
      }
    }

    /** SWAP_AND_SUB on the sixteen pairs. */
    method SwapAndSub(m: seq<Vec>)
      requires Valid() && Shape(m, 16, lanes)
      modifies b, c
      ensures Valid()
      ensures forall i | 0 <= i < 16 :: b[i] == Each2(Minus, old(c[..])[i], m[i])
      ensures c[..] == old(b[..])
    {
      hide Minus;
      ghost var b0, c0 := b[..], c[..];
      for j := 0 to 16
        invariant Valid()
        invariant forall i | 0 <= i < j :: b[i] == Each2(Minus, c0[i], m[i]) && c[i] == b0[i]
        invariant forall i | j <= i < 16 :: b[i] == b0[i] && c[i] == c0[i]
      {
        var tmp := b[j];
        b[j] := Each2(Minus, c[j], m[j]);
        c[j] := tmp;
      }
      assert c[..] == b0;
    }

    /** One pass of the block loop. */
    method Compress(w: Counter, m: seq<Vec>)
      requires Valid() && Shape(m, 16, lanes)
      modifies a, b, c
      ensures Valid()
      ensures forall k: nat | k < lanes :: LaneOf(k) == CompressBlock(old(LaneOf(k)), w, Column(m, 16, lanes, k))
    {
      hide Shabal.Prepare, Shabal.Finalize, Round;
      Prepare(w, m);
      label Prepared:
      for u := 0 to 48
        invariant Valid()
        invariant forall k: nat | k < lanes :: LaneOf(k) == Rounds(old@Prepared(LaneOf(k)), Column(m, 16, lanes, k), u)
      {
        Pp(u, m);
      }
      Finalize(m);
    }
  }

  lemma FinalizeOfColumns(a: seq<Vec>, b: seq<Vec>, c: seq<Vec>, m: seq<Vec>, a3: seq<Vec>, b3: seq<Vec>, lanes: nat,
                          k: nat)
    requires Shapes(a, b, c, lanes) && Shape(m, 16, lanes) && k < lanes && Shape(a3, 12, lanes) && Shape(b3, 16, lanes)
    requires forall i | 0 <= i < 12 ::
               a3[i] == Each2(Plus, Each2(Plus, Each2(Plus, a[i], c[(i + 11) % 16]), c[(i + 15) % 16]), c[(i + 3) % 16])
    requires forall i | 0 <= i < 16 :: b3[i] == Each2(Minus, c[i], m[i])
    ensures Lane(a3, b3, b, lanes, k) == Shabal.Finalize(Lane(a, b, c, lanes, k), Column(m, 16, lanes, k))
  {
    hide Plus, Minus, Each2;
    var r := Shabal.Finalize(Lane(a, b, c, lanes, k), Column(m, 16, lanes, k));
    forall i | 0 <= i < 12
      ensures a3[i][k] == r.a[i]
    {
      AddedWord(a[i], c[(i + 11) % 16], c[(i + 15) % 16], c[(i + 3) % 16], lanes, k);
    }
    forall i | 0 <= i < 16
      ensures b3[i][k] == r.b[i]
    {
      SubtractedWord(c[i], m[i], lanes, k);
    }
    assert Column(a3, 12, lanes, k) == r.a;
    assert Column(b3, 16, lanes, k) == r.b;
  }

  lemma AddedWord(x: Vec, y1: Vec, y2: Vec, y3: Vec, lanes: nat, k: nat)
    requires |x| == |y1| == |y2| == |y3| == lanes && k < lanes
    ensures |Each2(Plus, Each2(Plus, Each2(Plus, x, y1), y2), y3)| == lanes
    ensures Each2(Plus, Each2(Plus, Each2(Plus, x, y1), y2), y3)[k] == Plus(Plus(Plus(x[k], y1[k]), y2[k]), y3[k])
  {
    hide Plus;
  }

  lemma SubtractedWord(x: Vec, y: Vec, lanes: nat, k: nat)
    requires |x| == |y| == lanes && k < lanes
    ensures |Each2(Minus, x, y)| == lanes && Each2(Minus, x, y)[k] == Minus(x[k], y[k])
  {
    hide Minus;
  }

  lemma RoundOfColumns(a: seq<Vec>, b: seq<Vec>, c: seq<Vec>, m: seq<Vec>, lanes: nat, k: nat, u: nat, x: Vec, y: Vec)
    requires Shapes(a, b, c, lanes) && Shape(m, 16, lanes) && k < lanes && |x| == |y| == lanes
    requires x[k] == MixA(a[u % 12][k], a[(u + 11) % 12][k], b[(u + 13) % 16][k], b[(u + 9) % 16][k],
                          b[(u + 6) % 16][k], c[(24 - u % 16) % 16][k], m[u % 16][k])
    requires y[k] == MixB(b[u % 16][k], x[k])
    ensures Shapes(a[u % 12 := x], b[u % 16 := y], c, lanes)
    ensures Lane(a[u % 12 := x], b[u % 16 := y], c, lanes, k)
            == Round(Lane(a, b, c, lanes, k), Column(m, 16, lanes, k), u)
  {
    hide MixA, MixB;
    var s := Lane(a, b, c, lanes, k);
    var r := Round(s, Column(m, 16, lanes, k), u);
    assert Column(a[u % 12 := x], 12, lanes, k) == r.a;
    assert Column(b[u % 16 := y], 16, lanes, k) == r.b;
  }

  // ----- the hashing context

  /** One message per lane, all of the same length. */
  ghost predicate SameLength(data: seq<seq<Byte>>, lanes: nat, len: nat) {
    |data| == lanes && forall k | 0 <= k < lanes :: |data[k]| == len
  }

  class Context {
    const lanes: nat
    const state: array2<bv32>
    const buf: array2<bv8>
    var ptr: nat
    var Whigh: bv32
    var Wlow: bv32

    ghost predicate Valid()
      reads `ptr
    {
      state.Length0 == 44 && state.Length1 == lanes && buf.Length0 == lanes && buf.Length1 == 64 && ptr < 64
    }

    ghost function W(): Counter
      reads `Whigh, `Wlow
    {
      Counter(Whigh, Wlow)
    }

    /** The state words of lane k. */
    ghost function CoreOf(k: nat): Core
      reads state
      requires state.Length0 == 44 && state.Length1 == lanes && k < lanes
    {
      State(seq(12, j requires 0 <= j < 12 reads state => state[j, k]),
            seq(16, j requires 0 <= j < 16 reads state => state[12 + j, k]),
            seq(16, j requires 0 <= j < 16 reads state => state[28 + j, k]))
    }

    /** Lane k of the hash in progress. */
    ghost function StreamOf(k: nat): Live
      reads this, state, buf
      requires Valid() && k < lanes
    {
      Stream(CoreOf(k), W(), BufferOf(k, ptr))
    }

    ghost function BufferOf(k: nat, n: nat): (s: seq<Byte>)
      reads buf
      requires buf.Length0 == lanes && buf.Length1 == 64 && k < lanes && n <= 64
      ensures |s| == n && forall i | 0 <= i < n :: s[i] == buf[k, i]
    {
      seq(n, i requires 0 <= i < n reads buf => buf[k, i])
    }

    /** Compress num blocks of each lane's data. */
    method Compress(data: seq<seq<Byte>>, num: nat)
      requires Valid() && |data| == lanes && forall k | 0 <= k < lanes :: 64 * num <= |data[k]|
      modifies state, this`Whigh, this`Wlow
      ensures Valid()
      ensures W() == Advance(old(W()), num)
      ensures forall k: nat | k < lanes :: CoreOf(k) == Absorb(old(CoreOf(k)), old(W()), data[k], num)
    {
      hide CompressBlock, LoadWord;
      var r := new Registers(lanes);
      Load(r);
      for i := 0 to num
        invariant Valid() && r.Valid() && r.lanes == lanes
        invariant W() == Advance(old(W()), i)
        invariant forall k: nat | k < lanes :: r.LaneOf(k) == Absorb(old(CoreOf(k)), old(W()), data[k], i)
      {
        var m := LoadMessage(data, i);
        r.Compress(Counter(Whigh, Wlow), m);
        Wlow := Wlow + 1;
        if Wlow == 0 {
          Whigh := Whigh + 1;
        }
      }
      Store(r);
    }

    /** Row j of the state as a register. */
    function Row(j: nat): (v: Vec)
      reads state
      requires state.Length0 == 44 && state.Length1 == lanes && j < 44
      ensures |v| == lanes && forall k | 0 <= k < lanes :: v[k] == state[j, k]
    {
      seq(lanes, k requires 0 <= k < lanes reads state => state[j, k])
    }

    method Load(r: Registers)
      requires Valid() && r.Valid() && r.lanes == lanes
      modifies r.a, r.b, r.c
      ensures r.Valid()
      ensures forall k: nat | k < lanes :: r.LaneOf(k) == CoreOf(k)
    {
      for j := 0 to 12
        invariant r.Valid()
        invariant forall i | 0 <= i < j :: r.a[i] == Row(i)
      {
        r.a[j] := Row(j);
      }
      for j := 0 to 16
        invariant r.Valid()
        invariant forall i | 0 <= i < 12 :: r.a[i] == Row(i)
        invariant forall i | 0 <= i < j :: r.b[i] == Row(12 + i) && r.c[i] == Row(28 + i)
      {
        r.b[j] := Row(12 + j);
        r.c[j] := Row(28 + j);
      }
      SameLanes(r);
    }

    lemma SameLanes(r: Registers)
      requires Valid() && r.Valid() && r.lanes == lanes
      requires forall i | 0 <= i < 12 :: r.a[i] == Row(i)
      requires forall i | 0 <= i < 16 :: r.b[i] == Row(12 + i) && r.c[i] == Row(28 + i)
      ensures forall k: nat | k < lanes :: r.LaneOf(k) == CoreOf(k)
    {
      forall k: nat | k < lanes
        ensures r.LaneOf(k) == CoreOf(k)
      {
        assert r.LaneOf(k).a == CoreOf(k).a;
        assert r.LaneOf(k).b == CoreOf(k).b;
        assert r.LaneOf(k).c == CoreOf(k).c;
      }
    }

    method StoreRow(j: nat, v: Vec)
      requires Valid() && j < 44 && |v| == lanes
      modifies state
      ensures Row(j) == v
      ensures forall i | 0 <= i < 44 && i != j :: Row(i) == old(Row(i))
    {
      forall k | 0 <= k < lanes {
        state[j, k] := v[k];
      }
      assert Row(j) == v;
      forall i | 0 <= i < 44 && i != j
        ensures Row(i) == old(Row(i))
      {
        assert forall k | 0 <= k < lanes :: Row(i)[k] == old(Row(i))[k];
      }
    }

    method Store(r: Registers)
      requires Valid() && r.Valid() && r.lanes == lanes
      modifies state
      ensures forall k: nat | k < lanes :: CoreOf(k) == r.LaneOf(k)
    {
      for j := 0 to 12
        invariant forall i | 0 <= i < j :: Row(i) == r.a[i]
      {
        StoreRow(j, r.a[j]);
      }
      for j := 0 to 16
        invariant forall i | 0 <= i < 12 :: Row(i) == r.a[i]
        invariant forall i | 0 <= i < j :: Row(12 + i) == r.b[i] && Row(28 + i) == r.c[i]
      {
        StoreRow(12 + j, r.b[j]);
        StoreRow(28 + j, r.c[j]);
      }
      SameLanes(r);
    }

    /** The sixteen message words of block i, lane beside lane. */
    method LoadMessage(data: seq<seq<Byte>>, i: nat) returns (m: seq<Vec>)
      requires |data| == lanes && forall k | 0 <= k < lanes :: 64 * i + 64 <= |data[k]|
      ensures Shape(m, 16, lanes)
      ensures forall k: nat | k < lanes :: Column(m, 16, lanes, k) == BlockAt(data[k], i)
    {
      hide LoadWord;
      m := [];
      for j := 0 to 16
        invariant Shape(m, j, lanes)
        invariant forall l, k | 0 <= l < j && 0 <= k < lanes :: m[l][k] == LoadWord(data[k], 64 * i + 4 * l)
      {
        m := m + [seq(lanes, k requires 0 <= k < lanes => LoadWord(data[k], 64 * i + 4 * j))];
      }
    }

    // ----- initialisation, streaming, closing

    /** The buffers of all lanes. */
    function Buffers(): (data: seq<seq<Byte>>)
      reads buf
      requires buf.Length0 == lanes && buf.Length1 == 64
      ensures |data| == lanes
      ensures forall k | 0 <= k < lanes :: |data[k]| == 64 && forall i | 0 <= i < 64 :: data[k][i] == buf[k, i]
    {
      seq(lanes, k requires 0 <= k < lanes reads buf =>
        seq(64, i requires 0 <= i < 64 reads buf => buf[k, i]))
    }

    constructor (lanes: nat)
      ensures Valid() && this.lanes == lanes && fresh(state) && fresh(buf)
    {
      this.lanes := lanes;
      state := new bv32[44, lanes]((_, _) => 0);
      buf := new bv8[lanes, 64]((_, _) => 0);
      ptr := 0;
      Whigh := 0;
      Wlow := 0;
    }

    /** C: mshabal256_init, and sse4_mshabal_init with an output size of 256. */
    method Init()
      requires Valid()
      modifies this, state, buf
      ensures Valid()
      ensures forall k: nat | k < lanes :: StreamOf(k) == InitialStream()
    {
      hide CompressBlock, LoadWord, Next;
      Clear();
      Count(256);
      Whigh := 0xFFFF_FFFF;
      Wlow := 0xFFFF_FFFF;
      assert forall k: nat | k < lanes :: CoreOf(k) == ZeroCore();
      CompressBuffers();
      Count(272);
      CompressBuffers();
      ptr := 0;
      forall k: nat | k < lanes
        ensures StreamOf(k) == InitialStream()
      {
        assert BufferOf(k, 0) == [];
      }
    }

    method Clear()
      requires Valid()
      modifies state, buf
      ensures forall k: nat | k < lanes :: CoreOf(k) == ZeroCore()
      ensures forall k, i | 0 <= k < lanes && 0 <= i < 64 :: buf[k, i] == 0
    {
      forall j, k | 0 <= j < 44 && 0 <= k < lanes {
        state[j, k] := 0;
      }
      forall k, i | 0 <= k < lanes && 0 <= i < 64 {
        buf[k, i] := 0;
      }
    }

    /** One compression of the buffered block of every lane. */
    method CompressBuffers()
      requires Valid()
      modifies state, this`Whigh, this`Wlow
      ensures Valid() && W() == Next(old(W()))
      ensures forall k: nat | k < lanes ::
                CoreOf(k) == CompressBlock(old(CoreOf(k)), old(W()), BlockAt(old(Buffers()[k]), 0))
    {
      hide CompressBlock, LoadWord, Next;
      ghost var w := W();
      var data := Buffers();
      label Before:
      Compress(data, 1);
      forall k: nat | k < lanes
        ensures CoreOf(k) == CompressBlock(old@Before(CoreOf(k)), w, BlockAt(data[k], 0))
      {
        AbsorbOne(old@Before(CoreOf(k)), w, data[k]);
      }
      AbsorbOne(ZeroCore(), w, seq(64, _ => 0));
    }

    /** One byte into the buffer of every lane. */
    method SetByte(i: nat, x: Byte)
      requires Valid() && i < 64
      modifies buf
      ensures forall k, j | 0 <= k < lanes && 0 <= j < 64 :: buf[k, j] == if j == i then x else old(buf[k, j])
    {
      forall k | 0 <= k < lanes {
        buf[k, i] := x;
      }
    }

    /** The first two bytes of each buffered word count from first. */
    method Count(first: nat)
      requires Valid()
      requires forall k, i | 0 <= k < lanes && 0 <= i < 64 && i % 4 >= 2 :: buf[k, i] == 0
      modifies buf
      ensures forall k | 0 <= k < lanes :: Buffers()[k] == CountingBlock(first)
      ensures forall k, i | 0 <= k < lanes && 0 <= i < 64 && i % 4 >= 2 :: buf[k, i] == 0
    {
      for u := 0 to 16
        invariant forall k, i | 0 <= k < lanes && 4 * u <= i < 64 && i % 4 >= 2 :: buf[k, i] == 0
        invariant forall k, i | 0 <= k < lanes && 0 <= i < 4 * u :: buf[k, i] == CountingBlock(first)[i]
      {
        CountingWord(first, u);
        SetByte(4 * u, ((first + u) % 256) as Byte);
        SetByte(4 * u + 1, ((first + u) / 256 % 256) as Byte);
      }
      CountingHigh(first);
    }

    /** memcpy(buf + ptr, data + from, n) in every lane. */
    method CopyIn(data: seq<seq<Byte>>, from: nat, n: nat)
      requires Valid() && |data| == lanes && forall k | 0 <= k < lanes :: from + n <= |data[k]|
      requires ptr + n <= 64
      modifies buf
      ensures forall k: nat | k < lanes :: BufferOf(k, ptr + n) == old(BufferOf(k, ptr)) + data[k][from..from + n]
    {
      forall k, i | 0 <= k < lanes && ptr <= i < ptr + n {
        buf[k, i] := data[k][from + (i - ptr)];
      }
    }

    /** C: mshabal256 and sse4_mshabal, for len bytes in every lane. */
    method Update(data: seq<seq<Byte>>, len: nat)
      requires Valid() && SameLength(data, lanes, len)
      modifies `ptr, `Whigh, `Wlow, state, buf
      ensures Valid()
      ensures forall k: nat | k < lanes :: StreamOf(k) == Feed(old(StreamOf(k)), data[k])
    {
      hide CompressBlock, Absorb, Advance, Next, Feed;
      var from, rest := 0, len;
      if ptr != 0 {
        var clen := 64 - ptr;
        if clen > len {
          CopyIn(data, 0, len);
          ptr := ptr + len;
          forall k: nat | k < lanes
            ensures StreamOf(k) == Feed(old(StreamOf(k)), data[k])
          {
            assert data[k][0..0 + len] == data[k];
            FeedShort(old(StreamOf(k)), data[k]);
          }
          return;
        }
        CopyIn(data, 0, clen);
        label Filled:
        CompressBuffers();
        from, rest := clen, len - clen;
        ptr := 0;
        forall k: nat | k < lanes
          ensures StreamOf(k) == Feed(old(StreamOf(k)), data[k][..clen])
        {
          assert old@Filled(Buffers()[k]) == old(StreamOf(k)).tail + data[k][0..0 + clen];
          assert data[k][0..0 + clen] == data[k][..clen];
          FeedFull(old(StreamOf(k)), data[k][..clen]);
          assert BufferOf(k, 0) == [];
        }
      } else {
        forall k: nat | k < lanes
          ensures StreamOf(k) == Feed(old(StreamOf(k)), data[k][..0])
        {
          FeedNothing(old(StreamOf(k)));
        }
      }
      label Aligned:
      UpdateAligned(seq(lanes, k requires 0 <= k < lanes => data[k][from..]), rest);
      forall k: nat | k < lanes
        ensures StreamOf(k) == Feed(old(StreamOf(k)), data[k])
      {
        FeedTwice(old(StreamOf(k)), data[k][..from], data[k][from..]);
        assert data[k][..from] + data[k][from..] == data[k];
      }
    }

    /** The part of the update after the buffer has been emptied. */
    method UpdateAligned(data: seq<seq<Byte>>, len: nat)
      requires Valid() && SameLength(data, lanes, len) && ptr == 0
      modifies `ptr, `Whigh, `Wlow, state, buf
      ensures Valid()
      ensures forall k: nat | k < lanes :: StreamOf(k) == Feed(old(StreamOf(k)), data[k])
    {
      hide CompressBlock, Absorb, Advance, Next, Feed;
      var num := len / 64;
      if num != 0 {
        Compress(data, num);
      } else {
        NoBlocks(W());
      }
      CopyIn(data, 64 * num, len % 64);
      ptr := len % 64;
      forall k: nat | k < lanes
        ensures StreamOf(k) == Feed(old(StreamOf(k)), data[k])
      {
        var s := old(StreamOf(k));
        assert s.tail == [];
        assert data[k][64 * num..64 * num + len % 64] == data[k][64 * num..];
        NoBlocksAbsorbed(s.state, s.w, data[k]);
        FeedAligned(s, data[k], num);
      }
    }

    /** C: mshabal256_close and sse4_mshabal_close; the digests are those the destinations receive. */
    method Close() returns (digests: seq<seq<Byte>>)
      requires Valid()
      modifies `Whigh, `Wlow, state, buf
      ensures W() == old(W())
      ensures SameLength(digests, lanes, 32)
      ensures forall k: nat | k < lanes :: digests[k] == Finish(old(StreamOf(k)))
    {
      hide CompressBlock, Next, Previous, Digest, LoadWord;
      ghost var w := W();
      SetByte(ptr, 0x80);
      forall k, i | 0 <= k < lanes && ptr < i < 64 {
        buf[k, i] := 0;
      }
      forall k: nat | k < lanes
        ensures Buffers()[k] == Padded(old(StreamOf(k)).tail)
      {
        assert forall i | 0 <= i < ptr :: old(StreamOf(k)).tail[i] == old(buf[k, i]);
      }
      for z := 0 to 4
        invariant Valid() && W() == w
        invariant forall k: nat | k < lanes :: Buffers()[k] == Padded(old(StreamOf(k)).tail)
        invariant forall k: nat | k < lanes ::
                    CoreOf(k) == Repeat(old(CoreOf(k)), w, BlockAt(Padded(old(StreamOf(k)).tail), 0), z)
      {
        CompressBuffers();
        PreviousOfNext(w);
        CountDown();
      }
      digests := Output();
    }

    /** State words 36 to 43 of each lane, as bytes. */
    method Output() returns (digests: seq<seq<Byte>>)
      requires Valid()
      ensures |digests| == lanes && forall k: nat | k < lanes :: digests[k] == Digest(CoreOf(k))
    {
      hide StoreWord;
      digests := seq(lanes, _ => []);
      for i := 0 to 8
        invariant |digests| == lanes && forall k: nat | k < lanes :: digests[k] == DigestOf(CoreOf(k), i)
      {
        var words := Row(36 + i);
        digests := seq(lanes, k requires 0 <= k < lanes => digests[k] + StoreWord(words[k]));
      }
    }

    /** if (!Wlow--) Whigh--; */
    method CountDown()
      modifies `Whigh, `Wlow
      ensures W() == Previous(old(W()))
    {
      if Wlow == 0 {
        Whigh := Whigh - 1;
      }
      Wlow := Wlow - 1;
    }
  }

  lemma CountingWord(first: nat, u: nat)
    requires u < 16
    ensures CountingBlock(first)[4 * u] == ((first + u) % 256) as Byte
    ensures CountingBlock(first)[4 * u + 1] == ((first + u) / 256 % 256) as Byte
    ensures CountingBlock(first)[4 * u + 2] == CountingBlock(first)[4 * u + 3] == 0
  {
  }

  lemma CountingHigh(first: nat)
    ensures forall i | 0 <= i < 64 && i % 4 >= 2 :: CountingBlock(first)[i] == 0
  {
  }
}
