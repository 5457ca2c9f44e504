/**
 The deadline calculations of the C library, for 4 or 8 requests in parallel
 lanes and for one request with the scalar hash. Each is proved to store, in
 every request, the deadline of that request alone.
 */
module DeadlineMethods {
  import opened Shabal
  import opened DeadlineSpec
  import ShabalLanes
  import ShabalAsm

  class Request {
    const accountId: nat
    const nonce: nat
    const baseTarget: nat
    const scoopNr: nat
    const genSig: seq<Byte>
    var deadline: nat

    constructor (accountId: nat, nonce: nat, baseTarget: nat, scoopNr: nat, genSig: seq<Byte>)
      ensures this.accountId == accountId && this.nonce == nonce && this.baseTarget == baseTarget
      ensures this.scoopNr == scoopNr && this.genSig == genSig && deadline == 0
    {
      this.accountId := accountId;
      this.nonce := nonce;
      this.baseTarget := baseTarget;
      this.scoopNr := scoopNr;
      this.genSig := genSig;
      deadline := 0;
    }

    /** The C code reads 32 signature bytes, indexes the nonce data with the scoop and divides by the base target. */
    predicate Usable() {
      scoopNr < NUM_SCOOPS && baseTarget != 0 && |genSig| == HASH_SIZE
    }

    /** The stored deadline is that of this request alone. */
    ghost predicate Answered()
      reads this
    {
      Usable() && deadline == Deadline(accountId, nonce, genSig, scoopNr, baseTarget)
    }

    /** What the second hash covers, given the nonce data and its hash. */
    function SecondInput(data: seq<Byte>, final: seq<Byte>): seq<Byte>
      requires Usable() && NONCE_SIZE <= |data| && |final| == 32
    {
      genSig + Scoop(data, final, scoopNr)
    }
  }

  // ----- rows of the generated data

  /** Bytes from..from + n of row j. */
  function RowRange(g: array2<bv8>, j: nat, from: nat, n: nat): (s: seq<Byte>)
    requires j < g.Length0 && from + n <= g.Length1
    reads g
    ensures |s| == n && forall b | 0 <= b < n :: s[b] == g[j, from + b]
  {
    seq(n, b requires 0 <= b < n reads g => g[j, from + b])
  }

  /** Row j from a position to the end. */
  function Tail(g: array2<bv8>, j: nat, from: nat): (s: seq<Byte>)
    requires j < g.Length0 && from <= g.Length1
    reads g
    ensures |s| == g.Length1 - from
  {
    RowRange(g, j, from, g.Length1 - from)
  }

  function Rows(g: array2<bv8>, from: nat, n: nat): (s: seq<seq<Byte>>)
    requires from + n <= g.Length1
    reads g
    ensures |s| == g.Length0 && forall j | 0 <= j < g.Length0 :: s[j] == RowRange(g, j, from, n)
  {
    seq(g.Length0, j requires 0 <= j < g.Length0 reads g => RowRange(g, j, from, n))
  }

  /** Init, one update, close. */
  method HashLanes(x: ShabalLanes.Context, data: seq<seq<Byte>>, len: nat) returns (digests: seq<seq<Byte>>)
    requires x.Valid() && ShabalLanes.SameLength(data, x.lanes, len)
    modifies x, x.state, x.buf
    ensures x.Valid() && |digests| == x.lanes
    ensures forall j: nat | j < x.lanes :: digests[j] == Hash(data[j])
  {
    hide InitialStream, Feed, Finish;
    x.Init();
    x.Update(data, len);
    digests := x.Close();
  }

  // ----- the parallel calculation

  /** C: calculate_deadlines_sse4 for 4 requests, calculate_deadlines_avx2 for 8. */
  method CalculateDeadlines(reqs: seq<Request>)
    requires forall j | 0 <= j < |reqs| :: reqs[j].Usable()
    modifies reqs
    ensures forall j | 0 <= j < |reqs| :: reqs[j].Answered()
  {
    hide Deadline, NonceData, Hash, Scoop, LittleEndian, Divide;
    var lanes := |reqs|;
    var gendata := new bv8[lanes, NONCE_SIZE + 16]((_, _) => 0);
    var x := new ShabalLanes.Context(lanes);
    GenerateLanes(reqs, gendata, x);
    ghost var data := Rows(gendata, 0, NONCE_SIZE + 16);
    assert forall j | 0 <= j < lanes :: data[j] == Tail(gendata, j, 0);
    var finals := HashLanes(x, Rows(gendata, 0, NONCE_SIZE + 16), NONCE_SIZE + 16);
    CoverLanes(gendata, finals, data);
    var finals2 := DeadlineLanes(reqs, gendata, x, data, finals);
    for j := 0 to lanes
      invariant forall l | 0 <= l < j :: reqs[l].Answered()
    {
      DeadlineParts(reqs[j], data[j], finals[j], finals2[j]);
      reqs[j].deadline := Divide(LittleEndian(finals2[j], 8), reqs[j].baseTarget);
    }
  }

  lemma DeadlineParts(r: Request, data: seq<Byte>, final: seq<Byte>, final2: seq<Byte>)
    requires r.Usable() && data == NonceData(r.accountId, r.nonce)
    requires final == Hash(data) && final2 == Hash(r.SecondInput(data, final))
    ensures Deadline(r.accountId, r.nonce, r.genSig, r.scoopNr, r.baseTarget)
            == Divide(LittleEndian(final2, 8), r.baseTarget)
  {
    hide NonceData, Hash, Scoop, LittleEndian, Divide;
  }

  /** Seeds at the end of each row, then hashes backwards over the whole row. */
  method GenerateLanes(reqs: seq<Request>, gendata: array2<bv8>, x: ShabalLanes.Context)
    requires x.Valid() && x.lanes == |reqs| == gendata.Length0 && gendata.Length1 == NONCE_SIZE + 16 && x.buf != gendata
    modifies gendata, x, x.state, x.buf
    ensures x.Valid()
    ensures forall j | 0 <= j < |reqs| :: Tail(gendata, j, 0) == NonceData(reqs[j].accountId, reqs[j].nonce)
  {
    hide Hash, Prepend, Front;
    SeedLanes(reqs, gendata);
    var i := NONCE_SIZE;
    while i != 0
      invariant x.Valid() && 0 <= i <= NONCE_SIZE && i % 32 == 0
      invariant forall j | 0 <= j < |reqs| ::
                  Extend(Tail(gendata, j, i), NONCE_SIZE + 16) == NonceData(reqs[j].accountId, reqs[j].nonce)
    {
      GenerateStep(reqs, gendata, x, i - HASH_SIZE);
      i := i - HASH_SIZE;
    }
    WholeRows(gendata);
  }

  /** Once a row is complete nothing is put in front of it. */
  lemma WholeRows(gendata: array2<bv8>)
    requires gendata.Length1 == NONCE_SIZE + 16
    ensures forall j | 0 <= j < gendata.Length0 :: Extend(Tail(gendata, j, 0), NONCE_SIZE + 16) == Tail(gendata, j, 0)
  {
    hide Prepend;
  }

  method SeedLanes(reqs: seq<Request>, gendata: array2<bv8>)
    requires |reqs| == gendata.Length0 && gendata.Length1 == NONCE_SIZE + 16
    modifies gendata
    ensures forall j | 0 <= j < |reqs| :: Tail(gendata, j, NONCE_SIZE) == Seed(reqs[j].accountId, reqs[j].nonce)
  {
    hide ByteOf;
    forall j, b | 0 <= j < |reqs| && NONCE_SIZE <= b < NONCE_SIZE + 16 {
      gendata[j, b] := Seed(reqs[j].accountId, reqs[j].nonce)[b - NONCE_SIZE];
    }
  }

  /** One pass of the backward loop: hash what follows position at + 32 and put the hash in front of it. */
  method GenerateStep(reqs: seq<Request>, gendata: array2<bv8>, x: ShabalLanes.Context, at: nat)
    requires x.Valid() && x.lanes == |reqs| == gendata.Length0 && gendata.Length1 == NONCE_SIZE + 16 && x.buf != gendata
    requires at + 32 <= NONCE_SIZE
    modifies gendata, x, x.state, x.buf
    ensures x.Valid()
    ensures forall j | 0 <= j < |reqs| :: Tail(gendata, j, at) == Prepend(old(Tail(gendata, j, at + 32)))
  {
    hide Hash;
    var i := at + 32;
    var len := NONCE_SIZE + 16 - i;
    if len > HASH_CAP {
      len := HASH_CAP;
    }
    var digests := HashLanes(x, Rows(gendata, i, len), len);
    forall j, b | 0 <= j < |reqs| && at <= b < i {
      gendata[j, b] := digests[j][b - at];
    }
    forall j | 0 <= j < |reqs|
      ensures Tail(gendata, j, at) == Prepend(old(Tail(gendata, j, at + 32)))
    {
      assert Front(old(Tail(gendata, j, i)), HASH_CAP) == old(RowRange(gendata, j, i, len));
    }
  }

  /** The final exclusive or over all nonce bytes of all lanes. */
  method CoverLanes(gendata: array2<bv8>, finals: seq<seq<Byte>>, ghost data: seq<seq<Byte>>)
    requires gendata.Length1 == NONCE_SIZE + 16 && |finals| == gendata.Length0
    requires forall j | 0 <= j < |finals| :: |finals[j]| == 32
    requires data == Rows(gendata, 0, NONCE_SIZE + 16)
    modifies gendata
    ensures forall j, b | 0 <= j < |finals| && 0 <= b < NONCE_SIZE :: gendata[j, b] == Covered(data[j], finals[j], b)
  {
    hide XorByte;
    for i := 0 to NONCE_SIZE
      invariant forall j, b | 0 <= j < |finals| && 0 <= b < i :: gendata[j, b] == Covered(data[j], finals[j], b)
      invariant forall j, b | 0 <= j < |finals| && i <= b < NONCE_SIZE :: gendata[j, b] == data[j][b]
    {
      CoverColumn(gendata, finals, i);
    }
  }

  method CoverColumn(gendata: array2<bv8>, finals: seq<seq<Byte>>, i: nat)
    requires i < gendata.Length1 && |finals| == gendata.Length0
    requires forall j | 0 <= j < |finals| :: |finals[j]| == 32
    modifies gendata
    ensures forall j | 0 <= j < |finals| :: gendata[j, i] == XorByte(old(gendata[j, i]), finals[j][i % 32])
    ensures forall j, b | 0 <= j < |finals| && 0 <= b < gendata.Length1 && b != i :: gendata[j, b] == old(gendata[j, b])
  {
    hide XorByte;
    var column := seq(|finals|, j requires 0 <= j < |finals| reads gendata =>
                        XorByte(gendata[j, i], finals[j][i % 32]));
    forall j | 0 <= j < |finals| {
      gendata[j, i] := column[j];
    }
  }

  /** The second hash: generation signature, then the two scoop halves. */
  method DeadlineLanes(reqs: seq<Request>, gendata: array2<bv8>, x: ShabalLanes.Context,
                       ghost data: seq<seq<Byte>>, ghost finals: seq<seq<Byte>>)
    returns (finals2: seq<seq<Byte>>)
    requires x.Valid() && x.lanes == |reqs| == gendata.Length0 == |data| == |finals|
             && gendata.Length1 == NONCE_SIZE + 16
    requires x.buf != gendata && forall j | 0 <= j < |reqs| :: reqs[j].Usable()
    requires forall j | 0 <= j < |reqs| :: |data[j]| == NONCE_SIZE + 16 && |finals[j]| == 32
    requires forall j, b | 0 <= j < |reqs| && 0 <= b < NONCE_SIZE :: gendata[j, b] == Covered(data[j], finals[j], b)
    modifies x, x.state, x.buf
    ensures |finals2| == |reqs|
    ensures forall j: nat | j < |reqs| :: finals2[j] == Hash(reqs[j].SecondInput(data[j], finals[j]))
  {
    hide InitialStream, Feed, Finish, Covered;
    var lanes := |reqs|;
    x.Init();
    var sigs := seq(lanes, j requires 0 <= j < lanes => reqs[j].genSig);
    x.Update(sigs, HASH_SIZE);
    var scoops := seq(lanes, j requires 0 <= j < lanes && reqs[j].Usable() reads gendata =>
      RowRange(gendata, j, reqs[j].scoopNr * SCOOP_SIZE, 32)
      + RowRange(gendata, j, (4095 - reqs[j].scoopNr) * SCOOP_SIZE + 32, 32));
    x.Update(scoops, SCOOP_SIZE);
    finals2 := x.Close();
    forall j: nat | j < |reqs|
      ensures finals2[j] == Hash(reqs[j].SecondInput(data[j], finals[j]))
    {
      FeedTwice(InitialStream(), sigs[j], scoops[j]);
      assert scoops[j] == Scoop(data[j], finals[j], reqs[j].scoopNr);
    }
  }

  // ----- the scalar calculation

  /** shabal_init, one shabal call, shabal_close. */
  method HashScalar(x: ShabalAsm.AsmContext, data: seq<Byte>) returns (digest: seq<Byte>)
    requires x.Valid()
    modifies x, x.a, x.b, x.c, x.buf
    ensures x.Valid() && digest == Hash(data)
  {
    hide InitialStream, InitialCore, Feed, Finish;
    x.Init();
    x.Update(data);
    digest := x.Close();
  }

  /** C: calculate_deadline. */
  method CalculateDeadline(r: Request)
    requires r.Usable()
    modifies r
    ensures r.Answered()
  {
    hide Deadline, NonceData, Hash, Scoop, LittleEndian, Divide, Seed,
           InitialStream, Feed, Finish, Covered;
    var gendata := new bv8[NONCE_SIZE + 16](_ => 0);
    var x := new ShabalAsm.AsmContext();
    GenerateScalar(r, gendata, x);
    ghost var data := gendata[..];
    var final := HashScalar(x, gendata[..]);
    CoverScalar(gendata, final);
    var final2 := DeadlineScalar(r, gendata, x, data, final);
    DeadlineParts(r, data, final, final2);
    r.deadline := Divide(LittleEndian(final2, 8), r.baseTarget);
  }

  method GenerateScalar(r: Request, gendata: array<bv8>, x: ShabalAsm.AsmContext)
    requires x.Valid() && gendata.Length == NONCE_SIZE + 16 && x.buf != gendata
    modifies gendata, x, x.a, x.b, x.c, x.buf
    ensures x.Valid() && gendata[..] == NonceData(r.accountId, r.nonce)
  {
    hide Hash, Prepend, Front, ByteOf;
    forall b | NONCE_SIZE <= b < NONCE_SIZE + 16 {
      gendata[b] := Seed(r.accountId, r.nonce)[b - NONCE_SIZE];
    }
    assert gendata[NONCE_SIZE..] == Seed(r.accountId, r.nonce);
    var i := NONCE_SIZE;
    while i > 0
      invariant x.Valid() && 0 <= i <= NONCE_SIZE && i % 32 == 0
      invariant Extend(gendata[i..], NONCE_SIZE + 16) == NonceData(r.accountId, r.nonce)
    {
      StepScalar(gendata, x, i - HASH_SIZE);
      i := i - HASH_SIZE;
    }
    assert gendata[0..] == gendata[..];
  }

  method StepScalar(gendata: array<bv8>, x: ShabalAsm.AsmContext, at: nat)
    requires x.Valid() && gendata.Length == NONCE_SIZE + 16 && x.buf != gendata
    requires at + 32 <= NONCE_SIZE
    modifies gendata, x, x.a, x.b, x.c, x.buf
    ensures x.Valid() && gendata[at..] == Prepend(old(gendata[at + 32..]))
  {
    hide Hash;
    var i := at + 32;
    var len := NONCE_SIZE + 16 - i;
    if len > HASH_CAP {
      len := HASH_CAP;
    }
    var digest := HashScalar(x, gendata[i..i + len]);
    forall b | at <= b < i {
      gendata[b] := digest[b - at];
    }
    assert Front(old(gendata[i..]), HASH_CAP) == old(gendata[i..i + len]);
    assert gendata[at..i] == digest;
    assert gendata[i..] == old(gendata[i..]);
    assert gendata[at..] == gendata[at..i] + gendata[i..];
  }

  method CoverScalar(gendata: array<bv8>, final: seq<Byte>)
    requires gendata.Length == NONCE_SIZE + 16 && |final| == 32
    modifies gendata
    ensures forall b | 0 <= b < NONCE_SIZE :: gendata[b] == Covered(old(gendata[..]), final, b)
  {
    hide XorByte;
    for i := 0 to NONCE_SIZE
      invariant forall b | 0 <= b < i :: gendata[b] == Covered(old(gendata[..]), final, b)
      invariant forall b | i <= b < NONCE_SIZE :: gendata[b] == old(gendata[..])[b]
    {
      gendata[i] := XorByte(gendata[i], final[i % 32]);
    }
  }

  method DeadlineScalar(r: Request, gendata: array<bv8>, x: ShabalAsm.AsmContext,
                        ghost data: seq<Byte>, ghost final: seq<Byte>) returns (final2: seq<Byte>)
    requires x.Valid() && r.Usable()
    requires gendata.Length == NONCE_SIZE + 16 == |data| && |final| == 32 && x.buf != gendata
    requires forall b | 0 <= b < NONCE_SIZE :: gendata[b] == Covered(data, final, b)
    modifies x, x.a, x.b, x.c, x.buf
    ensures final2 == Hash(r.SecondInput(data, final))
  {
    hide InitialStream, InitialCore, Feed, Finish, Covered;
    x.Init();
    x.Update(r.genSig);
    var low, high := r.scoopNr * SCOOP_SIZE, (4095 - r.scoopNr) * SCOOP_SIZE + 32;
    var scoop := gendata[low..low + 32] + gendata[high..high + 32];
    assert scoop == Scoop(data, final, r.scoopNr);
    x.Update(scoop);
    FeedTwice(InitialStream(), r.genSig, scoop);
    final2 := x.Close();
  }
}
