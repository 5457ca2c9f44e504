/**
 What the deadline of a nonce is, byte by byte: which bytes each hash covers,
 where the seed, the scoop and its mirror stand, and which number is divided.
 */
module DeadlineLaws {
  import opened Shabal
  import opened DeadlineSpec
  import opened Radix

  // ----- numbers and bytes

  /** The bytes of a number written with n digits to the base 256. */
  lemma {:induction false} ByteOfDigits(d: seq<nat>, i: nat)
    requires i < |d| && forall k | 0 <= k < |d| :: d[k] < 256
    ensures ByteOf(Value(d, 256), |d| - 1 - i) == d[i] as Byte
  {
    var n := |d|;
    var x := Value(d, 256);
    LastDigit(Value(d[..n - 1], 256), d[n - 1]);
    if i == n - 1 {
      assert ByteOf(x, 0) == (x % 256) as Byte;
    } else {
      ByteOfDigits(d[..n - 1], i);
      assert ByteOf(x, n - 1 - i) == ByteOf(x / 256, n - 2 - i);
    }
  }

  lemma LastDigit(q: nat, r: nat)
    requires r < 256
    ensures (q * 256 + r) / 256 == q && (q * 256 + r) % 256 == r
  {
  }

  /** Behind the nonce data stand the account id and the nonce, each in eight bytes, high byte first. */
  lemma {:induction false} SeedAt(account: seq<nat>, nonce: seq<nat>, i: nat)
    requires |account| == |nonce| == 8 && i < 16
    requires forall k | 0 <= k < 8 :: account[k] < 256 && nonce[k] < 256
    ensures Seed(Value(account, 256), Value(nonce, 256))[i] == (if i < 8 then account[i] else nonce[i - 8]) as Byte
  {
    hide Value, ByteOf;
    if i < 8 {
      ByteOfDigits(account, i);
    } else {
      ByteOfDigits(nonce, i - 8);
    }
  }

  ghost function Number(b0: nat, b1: nat, b2: nat, b3: nat, b4: nat, b5: nat, b6: nat, b7: nat): nat {
    b0 + 0x100 * b1 + 0x1_0000 * b2 + 0x100_0000 * b3
    + 0x1_0000_0000 * b4 + 0x100_0000_0000 * b5 + 0x1_0000_0000_0000 * b6 + 0x100_0000_0000_0000 * b7
  }

  /** The number in the first eight bytes, low byte first. */
  ghost function FirstEight(s: seq<Byte>): nat
    requires |s| >= 8
  {
    Number(s[0] as nat, s[1] as nat, s[2] as nat, s[3] as nat, s[4] as nat, s[5] as nat, s[6] as nat, s[7] as nat)
  }

  lemma Nested(b0: nat, b1: nat, b2: nat, b3: nat, b4: nat, b5: nat, b6: nat, b7: nat)
    ensures (((((((b7 * 256 + b6) * 256 + b5) * 256 + b4) * 256 + b3) * 256 + b2) * 256 + b1) * 256 + b0)
            == Number(b0, b1, b2, b3, b4, b5, b6, b7)
  {
  }

  lemma EightLittleEndian(s: seq<Byte>)
    requires |s| >= 8
    ensures LittleEndian(s, 8) == FirstEight(s)
  {
    hide LittleEndian, Number;
    LittleEndianStep(s, 0);
    LittleEndianStep(s, 1);
    LittleEndianStep(s, 2);
    LittleEndianStep(s, 3);
    LittleEndianStep(s, 4);
    LittleEndianStep(s, 5);
    LittleEndianStep(s, 6);
    LittleEndianStep(s, 7);
    NoBytesLeft(s[8..]);
    Nested(s[0] as nat, s[1] as nat, s[2] as nat, s[3] as nat, s[4] as nat, s[5] as nat, s[6] as nat, s[7] as nat);
  }

  lemma NoBytesLeft(s: seq<Byte>)
    ensures LittleEndian(s, 0) == 0
  {
  }

  lemma LittleEndianStep(s: seq<Byte>, i: nat)
    requires i < 8 <= |s|
    ensures LittleEndian(s[i..], 8 - i) == LittleEndian(s[i + 1..], 7 - i) * 256 + s[i] as nat
    ensures s[0..] == s
  {
    assert s[i..][1..] == s[i + 1..];
  }

  // ----- the nonce data

  /** Every block of 32 bytes is the hash of the 4096 bytes behind it, or of all that follow when there are fewer. */
  ghost predicate Chained(data: seq<Byte>, blocks: nat) {
    32 * blocks <= |data| && forall k: nat | k < blocks :: Block32(data, k) == Hash(Behind(data, k))
  }

  ghost function Block32(data: seq<Byte>, k: nat): seq<Byte>
    requires 32 * k + 32 <= |data|
  {
    data[32 * k..32 * k + 32]
  }

  ghost function Behind(data: seq<Byte>, k: nat): seq<Byte>
    requires 32 * k + 32 <= |data|
  {
    var from := 32 * k + 32;
    if from + 4096 <= |data| then data[from..from + 4096] else data[from..]
  }

  lemma BehindIsFront(data: seq<Byte>, k: nat)
    requires 32 * k + 32 <= |data|
    ensures Behind(data, k) == Front(data[32 * k + 32..], HASH_CAP)
  {
  }

  lemma {:induction false} ExtendChains(data: seq<Byte>, k: nat)
    ensures var r := Extend(data, |data| + 32 * k);
            |r| == |data| + 32 * k && r[32 * k..] == data && Chained(r, k)
    decreases k
  {
    hide Hash, Front;
    var size := |data| + 32 * k;
    var r := Extend(data, size);
    if k == 0 {
    } else {
      ExtendChains(Prepend(data), k - 1);
      assert r == Extend(Prepend(data), size);
      BehindIsFront(r, k - 1);
      SuffixParts(r, k - 1, Hash(Front(data, HASH_CAP)), data);
    }
  }

  lemma SuffixParts(r: seq<Byte>, k: nat, head: seq<Byte>, tail: seq<Byte>)
    requires 32 * k <= |r| && |head| == 32 && r[32 * k..] == head + tail
    ensures r[32 * k + 32..] == tail
    ensures 32 * k + 32 <= |r| && Block32(r, k) == head
  {
    assert r[32 * k + 32..] == r[32 * k..][32..];
    assert r[32 * k..32 * k + 32] == r[32 * k..][..32];
  }

  ghost function From(data: seq<Byte>, k: nat): seq<Byte> {
    if 32 * k <= |data| then data[32 * k..] else []
  }

  lemma FromSplit(data: seq<Byte>, blocks: nat, k: nat)
    requires k < blocks && Chained(data, blocks)
    ensures From(data, k) == Hash(Front(From(data, k + 1), HASH_CAP)) + From(data, k + 1)
  {
    hide Hash, Front;
    BehindIsFront(data, k);
    assert 32 * (k + 1) == 32 * k + 32;
    assert data[32 * k..] == Block32(data, k) + data[32 * k + 32..];
  }

  /** The hashes leave no choice: what stands at the end decides everything in front of it. */
  lemma {:induction false} ChainUnique(r: seq<Byte>, t: seq<Byte>, blocks: nat, k: nat)
    requires k <= blocks && Chained(r, blocks) && Chained(t, blocks)
    requires From(r, blocks) == From(t, blocks)
    ensures From(r, k) == From(t, k)
    decreases blocks - k
  {
    hide Hash, Front, From, Chained;
    if k == blocks {
    } else {
      ChainUnique(r, t, blocks, k + 1);
      FromSplit(r, blocks, k);
      FromSplit(t, blocks, k);
    }
  }

  /**
   The nonce data is the one sequence of 262160 bytes that ends in the seed and
   whose 8192 blocks of 32 bytes are the hashes of at most 4096 bytes behind them.
   */
  lemma {:induction false} NonceDataIff(data: seq<Byte>, accountId: nat, nonce: nat)
    ensures data == NonceData(accountId, nonce)
            <==> |data| == 262160 && data[262144..] == Seed(accountId, nonce) && Chained(data, 8192)
  {
    hide Extend, Chained, Seed;
    var r := NonceData(accountId, nonce);
    ExtendChains(Seed(accountId, nonce), 8192);
    if |data| == 262160 && data[262144..] == Seed(accountId, nonce) && Chained(data, 8192) {
      ChainUnique(data, r, 8192, 0);
      assert data[32 * 0..] == data && r[32 * 0..] == r;
    }
  }

  // ----- the scoop

  /** The first half of a scoop stands in its own place, the second in that of the mirror scoop. */
  lemma ScoopAt(data: seq<Byte>, final: seq<Byte>, scoop: nat, i: nat)
    requires |data| == 262160 && |final| == 32 && scoop < 4096 && i < 64
    ensures Scoop(data, final, scoop)[i]
            == if i < 32 then data[64 * scoop + i] ^ final[i] else data[64 * (4095 - scoop) + i] ^ final[i - 32]
  {
    hide XorByte;
    HalfPlaces(scoop, i);
    var at := if i < 32 then 64 * scoop + i else 64 * (4095 - scoop) + i;
    assert Scoop(data, final, scoop)[i] == Covered(data, final, at);
    assert i >= 32 ==> i % 32 == i - 32;
    Xored(data[at], final[i % 32]);
  }

  lemma HalfPlaces(scoop: nat, i: nat)
    requires scoop < 4096 && i < 64
    ensures (64 * scoop + i) % 32 == i % 32
    ensures (64 * (4095 - scoop) + i) % 32 == i % 32
  {
    SamePlace(2 * scoop, i);
    SamePlace(2 * (4095 - scoop), i);
  }

  lemma SamePlace(q: nat, i: nat)
    ensures (32 * q + i) % 32 == i % 32
  {
  }

  lemma Xored(x: bv8, y: bv8)
    ensures XorByte(x, y) == x ^ y
  {
  }

  // ----- the deadline

  /** 96 bytes: the signature, the first half of a scoop and the second half of its mirror, both covered. */
  ghost predicate IsSecondInput(input: seq<Byte>, genSig: seq<Byte>, data: seq<Byte>, final: seq<Byte>, scoop: nat)
    requires scoop < 4096 && |genSig| == 32 && |data| == 262160 && |final| == 32
  {
    && |input| == 96 && input[..32] == genSig
    && (forall i | 0 <= i < 32 :: input[32 + i] == data[64 * scoop + i] ^ final[i])
    && (forall i | 0 <= i < 32 :: input[64 + i] == data[64 * (4095 - scoop) + 32 + i] ^ final[i])
  }

  /**
   The deadline by places: the nonce data and its hash, 96 bytes hashed again, the
   first eight bytes of that digest as a number, divided by the base target.
   */
  lemma {:induction false} DeadlineByPlaces(accountId: nat, nonce: nat, genSig: seq<Byte>, scoop: nat, baseTarget: nat,
                                            data: seq<Byte>, final: seq<Byte>, input: seq<Byte>)
    requires scoop < 4096 && baseTarget != 0 && |genSig| == 32
    requires |data| == 262160 && data[262144..] == Seed(accountId, nonce) && Chained(data, 8192)
    requires final == Hash(data)
    requires IsSecondInput(input, genSig, data, final, scoop)
    ensures Deadline(accountId, nonce, genSig, scoop, baseTarget) == FirstEight(Hash(input)) / baseTarget
  {
    hide Hash, Scoop, LittleEndian, FirstEight, Chained, NonceData, Seed;
    NonceDataIff(data, accountId, nonce);
    SecondInputIs(data, final, genSig, scoop, input);
    EightLittleEndian(Hash(input));
  }

  lemma SecondInputIs(data: seq<Byte>, final: seq<Byte>, genSig: seq<Byte>, scoop: nat, input: seq<Byte>)
    requires scoop < 4096 && |genSig| == 32 && |data| == 262160 && |final| == 32
    requires IsSecondInput(input, genSig, data, final, scoop)
    ensures input == genSig + Scoop(data, final, scoop)
  {
    hide Scoop;
    forall i: nat | i < 64
      ensures input[32 + i] == Scoop(data, final, scoop)[i]
    {
      ScoopAt(data, final, scoop, i);
    }
    assert input == input[..32] + input[32..];
    assert input[32..] == Scoop(data, final, scoop);
  }
}
