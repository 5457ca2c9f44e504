/**
 Deadlines of nonce submissions: the nonce data generated backwards by hashing,
 the final exclusive or, the scoop taken from both ends, and the division by
 the base target. The specification handles one request alone.
 */
module DeadlineSpec {
  import opened Shabal

  const SCOOP_SIZE: nat := 64
  const NUM_SCOOPS: nat := 4096
  const NONCE_SIZE: nat := 262144
  const HASH_SIZE: nat := 32
  const HASH_CAP: nat := 4096

  /** Byte i of a 64-bit number, low byte first. */
  function ByteOf(x: nat, i: nat): Byte {
    if i == 0 then (x % 256) as Byte else ByteOf(x / 256, i - 1)
  }

  /** The sixteen bytes behind the nonce data: account id and nonce, high byte first. */
  function Seed(accountId: nat, nonce: nat): (s: seq<Byte>)
    ensures |s| == 16
  {
    seq(16, i requires 0 <= i < 16 => if i < 8 then ByteOf(accountId, 7 - i) else ByteOf(nonce, 15 - i))
  }

  /** At most n bytes from the front. */
  function Front(s: seq<Byte>, n: nat): (r: seq<Byte>)
    ensures |r| == if |s| < n then |s| else n
  {
    if |s| < n then s else s[..n]
  }

  /** Put hashes in front of the data until it has the given size: each hash covers what follows it, up to the cap. */
  function Extend(data: seq<Byte>, size: nat): (r: seq<Byte>)
    decreases size - |data|
  {
    if |data| >= size then data else Extend(Prepend(data), size)
  }

  function Prepend(data: seq<Byte>): (r: seq<Byte>)
    ensures |r| == |data| + 32
  {
    Hash(Front(data, HASH_CAP)) + data
  }

  lemma {:induction false} ExtendLength(data: seq<Byte>, size: nat, k: nat)
    requires size == |data| + 32 * k
    ensures |Extend(data, size)| == size
    decreases k
  {
    hide Prepend;
    if k == 0 {
    } else {
      ExtendLength(Prepend(data), size, k - 1);
    }
  }

  /** The nonce data followed by the seed. */
  function NonceData(accountId: nat, nonce: nat): (data: seq<Byte>)
    ensures |data| == NONCE_SIZE + 16
  {
    ExtendLength(Seed(accountId, nonce), NONCE_SIZE + 16, 8192);
    Extend(Seed(accountId, nonce), NONCE_SIZE + 16)
  }

  /** Byte i of the data with the hash of everything laid over it. */
  function Covered(data: seq<Byte>, final: seq<Byte>, i: nat): Byte
    requires i < |data| && |final| == 32
  {
    XorByte(data[i], final[i % 32])
  }

  function XorByte(x: bv8, y: bv8): bv8 { x ^ y }

  /** The n covered bytes from a position on. */
  function CoveredRange(data: seq<Byte>, final: seq<Byte>, from: nat, n: nat): (r: seq<Byte>)
    requires from + n <= |data| && |final| == 32
    ensures |r| == n
  {
    seq(n, i requires 0 <= i < n => Covered(data, final, from + i))
  }

  /** First half of the scoop, second half of its mirror scoop. */
  function Scoop(data: seq<Byte>, final: seq<Byte>, scoop: nat): (r: seq<Byte>)
    requires NONCE_SIZE <= |data| && |final| == 32 && scoop < NUM_SCOOPS
    ensures |r| == SCOOP_SIZE
  {
    CoveredRange(data, final, scoop * SCOOP_SIZE, 32) + CoveredRange(data, final, (4095 - scoop) * SCOOP_SIZE + 32, 32)
  }

  /** The number in the first n bytes, low byte first. */
  function LittleEndian(s: seq<Byte>, n: nat): nat
    requires n <= |s|
    decreases |s|, n
  {
    if n == 0 then 0 else LittleEndian(s[1..], n - 1) * 256 + s[0] as nat
  }

  /** The deadline of one request. */
  function Deadline(accountId: nat, nonce: nat, genSig: seq<Byte>, scoop: nat, baseTarget: nat): nat
    requires scoop < NUM_SCOOPS && baseTarget != 0
  {
    var data := NonceData(accountId, nonce);
    Divide(LittleEndian(Hash(genSig + Scoop(data, Hash(data), scoop)), 8), baseTarget)
  }

  function Divide(x: nat, y: nat): nat
    requires y != 0
  {
    x / y
  }
}
