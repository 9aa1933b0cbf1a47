/** The key wrap of RFC 3394 as its section 2.2.1 defines it, on one byte string. It shares nothing
    with the code's arrays and loops, which KeyWrap proves equal to it. */
module Rfc3394 {
  import opened Foundations

  type Block = b: bytes | |b| == 16 witness [0, 0, 0, 0, 0, 0, 0, 0, 0, 0, 0, 0, 0, 0, 0, 0]

  /** AES under a key. */
  type Encipher = (bytes, Block) -> Block

  /** Byte j of t, counted from the least significant one. */
  function Byte(t: nat, j: nat): bv8 {
    if j == 0 then (t % 0x100) as bv8 else Byte(t / 0x100, j - 1)
  }

  /** t as 64 bits, most significant byte first. */
  function Counter(t: nat): (b: bytes)
    ensures |b| == 8
  {
    seq(8, i requires 0 <= i < 8 => Byte(t, 7 - i))
  }

  /** Step t on A | R[1] | ... | R[n]: B = AES(K, A | R[1]); then A = MSB(64, B) ^ t, the registers
      move down by one place, and R[n] = LSB(64, B). */
  function Step(aes: Encipher, kek: bytes, s: bytes, t: nat): (s': bytes)
    requires |s| >= 16
    ensures |s'| == |s|
  {
    var b := aes(kek, s[..16]);
    seq(8, i requires 0 <= i < 8 => b[i] ^ Counter(t)[i]) + s[16..] + b[8..]
  }

  function Steps(aes: Encipher, kek: bytes, s: bytes, t: nat): (s': bytes)
    requires |s| >= 16
    ensures |s'| == |s|
  {
    if t == 0 then s else Step(aes, kek, Steps(aes, kek, s, t - 1), t)
  }

  /** The key is one of AES, the plaintext two or more 64-bit values, and w its n * 6 steps from
      the initial value of section 2.2.3.1. */
  predicate IsWrapped(aes: Encipher, kek: bytes, p: bytes, w: bytes) {
    && |kek| in {16, 24, 32} && |p| % 8 == 0 && |p| >= 16
    && w == Steps(aes, kek, [0xA6, 0xA6, 0xA6, 0xA6, 0xA6, 0xA6, 0xA6, 0xA6] + p, 6 * (|p| / 8))
  }
}
