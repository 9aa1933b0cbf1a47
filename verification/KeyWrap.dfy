/** AES Key Wrap (RFC 3394) as internal/crypto/encrypt.go computes it: six rounds of an
    indexed loop over an array of 8-byte registers. The AES block is any keyed bijection. */
module KeyWrap {
  import opened Foundations
  import opened R = Rfc3394

  type Half = h: bytes | |h| == 8 witness [0, 0, 0, 0, 0, 0, 0, 0]

  /** The block cipher is a parameter of everything below. */
  datatype BlockCipher = BlockCipher(
    encrypt: (bytes, Block) -> Block,
    decrypt: (bytes, Block) -> Block)

  ghost predicate Bijective(c: BlockCipher) {
    forall k: bytes, b: Block ::
      c.decrypt(k, c.encrypt(k, b)) == b && c.encrypt(k, c.decrypt(k, b)) == b
  }

  datatype Error = BadLength | BadKeySize | IntegrityFailed

  const IV: Half := [0xA6, 0xA6, 0xA6, 0xA6, 0xA6, 0xA6, 0xA6, 0xA6]

  const ROUNDS: nat := 6

  /** `aes.NewCipher` accepts exactly these key sizes. */
  predicate KeySizeOk(key: bytes) {
    |key| == 16 || |key| == 24 || |key| == 32
  }

  // --------------------------------------------------------------- bytes and registers

  function LowByte(v: nat): bv8 {
    (v % 0x100) as bv8
  }

  /** The k low-order bytes of v, most significant first. */
  function BigEndian(v: nat, k: nat): (r: bytes)
    ensures |r| == k
  {
    if k == 0 then [] else BigEndian(v / 0x100, k - 1) + [LowByte(v)]
  }

  /** `binary.BigEndian.PutUint64` */
  function BigEndian64(v: nat): Half {
    BigEndian(v, 8)
  }

  function BigEndianValue(b: bytes): nat {
    if b == [] then 0 else 0x100 * BigEndianValue(b[..|b| - 1]) + b[|b| - 1] as nat
  }

  function Power256(k: nat): nat {
    if k == 0 then 1 else 0x100 * Power256(k - 1)
  }

  lemma DigitsReadBack(high: nat, low: nat)
    requires high < 0x10 && low < 0x10
    ensures ((0x10 * high + low) as bv8) as nat == 0x10 * high + low
  {
  }

  lemma LowByteReadsBack(v: nat)
    requires v < 0x100
    ensures (v as bv8) as nat == v
  {
    DigitsReadBack(v / 0x10, v % 0x10);
  }

  lemma AppendedByte(b: bytes, x: bv8)
    ensures BigEndianValue(b + [x]) == 0x100 * BigEndianValue(b) + x as nat
  {
    assert (b + [x])[..|b|] == b;
  }

  /** Reading the bytes back most significant first gives the counter, as long as it fits. */
  lemma {:induction false} BigEndianReadsBack(v: nat, k: nat)
    requires v < Power256(k)
    ensures BigEndianValue(BigEndian(v, k)) == v
  {
    if k > 0 {
      var q, low := v / 0x100, v % 0x100;
      BigEndianReadsBack(q, k - 1);
      LowByteReadsBack(low);
      AppendedByte(BigEndian(q, k - 1), LowByte(v));
    }
  }

  function Xor(a: Half, b: Half): Half {
    seq(8, i requires 0 <= i < 8 => a[i] ^ b[i])
  }

  lemma XorCancels(a: Half, b: Half)
    ensures Xor(Xor(a, b), b) == a
  {
    forall i | 0 <= i < 8 ensures Xor(Xor(a, b), b)[i] == a[i] {
      assert (a[i] ^ b[i]) ^ b[i] == a[i];
    }
  }

  function Halves(p: bytes): (r: seq<Half>)
    requires |p| % 8 == 0
    ensures |r| == |p| / 8
  {
    seq(|p| / 8, i requires 0 <= i < |p| / 8 => p[8 * i..8 * i + 8])
  }

  function Join(r: seq<Half>): (p: bytes)
    ensures |p| == 8 * |r|
  {
    if r == [] then [] else Join(r[..|r| - 1]) + r[|r| - 1]
  }

  lemma SliceOfPrefix(q: bytes, x: bytes, lo: nat, hi: nat)
    requires lo <= hi <= |q|
    ensures (q + x)[lo..hi] == q[lo..hi]
  {
  }

  lemma HalvesAppend(q: bytes, x: Half)
    requires |q| % 8 == 0
    ensures Halves(q + x) == Halves(q) + [x]
  {
    var p, n := q + x, |q| / 8;
    forall i | 0 <= i < n ensures Halves(p)[i] == Halves(q)[i] {
      SliceOfPrefix(q, x, 8 * i, 8 * i + 8);
    }
    assert Halves(p)[n] == p[|q|..] == x;
  }

  lemma {:induction false} JoinHalves(p: bytes)
    requires |p| % 8 == 0
    ensures Join(Halves(p)) == p
  {
    if p != [] {
      var q, x: Half := p[..|p| - 8], p[|p| - 8..];
      assert p == q + x;
      JoinHalves(q);
      HalvesAppend(q, x);
      assert (Halves(q) + [x])[..|Halves(q)|] == Halves(q);
    }
  }

  lemma {:induction false} HalvesJoin(r: seq<Half>)
    ensures Halves(Join(r)) == r
  {
    if r != [] {
      var s := r[..|r| - 1];
      HalvesJoin(s);
      HalvesAppend(Join(s), r[|r| - 1]);
    }
  }

  // ---------------------------------------------- the register schedule, for any mixer

  /** The integrity register A and the registers R[0..n]. */
  datatype Registers<+H> = Registers(a: H, r: seq<H>)

  /** What one iteration does to A and one register, given the counter value. */
  type Mixer<!H> = (H, H, nat) -> (H, H)

  ghost predicate Undoes<H(!new)>(g: Mixer<H>, f: Mixer<H>) {
    forall a, x, t :: var y := f(a, x, t); g(y.0, y.1, t) == (a, x)
  }

  function Step<H>(f: Mixer<H>, s: Registers<H>, i: nat, t: nat): (s': Registers<H>)
    requires i < |s.r|
    ensures |s'.r| == |s.r|
  {
    var y := f(s.a, s.r[i], t);
    Registers(y.0, s.r[i := y.1])
  }

  /** The counter value after j whole rounds of n iterations. */
  function Rounds(n: nat, j: nat): nat {
    if j == 0 then 0 else Rounds(n, j - 1) + n
  }

  lemma {:induction false} RoundsIsProduct(n: nat, j: nat)
    ensures Rounds(n, j) == n * j
  {
    if j > 0 {
      RoundsIsProduct(n, j - 1);
    }
  }

  /** The registers after j whole rounds and i iterations of the next one. */
  function Ascend<H>(f: Mixer<H>, s: Registers<H>, j: nat, i: nat): (s': Registers<H>)
    requires i <= |s.r|
    ensures |s'.r| == |s.r|
    decreases j, i
  {
    if i > 0 then Step(f, Ascend(f, s, j, i - 1), i - 1, Rounds(|s.r|, j) + i)
    else if j > 0 then Ascend(f, s, j - 1, |s.r|)
    else s
  }

  /** Iteration i of round j first, then every earlier one in descending order. */
  function Descend<H>(f: Mixer<H>, s: Registers<H>, j: nat, i: nat): (s': Registers<H>)
    requires i <= |s.r|
    ensures |s'.r| == |s.r|
    decreases j, i
  {
    if i > 0 then Descend(f, Step(f, s, i - 1, Rounds(|s.r|, j) + i), j, i - 1)
    else if j > 0 then Descend(f, s, j - 1, |s.r|)
    else s
  }

  lemma DescendUnfolds<H>(f: Mixer<H>, s: Registers<H>, j: nat, i: nat)
    ensures Descend(f, s, j + 1, 0) == Descend(f, s, j, |s.r|)
    ensures i < |s.r| ==>
              Descend(f, s, j, i + 1) == Descend(f, Step(f, s, i, Rounds(|s.r|, j) + i + 1), j, i)
  {
  }

  lemma StepUndone<H(!new)>(f: Mixer<H>, g: Mixer<H>, s: Registers<H>, i: nat, t: nat)
    requires Undoes(g, f) && i < |s.r|
    ensures Step(g, Step(f, s, i, t), i, t) == s
  {
    assert Step(g, Step(f, s, i, t), i, t).r == s.r;
  }

  lemma {:induction false} DescendUndoesAscend<H(!new)>(f: Mixer<H>, g: Mixer<H>, s: Registers<H>,
                                                        j: nat, i: nat)
    requires Undoes(g, f) && i <= |s.r|
    ensures Descend(g, Ascend(f, s, j, i), j, i) == s
    decreases j, i
  {
    if i > 0 {
      StepUndone(f, g, Ascend(f, s, j, i - 1), i - 1, Rounds(|s.r|, j) + i);
      DescendUndoesAscend(f, g, s, j, i - 1);
    } else if j > 0 {
      DescendUndoesAscend(f, g, s, j - 1, |s.r|);
    }
  }

  lemma {:induction false} AscendUndoesDescend<H(!new)>(f: Mixer<H>, g: Mixer<H>, s: Registers<H>,
                                                        j: nat, i: nat)
    requires Undoes(f, g) && i <= |s.r|
    ensures Ascend(f, Descend(g, s, j, i), j, i) == s
    decreases j, i
  {
    if i > 0 {
      AscendUndoesDescend(f, g, Step(g, s, i - 1, Rounds(|s.r|, j) + i), j, i - 1);
      StepUndone(g, f, s, i - 1, Rounds(|s.r|, j) + i);
    } else if j > 0 {
      AscendUndoesDescend(f, g, s, j - 1, |s.r|);
    }
  }

  /** Section 2.2.1 of RFC 3394: every step mixes A with R1, moves R2..Rn down by one place
      and puts the mixed register in Rn. */
  function Shift<H>(f: Mixer<H>, s: Registers<H>, t: nat): (s': Registers<H>)
    requires |s.r| > 0
    ensures |s'.r| == |s.r|
  {
    if t == 0 then s else
      var p := Shift(f, s, t - 1);
      var y := f(p.a, p.r[0], t);
      Registers(y.0, p.r[1..] + [y.1])
  }

  function Rotate<H>(r: seq<H>, i: nat): seq<H>
    requires i <= |r|
  {
    r[i..] + r[..i]
  }

  lemma RotateStep<H>(r: seq<H>, i: nat, y: H)
    requires i < |r|
    ensures Rotate(r, i)[0] == r[i]
    ensures Rotate(r, i)[1..] + [y] == Rotate(r[i := y], i + 1)
  {
  }

  ghost predicate Rotated<H>(f: Mixer<H>, s: Registers<H>, t: nat, w: Registers<H>, i: nat) {
    |s.r| == |w.r| > 0 && i <= |w.r| && Shift(f, s, t) == Registers(w.a, Rotate(w.r, i))
  }

  lemma RotatedStep<H>(f: Mixer<H>, s: Registers<H>, t: nat, w: Registers<H>, i: nat)
    requires Rotated(f, s, t, w, i) && i < |w.r|
    ensures Rotated(f, s, t + 1, Step(f, w, i, t + 1), i + 1)
  {
    RotateStep(w.r, i, f(w.a, w.r[i], t + 1).1);
  }

  lemma RotatedWhole<H>(f: Mixer<H>, s: Registers<H>, t: nat, w: Registers<H>)
    requires Rotated(f, s, t, w, |w.r|)
    ensures Rotated(f, s, t, w, 0)
  {
    assert Rotate(w.r, 0) == Rotate(w.r, |w.r|);
  }

  /** After j rounds and i iterations the shift registers are the indexed ones rotated by i. */
  lemma {:induction false} ShiftIsRotation<H>(f: Mixer<H>, s: Registers<H>, j: nat, i: nat)
    requires |s.r| > 0 && i <= |s.r|
    ensures Rotated(f, s, Rounds(|s.r|, j) + i, Ascend(f, s, j, i), i)
    decreases j, i
  {
    if i > 0 {
      ShiftIsRotation(f, s, j, i - 1);
      RotatedStep(f, s, Rounds(|s.r|, j) + i - 1, Ascend(f, s, j, i - 1), i - 1);
    } else if j > 0 {
      ShiftIsRotation(f, s, j - 1, |s.r|);
      RotatedWhole(f, s, Rounds(|s.r|, j), Ascend(f, s, j, 0));
    } else {
      assert Rotate(s.r, 0) == s.r;
    }
  }

  lemma ShiftAfterRounds<H>(f: Mixer<H>, s: Registers<H>, j: nat)
    requires |s.r| > 0
    ensures Shift(f, s, |s.r| * j) == Ascend(f, s, j, 0)
  {
    RoundsIsProduct(|s.r|, j);
    ShiftIsRotation(f, s, j, 0);
    var r := Ascend(f, s, j, 0).r;
    assert Rotate(r, 0) == r;
  }

  // -------------------------------------------------------------------- wrap and unwrap

  /** B = AES(K, A | R); A = MSB(64, B) ^ t; R = LSB(64, B). */
  function WrapMixer(c: BlockCipher, kek: bytes): Mixer<Half> {
    (a: Half, x: Half, t: nat) =>
      var b := c.encrypt(kek, a + x);
      var lo: Half := b[8..];
      (Xor(b[..8], BigEndian64(t)), lo)
  }

  /** B = AES-1(K, (A ^ t) | R); A = MSB(64, B); R = LSB(64, B). */
  function UnwrapMixer(c: BlockCipher, kek: bytes): Mixer<Half> {
    (a: Half, x: Half, t: nat) =>
      var b := c.decrypt(kek, Xor(a, BigEndian64(t)) + x);
      var hi: Half, lo: Half := b[..8], b[8..];
      (hi, lo)
  }

  lemma MixersInverse(c: BlockCipher, kek: bytes)
    requires Bijective(c)
    ensures Undoes<Half>(UnwrapMixer(c, kek), WrapMixer(c, kek))
    ensures Undoes<Half>(WrapMixer(c, kek), UnwrapMixer(c, kek))
  {
    forall a: Half, x: Half, t: nat
      ensures var y := WrapMixer(c, kek)(a, x, t); UnwrapMixer(c, kek)(y.0, y.1, t) == (a, x)
    {
      var b: Block := c.encrypt(kek, a + x);
      XorCancels(b[..8], BigEndian64(t));
      assert b[..8] + b[8..] == b;
      assert (a + x)[..8] == a && (a + x)[8..] == x;
    }
    forall a: Half, x: Half, t: nat
      ensures var y := UnwrapMixer(c, kek)(a, x, t); WrapMixer(c, kek)(y.0, y.1, t) == (a, x)
    {
      var z: Half := Xor(a, BigEndian64(t));
      var b: Block := c.decrypt(kek, z + x);
      XorCancels(a, BigEndian64(t));
      assert b[..8] + b[8..] == b;
      assert (z + x)[..8] == z && (z + x)[8..] == x;
    }
  }

  function Wrap(c: BlockCipher, kek: bytes, plaintext: bytes): Result<bytes, Error> {
    if |plaintext| % 8 != 0 || |plaintext| / 8 < 2 then Err(BadLength)
    else if !KeySizeOk(kek) then Err(BadKeySize)
    else
      var s := Ascend<Half>(WrapMixer(c, kek), Registers(IV, Halves(plaintext)), ROUNDS, 0);
      Ok(s.a + Join(s.r))
  }

  function Unwrap(c: BlockCipher, kek: bytes, ciphertext: bytes): Result<bytes, Error> {
    if |ciphertext| % 8 != 0 || |ciphertext| / 8 - 1 < 2 then Err(BadLength)
    else if !KeySizeOk(kek) then Err(BadKeySize)
    else
      var s := Descend<Half>(UnwrapMixer(c, kek), Registers(ciphertext[..8], Halves(ciphertext[8..])), ROUNDS, 0);
      if s.a == IV then Ok(Join(s.r)) else Err(IntegrityFailed)
  }

  lemma UnwrapOfWrap(c: BlockCipher, kek: bytes, p: bytes, w: bytes)
    requires Bijective(c) && Wrap(c, kek, p) == Ok(w)
    ensures |w| == |p| + 8 && Unwrap(c, kek, w) == Ok(p)
  {
    var s0: Registers<Half> := Registers(IV, Halves(p));
    var s := Ascend<Half>(WrapMixer(c, kek), s0, ROUNDS, 0);
    assert w[..8] == s.a && w[8..] == Join(s.r);
    HalvesJoin(s.r);
    assert Descend<Half>(UnwrapMixer(c, kek), s, ROUNDS, 0) == s0 by {
      MixersInverse(c, kek);
      DescendUndoesAscend<Half>(WrapMixer(c, kek), UnwrapMixer(c, kek), s0, ROUNDS, 0);
    }
    assert Join(s0.r) == p by {
      JoinHalves(p);
    }
  }

  lemma WrapOfUnwrap(c: BlockCipher, kek: bytes, p: bytes, w: bytes)
    requires Bijective(c) && Unwrap(c, kek, w) == Ok(p)
    ensures Wrap(c, kek, p) == Ok(w)
  {
    var s0: Registers<Half> := Registers(w[..8], Halves(w[8..]));
    var s := Descend<Half>(UnwrapMixer(c, kek), s0, ROUNDS, 0);
    HalvesJoin(s.r);
    MixersInverse(c, kek);
    AscendUndoesDescend<Half>(WrapMixer(c, kek), UnwrapMixer(c, kek), s0, ROUNDS, 0);
    JoinHalves(w[8..]);
    assert w == w[..8] + w[8..];
  }

  /** Unwrap accepts exactly the image of wrap, and returns what was wrapped. */
  lemma UnwrapInvertsWrap(c: BlockCipher, kek: bytes, p: bytes, w: bytes)
    requires Bijective(c)
    ensures Wrap(c, kek, p) == Ok(w) <==> Unwrap(c, kek, w) == Ok(p)
  {
    if Wrap(c, kek, p) == Ok(w) {
      UnwrapOfWrap(c, kek, p, w);
    }
    if Unwrap(c, kek, w) == Ok(p) {
      WrapOfUnwrap(c, kek, p, w);
    }
  }

  /** Every key of a legal size wraps every plaintext of a legal length, and it comes back. */
  lemma RoundTrip(c: BlockCipher, kek: bytes, p: bytes)
    requires Bijective(c) && KeySizeOk(kek) && |p| % 8 == 0 && |p| >= 16
    ensures var w := Wrap(c, kek, p);
            w.Ok? && |w.value| == |p| + 8 && Unwrap(c, kek, w.value) == Ok(p)
  {
    UnwrapOfWrap(c, kek, p, Wrap(c, kek, p).value);
  }

  lemma WrapInjective(c: BlockCipher, kek: bytes, p: bytes, q: bytes)
    requires Bijective(c)
    requires Wrap(c, kek, p).Ok? && Wrap(c, kek, p) == Wrap(c, kek, q)
    ensures p == q
  {
    UnwrapOfWrap(c, kek, p, Wrap(c, kek, p).value);
    UnwrapOfWrap(c, kek, q, Wrap(c, kek, p).value);
  }

  // -------------------------------------------------------- the code meets its standard

  lemma {:induction false} BigEndianAt(v: nat, k: nat, i: nat)
    requires i < k
    ensures BigEndian(v, k)[i] == R.Byte(v, k - 1 - i)
  {
    if i < k - 1 {
      BigEndianAt(v / 0x100, k - 1, i);
    }
  }

  lemma CounterIsBigEndian(t: nat)
    ensures BigEndian64(t) == R.Counter(t)
  {
    forall i: nat | i < 8 ensures BigEndian64(t)[i] == R.Counter(t)[i] {
      BigEndianAt(t, 8, i);
    }
  }

  function Flat(s: Registers<Half>): (b: bytes)
    ensures |b| == 8 + 8 * |s.r|
  {
    s.a + Join(s.r)
  }

  lemma {:induction false} JoinFirst(r: seq<Half>)
    requires r != []
    ensures Join(r) == r[0] + Join(r[1..])
  {
    if |r| == 1 {
      assert Join(r[..0]) == [] && r[1..] == [];
    } else {
      var n := |r| - 1;
      JoinFirst(r[..n]);
      assert r[..n][1..] == r[1..][..n - 1];
    }
  }

  lemma JoinLast(r: seq<Half>, x: Half)
    ensures Join(r + [x]) == Join(r) + x
  {
    assert (r + [x])[..|r|] == r;
  }

  /** One step of the shift registers, read off the bytes. */
  lemma ShiftStepIsFlat(c: BlockCipher, kek: bytes, s: Registers<Half>, t: nat)
    requires |s.r| > 0
    ensures var y := WrapMixer(c, kek)(s.a, s.r[0], t);
            Flat(Registers(y.0, s.r[1..] + [y.1])) == R.Step(c.encrypt, kek, Flat(s), t)
  {
    var y := WrapMixer(c, kek)(s.a, s.r[0], t);
    JoinFirst(s.r);
    JoinLast(s.r[1..], y.1);
    CounterIsBigEndian(t);
    assert Flat(s)[..16] == s.a + s.r[0];
    assert Flat(s)[16..] == Join(s.r[1..]);
  }

  lemma {:induction false} ShiftIsFlat(c: BlockCipher, kek: bytes, s: Registers<Half>, t: nat)
    requires |s.r| > 0
    ensures Flat(Shift<Half>(WrapMixer(c, kek), s, t)) == R.Steps(c.encrypt, kek, Flat(s), t)
  {
    if t > 0 {
      ShiftIsFlat(c, kek, s, t - 1);
      ShiftStepIsFlat(c, kek, Shift<Half>(WrapMixer(c, kek), s, t - 1), t);
    }
  }

  lemma RoundsAreFlat(c: BlockCipher, kek: bytes, s: Registers<Half>, j: nat)
    requires |s.r| > 0
    ensures Flat(Ascend<Half>(WrapMixer(c, kek), s, j, 0)) == R.Steps(c.encrypt, kek, Flat(s), |s.r| * j)
  {
    ShiftAfterRounds<Half>(WrapMixer(c, kek), s, j);
    ShiftIsFlat(c, kek, s, |s.r| * j);
  }

  lemma StartIsFlat(p: bytes)
    requires |p| % 8 == 0
    ensures Flat(Registers(IV, Halves(p))) == [0xA6, 0xA6, 0xA6, 0xA6, 0xA6, 0xA6, 0xA6, 0xA6] + p
  {
    JoinHalves(p);
  }

  /** What the code wraps is exactly what the standard defines, and it refuses everything else. */
  lemma WrapIsSpecified(c: BlockCipher, kek: bytes, p: bytes, w: bytes)
    ensures Wrap(c, kek, p) == Ok(w) <==> R.IsWrapped(c.encrypt, kek, p, w)
    ensures Wrap(c, kek, p) == Err(BadLength) <==> |p| % 8 != 0 || |p| < 16
    ensures Wrap(c, kek, p) == Err(BadKeySize) <==> |p| % 8 == 0 && |p| >= 16 && |kek| !in {16, 24, 32}
  {
    if |p| % 8 == 0 && |p| >= 16 {
      StartIsFlat(p);
      RoundsAreFlat(c, kek, Registers(IV, Halves(p)), ROUNDS);
    }
  }

  /** Unwrapping gives back exactly the plaintexts that the standard wraps to the input. */
  lemma UnwrapIsSpecified(c: BlockCipher, kek: bytes, p: bytes, w: bytes)
    requires Bijective(c)
    ensures Unwrap(c, kek, w) == Ok(p) <==> R.IsWrapped(c.encrypt, kek, p, w)
    ensures Unwrap(c, kek, w) == Err(BadLength) <==> |w| % 8 != 0 || |w| < 24
    ensures Unwrap(c, kek, w) == Err(BadKeySize) <==> |w| % 8 == 0 && |w| >= 24 && |kek| !in {16, 24, 32}
  {
    UnwrapInvertsWrap(c, kek, p, w);
    WrapIsSpecified(c, kek, p, w);
  }

  // ------------------------------------------------------------------- the code's loops

  method Load(p: bytes) returns (r: array<Half>)
    requires |p| % 8 == 0
    ensures fresh(r) && r[..] == Halves(p)
  {
    var n := |p| / 8;
    r := new Half[n];
    for i := 0 to n
      invariant r[..i] == Halves(p)[..i]
    {
      r[i] := p[8 * i..8 * i + 8];
      assert r[..i + 1] == r[..i] + [r[i]];
    }
    assert r[..] == r[..n];
  }

  method StoreOut(r: array<Half>) returns (p: bytes)
    ensures p == Join(r[..])
  {
    p := [];
    for i := 0 to r.Length
      invariant p == Join(r[..i])
    {
      assert r[..i + 1][..i] == r[..i];
      p := p + r[i];
    }
    assert r[..] == r[..r.Length];
  }

  /** `for k := 0; k < 8; k++ { a[k] ^= tBytes[k] }` */
  method XorCounter(a: array<bv8>, t: nat)
    requires a.Length == 8
    modifies a
    ensures a[..] == Xor(old(a[..]), BigEndian64(t))
  {
    var tBytes := BigEndian64(t);
    for k := 0 to 8
      invariant forall m :: 0 <= m < k ==> a[m] == old(a[m]) ^ tBytes[m]
      invariant forall m :: k <= m < 8 ==> a[m] == old(a[m])
    {
      a[k] := a[k] ^ tBytes[k];
    }
  }

  method CopyInto(dst: array<bv8>, src: bytes)
    requires dst.Length == |src|
    modifies dst
    ensures dst[..] == src
  {
    forall k | 0 <= k < |src| {
      dst[k] := src[k];
    }
  }

  ghost function View(a: array<bv8>, r: array<Half>): Registers<Half>
    requires a.Length == 8
    reads a, r
  {
    Registers(a[..], r[..])
  }

  /** The body of the wrapping loop: A and R[i] are overwritten. */
  method WrapIteration(c: BlockCipher, kek: bytes, a: array<bv8>, r: array<Half>, i: nat, t: nat)
    requires a.Length == 8 && i < r.Length && a as object != r as object
    modifies a, r
    ensures View(a, r) == Step<Half>(WrapMixer(c, kek), old(View(a, r)), i, t)
  {
    ghost var s := View(a, r);
    var buf: Block := c.encrypt(kek, a[..] + r[i]);
    CopyInto(a, buf[..8]);
    XorCounter(a, t);
    r[i] := buf[8..];
    assert r[..] == s.r[i := buf[8..]];
  }

  /** The body of the unwrapping loop. */
  method UnwrapIteration(c: BlockCipher, kek: bytes, a: array<bv8>, r: array<Half>, i: nat, t: nat)
    requires a.Length == 8 && i < r.Length && a as object != r as object
    modifies a, r
    ensures View(a, r) == Step<Half>(UnwrapMixer(c, kek), old(View(a, r)), i, t)
  {
    ghost var s := View(a, r);
    XorCounter(a, t);
    var buf: Block := c.decrypt(kek, a[..] + r[i]);
    CopyInto(a, buf[..8]);
    r[i] := buf[8..];
    assert r[..] == s.r[i := buf[8..]];
  }

  /** The inner loop of the wrapping. */
  method WrapRound(c: BlockCipher, kek: bytes, a: array<bv8>, r: array<Half>, ghost s: Registers<Half>, j: nat)
    requires a.Length == 8 && a as object != r as object
    requires View(a, r) == Ascend<Half>(WrapMixer(c, kek), s, j, 0)
    modifies a, r
    ensures View(a, r) == Ascend<Half>(WrapMixer(c, kek), s, j + 1, 0)
  {
    var n := r.Length;
    RoundsIsProduct(n, j);
    for i := 0 to n
      invariant View(a, r) == Ascend<Half>(WrapMixer(c, kek), s, j, i)
    {
      WrapIteration(c, kek, a, r, i, n * j + i + 1);
    }
  }

  /** `aesKeyWrap`: the registers live in arrays that every iteration overwrites. */
  method AesKeyWrap(c: BlockCipher, kek: bytes, plaintext: bytes) returns (res: Result<bytes, Error>)
    ensures res == Wrap(c, kek, plaintext)
    ensures res.Ok? ==> R.IsWrapped(c.encrypt, kek, plaintext, res.value)
    ensures res.Err? <==> |plaintext| % 8 != 0 || |plaintext| < 16 || |kek| !in {16, 24, 32}
  {
    var n := |plaintext| / 8;
    if |plaintext| % 8 != 0 || n < 2 {
      return Err(BadLength);
    }
    if !KeySizeOk(kek) {
      return Err(BadKeySize);
    }
    var a := new bv8[8];
    CopyInto(a, IV);
    var r := Load(plaintext);
    ghost var f := WrapMixer(c, kek);
    ghost var s0: Registers<Half> := Registers(IV, Halves(plaintext));

    for j := 0 to ROUNDS
      invariant View(a, r) == Ascend<Half>(f, s0, j, 0)
    {
      WrapRound(c, kek, a, r, s0, j);
    }
    var output := StoreOut(r);
    WrapIsSpecified(c, kek, plaintext, a[..] + output);
    return Ok(a[..] + output);
  }

  method EqualsIV(a: array<bv8>) returns (equal: bool)
    requires a.Length == 8
    ensures equal <==> a[..] == IV
  {
    for i := 0 to 8
      invariant forall k :: 0 <= k < i ==> a[k] == IV[k]
    {
      if a[i] != IV[i] {
        assert a[..][i] != IV[i];
        return false;
      }
    }
    return true;
  }

  /** One descending iteration, with what is still to be undone. */
  method UndoIteration(c: BlockCipher, kek: bytes, a: array<bv8>, r: array<Half>, i: nat, t: nat,
                       ghost j: nat, ghost goal: Registers<Half>)
    requires a.Length == 8 && i < r.Length && a as object != r as object && t == r.Length * j + i + 1
    requires Descend<Half>(UnwrapMixer(c, kek), View(a, r), j, i + 1) == goal
    modifies a, r
    ensures Descend<Half>(UnwrapMixer(c, kek), View(a, r), j, i) == goal
  {
    RoundsIsProduct(r.Length, j);
    DescendUnfolds<Half>(UnwrapMixer(c, kek), View(a, r), j, i);
    UnwrapIteration(c, kek, a, r, i, t);
  }

  /** The inner descending loop. */
  method UndoRound(c: BlockCipher, kek: bytes, a: array<bv8>, r: array<Half>, j: nat)
    requires a.Length == 8 && a as object != r as object
    modifies a, r
    ensures var f := UnwrapMixer(c, kek);
            Descend<Half>(f, View(a, r), j, 0) == Descend<Half>(f, old(View(a, r)), j, r.Length)
  {
    var n := r.Length;
    ghost var goal := Descend<Half>(UnwrapMixer(c, kek), View(a, r), j, n);
    for i := n downto 0
      invariant Descend<Half>(UnwrapMixer(c, kek), View(a, r), j, i) == goal
    {
      UndoIteration(c, kek, a, r, i, n * j + i + 1, j, goal);
    }
  }

  /** The outer descending loop. */
  method UndoRounds(c: BlockCipher, kek: bytes, a: array<bv8>, r: array<Half>)
    requires a.Length == 8 && a as object != r as object
    modifies a, r
    ensures View(a, r) == Descend<Half>(UnwrapMixer(c, kek), old(View(a, r)), ROUNDS, 0)
  {
    ghost var f := UnwrapMixer(c, kek);
    ghost var cur := View(a, r);
    ghost var goal := Descend<Half>(f, cur, ROUNDS, 0);
    for j := ROUNDS downto 0
      invariant cur == View(a, r) && Descend<Half>(f, cur, j, 0) == goal
    {
      DescendUnfolds<Half>(f, cur, j, 0);
      UndoRound(c, kek, a, r, j);
      cur := View(a, r);
    }
  }

  /** `aesKeyUnwrap`: both loops count down, and the result is released only if A is the IV. */
  method AesKeyUnwrap(c: BlockCipher, kek: bytes, ciphertext: bytes) returns (res: Result<bytes, Error>)
    ensures res == Unwrap(c, kek, ciphertext)
    ensures Bijective(c) ==> forall p :: res == Ok(p) <==> R.IsWrapped(c.encrypt, kek, p, ciphertext)
  {
    forall p | Bijective(c)
      ensures Unwrap(c, kek, ciphertext) == Ok(p) <==> R.IsWrapped(c.encrypt, kek, p, ciphertext)
    {
      UnwrapIsSpecified(c, kek, p, ciphertext);
    }
    var n := |ciphertext| / 8 - 1;
    if |ciphertext| % 8 != 0 || n < 2 {
      return Err(BadLength);
    }
    if !KeySizeOk(kek) {
      return Err(BadKeySize);
    }
    var a := new bv8[8];
    CopyInto(a, ciphertext[..8]);
    var r := Load(ciphertext[8..]);
    UndoRounds(c, kek, a, r);
    var intact := EqualsIV(a);
    if !intact {
      return Err(IntegrityFailed);
    }
    var output := StoreOut(r);
    return Ok(output);
  }
}
