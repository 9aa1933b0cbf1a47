/** Per-file encryption (internal/crypto/encrypt.go): AES-GCM under a fresh data key, the
    data key wrapped under the master key. GCM is any deterministic AEAD with a 16-byte tag
    and BLAKE3 any injective digest. */
module Encryption {
  import opened Foundations
  import opened Rfc3394
  import KW = KeyWrap

  datatype Primitives = Primitives(
    aes: KW.BlockCipher,
    seal: (bytes, bytes, bytes) -> bytes,
    open: (bytes, bytes, bytes) -> Option<bytes>,
    hash: bytes -> string,
    wellFormedHash: string -> bool)

  const NONCE_SIZE := 12
  const TAG_SIZE := 16

  ghost predicate AeadLaws(c: Primitives) {
    && (forall k, n, p :: c.open(k, n, c.seal(k, n, p)) == Some(p))
    && (forall k, n, p :: |c.seal(k, n, p)| == |p| + TAG_SIZE)
    && (forall k, n, s :: c.open(k, n, s).Some? ==> c.seal(k, n, c.open(k, n, s).value) == s)
  }

  ghost predicate HashLaws(c: Primitives) {
    && (forall x, y :: c.hash(x) == c.hash(y) ==> x == y)
    && (forall x :: c.wellFormedHash(c.hash(x)))
  }

  ghost predicate Lawful(c: Primitives) {
    KW.Bijective(c.aes) && AeadLaws(c) && HashLaws(c)
  }

  datatype Error = MasterKeySize | TooShort | Key(e: KW.Error) | DekSize | Authentication

  /** The random data key and nonce of one call. */
  datatype RawDraw = Draw(dek: bytes, nonce: bytes)
  type Draw = d: RawDraw | |d.dek| == 32 && |d.nonce| == NONCE_SIZE
    witness Draw(seq(32, _ => 0), seq(12, _ => 0))

  datatype Sealed = Sealed(ciphertext: bytes, wrappedDEK: bytes, nonce: bytes)

  function Encrypt(c: Primitives, plaintext: bytes, masterKey: bytes, d: Draw): Result<Sealed, Error> {
    if |masterKey| != 32 then Err(MasterKeySize)
    else
      var ciphertext := d.nonce + c.seal(d.dek, d.nonce, plaintext);
      match KW.Wrap(c.aes, masterKey, d.dek)
      case Err(e) => Err(Key(e))
      case Ok(w) => Ok(Sealed(ciphertext, w, d.nonce))
  }

  /** The nonce argument is accepted and ignored: the nonce is the ciphertext's prefix. */
  function Decrypt(c: Primitives, ciphertext: bytes, wrappedDEK: bytes, nonce: bytes, masterKey: bytes)
    : Result<bytes, Error>
  {
    if |masterKey| != 32 then Err(MasterKeySize)
    else if |ciphertext| < NONCE_SIZE + TAG_SIZE then Err(TooShort)
    else
      match KW.Unwrap(c.aes, masterKey, wrappedDEK)
      case Err(e) => Err(Key(e))
      case Ok(dek) =>
        if !KW.KeySizeOk(dek) then Err(DekSize)
        else
          match c.open(dek, ciphertext[..NONCE_SIZE], ciphertext[NONCE_SIZE..])
          case None => Err(Authentication)
          case Some(p) => Ok(p)
  }

  ghost predicate SealedUnder(c: Primitives, ciphertext: bytes, w: bytes, mk: bytes, p: bytes,
                              dek: bytes, n: bytes)
  {
    && KW.KeySizeOk(dek) && |n| == NONCE_SIZE
    && KW.Wrap(c.aes, mk, dek) == Ok(w)
    && ciphertext == n + c.seal(dek, n, p)
  }

  /** Decrypt accepts exactly the sealed forms of p under a data key wrapped for this master
      key, whatever nonce is passed along. */
  lemma DecryptExact(c: Primitives, ciphertext: bytes, w: bytes, nonce: bytes, mk: bytes, p: bytes)
    requires Lawful(c)
    ensures Decrypt(c, ciphertext, w, nonce, mk) == Ok(p) <==>
            |mk| == 32 && exists dek, n :: SealedUnder(c, ciphertext, w, mk, p, dek, n)
  {
    if Decrypt(c, ciphertext, w, nonce, mk) == Ok(p) {
      var dek := KW.Unwrap(c.aes, mk, w).value;
      var n := ciphertext[..NONCE_SIZE];
      KW.UnwrapInvertsWrap(c.aes, mk, dek, w);
      assert ciphertext == n + c.seal(dek, n, p);
      assert SealedUnder(c, ciphertext, w, mk, p, dek, n);
    }
    if dek, n :| |mk| == 32 && SealedUnder(c, ciphertext, w, mk, p, dek, n) {
      KW.UnwrapInvertsWrap(c.aes, mk, dek, w);
      assert ciphertext[..NONCE_SIZE] == n && ciphertext[NONCE_SIZE..] == c.seal(dek, n, p);
    }
  }

  /** What Encrypt produces is sealed under the drawn data key and nonce, carries that key wrapped
      under the master key, and decrypts to what went in. */
  lemma EncryptRoundTrip(c: Primitives, p: bytes, mk: bytes, d: Draw, nonce: bytes)
    requires Lawful(c)
    ensures Encrypt(c, p, mk, d).Ok? <==> |mk| == 32
    ensures var s := Encrypt(c, p, mk, d);
            s.Ok? ==> && Decrypt(c, s.value.ciphertext, s.value.wrappedDEK, nonce, mk) == Ok(p)
                      && s.value.ciphertext == d.nonce + c.seal(d.dek, d.nonce, p) && s.value.nonce == d.nonce
                      && IsWrapped(c.aes.encrypt, mk, d.dek, s.value.wrappedDEK)
                      && |s.value.ciphertext| == |p| + 28 && |s.value.wrappedDEK| == 40 && |s.value.nonce| == 12
  {
    if |mk| == 32 {
      KW.RoundTrip(c.aes, mk, d.dek);
      KW.WrapIsSpecified(c.aes, mk, d.dek, Encrypt(c, p, mk, d).value.wrappedDEK);
      var s := Encrypt(c, p, mk, d).value;
      assert SealedUnder(c, s.ciphertext, s.wrappedDEK, mk, p, d.dek, d.nonce);
      DecryptExact(c, s.ciphertext, s.wrappedDEK, nonce, mk, p);
    }
  }

  /** A ciphertext that decrypts is longer than its plaintext, so it is not its own plaintext. */
  lemma SealedIsLonger(c: Primitives, ciphertext: bytes, w: bytes, nonce: bytes, mk: bytes, p: bytes)
    requires Lawful(c) && Decrypt(c, ciphertext, w, nonce, mk) == Ok(p)
    ensures |ciphertext| == |p| + NONCE_SIZE + TAG_SIZE
  {
    DecryptExact(c, ciphertext, w, nonce, mk, p);
  }

  // --------------------------------------------------------- the laws are satisfiable

  function AppendZeros(p: bytes): bytes {
    p + seq(TAG_SIZE, _ => 0)
  }

  function ToyOpen(s: bytes): Option<bytes> {
    if |s| >= TAG_SIZE && s == AppendZeros(s[..|s| - TAG_SIZE]) then Some(s[..|s| - TAG_SIZE]) else None
  }

  function Letters(b: bytes): string {
    seq(|b|, i requires 0 <= i < |b| => b[i] as int as char)
  }

  function Toy(): Primitives {
    Primitives(KW.BlockCipher((_, b) => b, (_, b) => b),
               (_, _, p) => AppendZeros(p), (_, _, s) => ToyOpen(s),
               b => Letters(b), _ => true)
  }

  /** The laws assumed of the primitives contradict neither each other nor themselves. */
  lemma LawsHaveModel()
    ensures Lawful(Toy())
  {
    forall p: bytes ensures ToyOpen(AppendZeros(p)) == Some(p) {
      assert AppendZeros(p)[..|p|] == p;
    }
    forall x: bytes, y: bytes | Letters(x) == Letters(y) ensures x == y {
      forall i | 0 <= i < |x| ensures x[i] == y[i] {
        assert Letters(x)[i] == Letters(y)[i];
      }
    }
  }
}
