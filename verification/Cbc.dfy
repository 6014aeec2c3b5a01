/** AES in CBC mode with padding, as `_aes_encrypt` and `_aes_decrypt` of src/UDPNetwork.cpp use it:
    CBC of section 6.2 of NIST SP 800-38A, padding of section 6.3 of RFC 5652, over any invertible
    block function. The library's two-step interface is modelled too: an update that writes whole
    blocks, holding the last one back when decrypting, and a final step that writes the rest. */
module Cbc {
  import opened Options

  type Byte = b: nat | b < 256
  type Bytes = seq<Byte>

  const BLOCK: nat := 16

  datatype BlockCipher = BlockCipher(enc: (Bytes, Bytes) -> Bytes, dec: (Bytes, Bytes) -> Bytes)

  /** `dec` undoes `enc` on blocks, under every key. */
  ghost predicate Inverts(c: BlockCipher) {
    && (forall key, b :: |b| == BLOCK ==> |c.enc(key, b)| == BLOCK && c.dec(key, c.enc(key, b)) == b)
    && (forall key, b :: |b| == BLOCK ==> |c.dec(key, b)| == BLOCK)
  }

  /** Exclusive or of the low `bits` bits. */
  function XorBits(a: nat, b: nat, bits: nat): nat {
    if bits == 0 then 0
    else (if a % 2 == b % 2 then 0 else 1) + 2 * XorBits(a / 2, b / 2, bits - 1)
  }

  function Pow2(n: nat): (p: nat)
    ensures p > 0
  {
    if n == 0 then 1 else 2 * Pow2(n - 1)
  }

  lemma {:induction false} XorBitsInRange(a: nat, b: nat, bits: nat)
    ensures XorBits(a, b, bits) < Pow2(bits)
  {
    if bits > 0 { XorBitsInRange(a / 2, b / 2, bits - 1); }
  }

  lemma {:induction false} XorBitsCancels(a: nat, b: nat, bits: nat)
    requires a < Pow2(bits)
    ensures XorBits(XorBits(a, b, bits), b, bits) == a
  {
    if bits > 0 {
      var x := XorBits(a, b, bits);
      assert x / 2 == XorBits(a / 2, b / 2, bits - 1);
      XorBitsCancels(a / 2, b / 2, bits - 1);
    }
  }

  function Xor(a: Byte, b: Byte): Byte {
    XorBitsInRange(a, b, 8);
    assert Pow2(8) == 256 by { assert Pow2(4) == 16; }
    XorBits(a, b, 8)
  }

  function XorBlock(a: Bytes, b: Bytes): Bytes
    requires |a| == |b|
  {
    seq(|a|, i requires 0 <= i < |a| => Xor(a[i], b[i]))
  }

  lemma XorBlockCancels(a: Bytes, b: Bytes)
    requires |a| == |b|
    ensures XorBlock(XorBlock(a, b), b) == a
  {
    forall i | 0 <= i < |a| ensures Xor(Xor(a[i], b[i]), b[i]) == a[i] {
      assert Pow2(8) == 256 by { assert Pow2(4) == 16; }
      XorBitsCancels(a[i], b[i], 8);
    }
  }

  function Encrypt(c: BlockCipher, key: Bytes, chain: Bytes, p: Bytes): Bytes
    requires Inverts(c) && |chain| == BLOCK && |p| % BLOCK == 0
    decreases |p|
  {
    if p == [] then [] else
      var b := c.enc(key, XorBlock(p[..BLOCK], chain));
      b + Encrypt(c, key, b, p[BLOCK..])
  }

  function Decrypt(c: BlockCipher, key: Bytes, chain: Bytes, q: Bytes): Bytes
    requires Inverts(c) && |chain| == BLOCK && |q| % BLOCK == 0
    decreases |q|
  {
    if q == [] then [] else
      XorBlock(c.dec(key, q[..BLOCK]), chain) + Decrypt(c, key, q[..BLOCK], q[BLOCK..])
  }

  /** The block the next one is chained to. */
  function LastBlock(chain: Bytes, q: Bytes): Bytes
    requires |chain| == BLOCK && |q| % BLOCK == 0
  {
    if q == [] then chain else q[|q| - BLOCK..]
  }

  lemma {:induction false} EncryptLength(c: BlockCipher, key: Bytes, chain: Bytes, p: Bytes)
    requires Inverts(c) && |chain| == BLOCK && |p| % BLOCK == 0
    ensures |Encrypt(c, key, chain, p)| == |p|
    decreases |p|
  {
    if p != [] {
      EncryptLength(c, key, c.enc(key, XorBlock(p[..BLOCK], chain)), p[BLOCK..]);
    }
  }

  lemma {:induction false} DecryptLength(c: BlockCipher, key: Bytes, chain: Bytes, q: Bytes)
    requires Inverts(c) && |chain| == BLOCK && |q| % BLOCK == 0
    ensures |Decrypt(c, key, chain, q)| == |q|
    decreases |q|
  {
    if q != [] {
      DecryptLength(c, key, q[..BLOCK], q[BLOCK..]);
    }
  }

  lemma {:induction false} DecryptUndoesEncrypt(c: BlockCipher, key: Bytes, chain: Bytes, p: Bytes)
    requires Inverts(c) && |chain| == BLOCK && |p| % BLOCK == 0
    ensures var q := Encrypt(c, key, chain, p);
      |q| == |p| && Decrypt(c, key, chain, q) == p
    decreases |p|
  {
    EncryptLength(c, key, chain, p);
    if p != [] {
      var x := XorBlock(p[..BLOCK], chain);
      var b := c.enc(key, x);
      var q := Encrypt(c, key, chain, p);
      assert q[..BLOCK] == b && q[BLOCK..] == Encrypt(c, key, b, p[BLOCK..]);
      XorBlockCancels(p[..BLOCK], chain);
      DecryptUndoesEncrypt(c, key, b, p[BLOCK..]);
      assert p == p[..BLOCK] + p[BLOCK..];
    }
  }

  lemma EncryptHead(c: BlockCipher, key: Bytes, chain: Bytes, h: Bytes, t: Bytes)
    requires Inverts(c) && |chain| == BLOCK && |h| == BLOCK && |t| % BLOCK == 0
    ensures var b := c.enc(key, XorBlock(h, chain));
      |b| == BLOCK && Encrypt(c, key, chain, h + t) == b + Encrypt(c, key, b, t)
  {
    assert (h + t)[..BLOCK] == h && (h + t)[BLOCK..] == t;
  }

  /** Encrypting in two stretches, the second chained to the first. */
  lemma {:induction false} EncryptAppend(c: BlockCipher, key: Bytes, chain: Bytes, p: Bytes, p': Bytes)
    requires Inverts(c) && |chain| == BLOCK && |p| % BLOCK == 0 && |p'| % BLOCK == 0
    ensures |Encrypt(c, key, chain, p)| == |p|
    ensures Encrypt(c, key, chain, p + p')
         == Encrypt(c, key, chain, p) + Encrypt(c, key, LastBlock(chain, Encrypt(c, key, chain, p)), p')
    decreases |p|
  {
    EncryptLength(c, key, chain, p);
    if p == [] {
      assert p + p' == p';
    } else {
      hide Encrypt, Inverts, XorBlock;
      var h, rest := p[..BLOCK], p[BLOCK..];
      EncryptHead(c, key, chain, h, rest);
      EncryptHead(c, key, chain, h, rest + p');
      var b := c.enc(key, XorBlock(h, chain));
      EncryptAppend(c, key, b, rest, p');
      assert p == h + rest && p + p' == h + (rest + p');
      var q := Encrypt(c, key, b, rest);
      assert LastBlock(chain, b + q) == LastBlock(b, q);
      var r := Encrypt(c, key, LastBlock(b, q), p');
      assert b + (q + r) == (b + q) + r;
    }
  }

  lemma DecryptHead(c: BlockCipher, key: Bytes, chain: Bytes, h: Bytes, t: Bytes)
    requires Inverts(c) && |chain| == BLOCK && |h| == BLOCK && |t| % BLOCK == 0
    ensures Decrypt(c, key, chain, h + t) == XorBlock(c.dec(key, h), chain) + Decrypt(c, key, h, t)
  {
    assert (h + t)[..BLOCK] == h && (h + t)[BLOCK..] == t;
  }

  /** The first of at least one block. */
  lemma TakeBlock(chain: Bytes, q: Bytes, q': Bytes)
    requires |chain| == BLOCK && |q| % BLOCK == 0 && q != [] && |q'| % BLOCK == 0
    ensures |q| >= BLOCK && |q[BLOCK..]| % BLOCK == 0 && |q[BLOCK..] + q'| % BLOCK == 0
    ensures q == q[..BLOCK] + q[BLOCK..] && q + q' == q[..BLOCK] + (q[BLOCK..] + q')
    ensures LastBlock(q[..BLOCK], q[BLOCK..]) == LastBlock(chain, q)
  {
  }

  lemma Regroup(a: Bytes, b: Bytes, c: Bytes)
    ensures a + (b + c) == (a + b) + c
  {
  }

  lemma {:induction false} DecryptAppend(c: BlockCipher, key: Bytes, chain: Bytes, q: Bytes, q': Bytes)
    requires Inverts(c) && |chain| == BLOCK && |q| % BLOCK == 0 && |q'| % BLOCK == 0
    ensures Decrypt(c, key, chain, q + q') == Decrypt(c, key, chain, q) + Decrypt(c, key, LastBlock(chain, q), q')
    decreases |q|
  {
    if q == [] {
      assert q + q' == q';
    } else {
      var h, rest := q[..BLOCK], q[BLOCK..];
      hide Decrypt, Inverts, XorBlock, LastBlock;
      TakeBlock(chain, q, q');
      DecryptHead(c, key, chain, h, rest);
      DecryptHead(c, key, chain, h, rest + q');
      DecryptAppend(c, key, h, rest, q');
      Regroup(XorBlock(c.dec(key, h), chain), Decrypt(c, key, h, rest), Decrypt(c, key, LastBlock(chain, q), q'));
    }
  }

  // ---------------------------------------------------------------------------------------------
  // Padding

  function Padding(n: nat): Bytes {
    var k := BLOCK - n % BLOCK;
    seq(k, _ => k)
  }

  function Padded(p: Bytes): (r: Bytes)
    ensures |r| == BLOCK * (|p| / BLOCK + 1)
  {
    p + Padding(|p|)
  }

  /** Strips the padding of the last block; none if it is not well formed. */
  function Unpad(p: Bytes): Option<Bytes> {
    if p == [] then None else
      var k := p[|p| - 1];
      if 1 <= k <= BLOCK && k <= |p| && p[|p| - k..] == seq(k, _ => k) then Some(p[..|p| - k]) else None
  }

  lemma UnpadUndoesPadded(p: Bytes)
    ensures Unpad(Padded(p)) == Some(p)
  {
    var k := BLOCK - |p| % BLOCK;
    assert Padded(p)[|p|..] == Padding(|p|);
    assert Padded(p)[..|p|] == p;
  }

  // ---------------------------------------------------------------------------------------------
  // The two-step interface

  /** How much of a plaintext, or of a ciphertext, an update consumes at once. */
  function WholeBlocks(n: nat): (m: nat)
    ensures m <= n < m + BLOCK && m % BLOCK == 0
  {
    n - n % BLOCK
  }

  function EncryptUpdate(c: BlockCipher, key: Bytes, iv: Bytes, p: Bytes): Bytes
    requires Inverts(c) && |iv| == BLOCK
  {
    Encrypt(c, key, iv, p[..WholeBlocks(|p|)])
  }

  function EncryptFinal(c: BlockCipher, key: Bytes, iv: Bytes, p: Bytes): Bytes
    requires Inverts(c) && |iv| == BLOCK
  {
    var n := WholeBlocks(|p|);
    EncryptLength(c, key, iv, p[..n]);
    Encrypt(c, key, LastBlock(iv, EncryptUpdate(c, key, iv, p)), Padded(p[n..]))
  }

  /** What a decrypting update writes: everything but the last block, if the input is whole. */
  function Released(n: nat): (m: nat)
    ensures m <= n && m % BLOCK == 0
  {
    if n % BLOCK == 0 && n > 0 then n - BLOCK else WholeBlocks(n)
  }

  function DecryptUpdate(c: BlockCipher, key: Bytes, iv: Bytes, q: Bytes): Bytes
    requires Inverts(c) && |iv| == BLOCK
  {
    Decrypt(c, key, iv, q[..Released(|q|)])
  }

  /** The last block without its padding; none if the input was not whole or badly padded. */
  function DecryptFinal(c: BlockCipher, key: Bytes, iv: Bytes, q: Bytes): Option<Bytes>
    requires Inverts(c) && |iv| == BLOCK
  {
    var n := Released(|q|);
    if |q| - n != BLOCK then None
    else Unpad(Decrypt(c, key, LastBlock(iv, q[..n]), q[n..]))
  }

  /** Update and final together write the whole padded plaintext, chained throughout. */
  lemma EncryptInTwoSteps(c: BlockCipher, key: Bytes, iv: Bytes, p: Bytes)
    requires Inverts(c) && |iv| == BLOCK
    ensures EncryptUpdate(c, key, iv, p) + EncryptFinal(c, key, iv, p) == Encrypt(c, key, iv, Padded(p))
    ensures |EncryptUpdate(c, key, iv, p)| == WholeBlocks(|p|) && |EncryptFinal(c, key, iv, p)| == BLOCK
  {
    var n := WholeBlocks(|p|);
    var tail := Padded(p[n..]);
    assert p[..n] + tail == Padded(p);
    EncryptAppend(c, key, iv, p[..n], tail);
    EncryptLength(c, key, LastBlock(iv, EncryptUpdate(c, key, iv, p)), tail);
  }

  /** What is encrypted in two steps is decrypted in two steps. */
  lemma DecryptInTwoSteps(c: BlockCipher, key: Bytes, iv: Bytes, p: Bytes)
    requires Inverts(c) && |iv| == BLOCK
    ensures var q := Encrypt(c, key, iv, Padded(p));
      && |q| == BLOCK * (|p| / BLOCK + 1)
      && DecryptUpdate(c, key, iv, q) == p[..WholeBlocks(|p|)]
      && DecryptFinal(c, key, iv, q) == Some(p[WholeBlocks(|p|)..])
  {
    var q, n := Encrypt(c, key, iv, Padded(p)), WholeBlocks(|p|);
    DecryptUndoesEncrypt(c, key, iv, Padded(p));
    hide Encrypt, Decrypt, Inverts, Unpad, Padding;
    assert Released(|q|) == n;
    assert q == q[..n] + q[n..];
    DecryptAppend(c, key, iv, q[..n], q[n..]);
    DecryptLength(c, key, iv, q[..n]);
    var a, b := Decrypt(c, key, iv, q[..n]), Decrypt(c, key, LastBlock(iv, q[..n]), q[n..]);
    assert a + b == Padded(p);
    assert a == Padded(p)[..n] == p[..n];
    PaddedTail(p, n);
    assert b == Padded(p)[n..];
    UnpadUndoesPadded(p[n..]);
  }

  lemma PaddedTail(p: Bytes, n: nat)
    requires n <= |p| && n % BLOCK == 0
    ensures Padded(p)[n..] == Padded(p[n..])
  {
  }
}
