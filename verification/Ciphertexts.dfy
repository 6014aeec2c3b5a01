/** Sealed datagrams byte by byte: cipher block chaining as section 6.2 of NIST SP 800-38A writes it,
    with exclusive or spelled out bit by bit, and the padding of section 6.3 of RFC 5652. */
module Ciphertexts {
  import opened Options
  import opened Cbc
  import opened Framing
  import opened Arithmetic

  function Bit(a: nat, i: nat): nat {
    a / Pow2(i) % 2
  }

  // ---------------------------------------------------------------------------------------------
  // Exclusive or

  /** Every bit is the sum of the two bits, without carry. */
  lemma XorIsBitwise(a: Byte, b: Byte, i: nat)
    requires i < 8
    ensures Xor(a, b) / Pow2(i) % 2 == (a / Pow2(i) + b / Pow2(i)) % 2
  {
    XorBitsAre(a, b, 8, i);
    BitOfSum(Xor(a, b), a, b, Pow2(i));
  }

  lemma BitOfSum(x: nat, a: nat, b: nat, p: nat)
    requires p > 0 && x / p % 2 == (a / p % 2 + b / p % 2) % 2
    ensures x / p % 2 == (a / p + b / p) % 2
  {
    Parity(a / p, b / p);
  }

  lemma Parity(x: nat, y: nat)
    ensures (x + y) % 2 == (x % 2 + y % 2) % 2
  {
  }

  lemma {:induction false} XorBitsAre(a: nat, b: nat, bits: nat, i: nat)
    requires i < bits
    ensures Bit(XorBits(a, b, bits), i) == (Bit(a, i) + Bit(b, i)) % 2
  {
    var x := XorBits(a, b, bits);
    if i == 0 {
      assert Pow2(0) == 1;
    } else {
      assert x / 2 == XorBits(a / 2, b / 2, bits - 1);
      XorBitsAre(a / 2, b / 2, bits - 1, i - 1);
      HigherBit(x, i);
      HigherBit(a, i);
      HigherBit(b, i);
    }
  }

  lemma HigherBit(x: nat, i: nat)
    requires i > 0
    ensures Bit(x, i) == Bit(x / 2, i - 1)
  {
    var p := Pow2(i - 1);
    var q, r := x / 2 / p, x / 2 % p;
    assert x == 2 * (p * q + r) + x % 2;
    SameQuotient(x, 2 * p, q, 2 * r + x % 2);
  }

  /** `x` is the exclusive or of `a` and `b`. */
  ghost predicate Mixes(x: Bytes, a: Bytes, b: Bytes) {
    && |x| == |a| == |b|
    && forall j, i :: 0 <= j < |x| && 0 <= i < 8 ==> Bit(x[j], i) == (Bit(a[j], i) + Bit(b[j], i)) % 2
  }

  lemma XorBlockMixes(a: Bytes, b: Bytes)
    requires |a| == |b|
    ensures Mixes(XorBlock(a, b), a, b)
  {
    forall j, i | 0 <= j < |a| && 0 <= i < 8
      ensures Bit(XorBlock(a, b)[j], i) == (Bit(a[j], i) + Bit(b[j], i)) % 2
    {
      XorBitsAre(a[j], b[j], 8, i);
    }
  }

  // ---------------------------------------------------------------------------------------------
  // Chaining

  /** Bytes `16 * i` to `16 * i + 16`. */
  function Block(s: Bytes, i: nat): (b: Bytes)
    requires 16 * i + 16 <= |s|
    ensures |b| == 16
  {
    s[16 * i..16 * i + 16]
  }

  lemma BlockOfRest(h: Bytes, t: Bytes, i: nat)
    requires |h| == 16 && 16 * i + 16 <= |t|
    ensures Block(h + t, 0) == h && Block(h + t, i + 1) == Block(t, i)
  {
  }

  lemma {:induction false} EncryptBlock(c: BlockCipher, key: Bytes, chain: Bytes, p: Bytes, i: nat)
    requires Inverts(c) && |chain| == 16 && |p| % 16 == 0 && 16 * i + 16 <= |p|
    ensures var q := Encrypt(c, key, chain, p);
      && |q| == |p|
      && Block(q, i) == c.enc(key, XorBlock(Block(p, i), if i == 0 then chain else Block(q, i - 1)))
    decreases i
  {
    EncryptLength(c, key, chain, p);
    var h, t := p[..16], p[16..];
    var b := c.enc(key, XorBlock(h, chain));
    assert p == h + t;
    EncryptHead(c, key, chain, h, t);
    var rest := Encrypt(c, key, b, t);
    hide Encrypt, XorBlock;
    assert |b| == 16 by { EncryptHead(c, key, chain, h, t); }
    if i == 0 {
      assert Block(b + rest, 0) == b && Block(h + t, 0) == h;
    } else {
      EncryptLength(c, key, b, t);
      EncryptBlock(c, key, b, t, i - 1);
      BlockOfRest(h, t, i - 1);
      BlockOfRest(b, rest, i - 1);
      if i > 1 { BlockOfRest(b, rest, i - 2); }
    }
  }

  lemma {:induction false} DecryptBlock(c: BlockCipher, key: Bytes, chain: Bytes, q: Bytes, i: nat)
    requires Inverts(c) && |chain| == 16 && |q| % 16 == 0 && 16 * i + 16 <= |q|
    ensures var p := Decrypt(c, key, chain, q);
      && |p| == |q|
      && Block(p, i) == XorBlock(c.dec(key, Block(q, i)), if i == 0 then chain else Block(q, i - 1))
    decreases i
  {
    DecryptLength(c, key, chain, q);
    var h, t := q[..16], q[16..];
    var x := XorBlock(c.dec(key, h), chain);
    assert q == h + t;
    DecryptHead(c, key, chain, h, t);
    var rest := Decrypt(c, key, h, t);
    assert |x| == 16;
    hide Decrypt, XorBlock;
    if i == 0 {
      assert Block(x + rest, 0) == x && Block(h + t, 0) == h;
    } else {
      DecryptLength(c, key, h, t);
      DecryptBlock(c, key, h, t, i - 1);
      BlockOfRest(h, t, i - 1);
      BlockOfRest(x, rest, i - 1);
      if i > 1 { BlockOfRest(h, t, i - 2); }
    }
  }

  // ---------------------------------------------------------------------------------------------
  // Sealed datagrams

  /** A packet followed by `k` bytes of value `k`, up to the next multiple of 16, and never none. */
  ghost predicate PadsTo(packet: Bytes, plain: Bytes) {
    var k := 16 - |packet| % 16;
    |plain| == |packet| + k && plain[..|packet|] == packet && forall i :: |packet| <= i < |plain| ==> plain[i] == k
  }

  /** Block `i` of `q` is the cipher applied to the exclusive or of block `i` of `plain` with the
      block of `q` before it, which for the first is `iv`. */
  ghost predicate ChainedAt(c: BlockCipher, key: Bytes, iv: Bytes, plain: Bytes, q: Bytes, i: nat)
    requires |q| == |plain| && 16 * i + 16 <= |q|
  {
    exists x :: c.enc(key, x) == Block(q, i) && Mixes(x, Block(plain, i), if i == 0 then iv else Block(q, i - 1))
  }

  ghost predicate Chained(c: BlockCipher, key: Bytes, iv: Bytes, plain: Bytes, q: Bytes) {
    && |q| == |plain|
    && forall i :: 0 <= i && 16 * i + 16 <= |q| ==> ChainedAt(c, key, iv, plain, q, i)
  }

  /** What is on the wire: the vector in its 32-byte slot, and then the padded packet, chained from
      the first half of the vector. */
  lemma SealedBlocks(c: BlockCipher, key: Bytes, iv: Bytes, packet: Bytes) returns (plain: Bytes)
    requires Inverts(c) && |iv| == 32
    ensures PadsTo(packet, plain)
    ensures var d := Seal(c, key, iv, packet);
      |d| == 32 + |plain| && d[..32] == iv && Chained(c, key, iv[..16], plain, d[32..])
  {
    plain := Padded(packet);
    PaddedPads(packet);
    EncryptIsChained(c, key, iv[..16], plain);
    var q := Encrypt(c, key, iv[..16], plain);
    assert Seal(c, key, iv, packet) == iv + q;
    hide Encrypt, Chained, Padded, PadsTo, Seal;
    assert (iv + q)[..32] == iv && (iv + q)[32..] == q;
  }

  lemma EncryptIsChained(c: BlockCipher, key: Bytes, iv: Bytes, plain: Bytes)
    requires Inverts(c) && |iv| == 16 && |plain| % 16 == 0
    ensures |Encrypt(c, key, iv, plain)| == |plain| && Chained(c, key, iv, plain, Encrypt(c, key, iv, plain))
  {
    var q := Encrypt(c, key, iv, plain);
    EncryptLength(c, key, iv, plain);
    hide Encrypt, Mixes, XorBlock, Inverts, Block;
    forall i | 0 <= i && 16 * i + 16 <= |q|
      ensures ChainedAt(c, key, iv, plain, q, i)
    {
      var before := if i == 0 then iv else Block(q, i - 1);
      var x := XorBlock(Block(plain, i), before);
      EncryptBlock(c, key, iv, plain, i);
      XorBlockMixes(Block(plain, i), before);
      assert c.enc(key, x) == Block(q, i) && Mixes(x, Block(plain, i), before);
    }
  }

  lemma PaddedPads(packet: Bytes)
    ensures PadsTo(packet, Padded(packet)) && |Padded(packet)| % 16 == 0
  {
    assert Padded(packet)[..|packet|] == packet;
  }

  /** Every block of `plain` is the exclusive or of the inverse cipher applied to the block of `q`
      with the block of `q` before it, which for the first is `iv`. */
  ghost predicate Unchained(c: BlockCipher, key: Bytes, iv: Bytes, plain: Bytes, q: Bytes) {
    && |q| == |plain|
    && forall i :: 0 <= i && 16 * i + 16 <= |q| ==>
         Mixes(Block(plain, i), c.dec(key, Block(q, i)), if i == 0 then iv else Block(q, i - 1))
  }

  /** `plain` is `packet` and then padding. */
  ghost predicate EndsInPadding(plain: Bytes) {
    && plain != []
    && var k := plain[|plain| - 1];
       1 <= k <= 16 && k <= |plain| && forall i :: |plain| - k <= i < |plain| ==> plain[i] == k
  }

  /** What a receiver makes of any datagram: it opens if and only if something follows the slot, in
      whole blocks, that unchains into bytes that end in padding; what is before it comes out. */
  lemma OpenedBlocks(c: BlockCipher, key: Bytes, d: Bytes) returns (plain: Bytes)
    requires Inverts(c) && |d| >= 32
    ensures |d| % 16 == 0 ==> Unchained(c, key, d[..16], plain, d[32..])
    ensures Open(c, key, d).Some? <==> |d| % 16 == 0 && EndsInPadding(plain)
    ensures Open(c, key, d).Some? ==> Open(c, key, d).value == plain[..|plain| - plain[|plain| - 1]]
  {
    plain := [];
    if |d| % 16 == 0 {
      var q, iv := d[32..], d[..16];
      plain := Decrypt(c, key, iv, q);
      DecryptIsUnchained(c, key, iv, q);
      if |d| > 32 {
        OpenIsUnpad(c, key, d);
        UnpadIs(plain);
      }
    }
  }

  lemma DecryptIsUnchained(c: BlockCipher, key: Bytes, iv: Bytes, q: Bytes)
    requires Inverts(c) && |iv| == 16 && |q| % 16 == 0
    ensures |Decrypt(c, key, iv, q)| == |q| && Unchained(c, key, iv, Decrypt(c, key, iv, q), q)
  {
    var plain := Decrypt(c, key, iv, q);
    DecryptLength(c, key, iv, q);
    hide Decrypt, XorBlock, Mixes, Inverts, Block;
    forall i | 0 <= i && 16 * i + 16 <= |q|
      ensures Mixes(Block(plain, i), c.dec(key, Block(q, i)), if i == 0 then iv else Block(q, i - 1))
    {
      DecryptBlock(c, key, iv, q, i);
      assert |c.dec(key, Block(q, i))| == 16 by { DecLength(c, key, Block(q, i)); }
      XorBlockMixes(c.dec(key, Block(q, i)), if i == 0 then iv else Block(q, i - 1));
    }
  }

  lemma DecLength(c: BlockCipher, key: Bytes, b: Bytes)
    requires Inverts(c) && |b| == 16
    ensures |c.dec(key, b)| == 16
  {
  }

  lemma UnpadIs(p: Bytes)
    ensures Unpad(p).Some? <==> EndsInPadding(p)
    ensures Unpad(p).Some? ==> Unpad(p).value == p[..|p| - p[|p| - 1]]
  {
    if p != [] && 1 <= p[|p| - 1] <= 16 && p[|p| - 1] <= |p| {
      var k := p[|p| - 1];
      assert p[|p| - k..] == seq(k, _ => k) <==> forall i :: |p| - k <= i < |p| ==> p[i] == k by {
        if p[|p| - k..] == seq(k, _ => k) {
          forall i | |p| - k <= i < |p| ensures p[i] == k { assert p[i] == p[|p| - k..][i - (|p| - k)]; }
        }
      }
    }
  }

  /** Update and final step together unpad the whole plaintext. */
  lemma OpenIsUnpad(c: BlockCipher, key: Bytes, d: Bytes)
    requires Inverts(c) && |d| > 32 && |d| % 16 == 0
    ensures Open(c, key, d) == Unpad(Decrypt(c, key, d[..16], d[32..]))
  {
    var q, iv := d[32..], d[..16];
    var n := Released(|q|);
    var head, last := Decrypt(c, key, iv, q[..n]), Decrypt(c, key, LastBlock(iv, q[..n]), q[n..]);
    assert q == q[..n] + q[n..];
    DecryptAppend(c, key, iv, q[..n], q[n..]);
    DecryptLength(c, key, iv, q[..n]);
    DecryptLength(c, key, LastBlock(iv, q[..n]), q[n..]);
    hide Decrypt, Inverts;
    UnpadLast(head, last);
  }

  lemma UnpadLast(head: Bytes, last: Bytes)
    requires |last| == 16
    ensures Unpad(head + last) == match Unpad(last) case None => None case Some(tail) => Some(head + tail)
  {
    var p, k := head + last, last[15];
    if 1 <= k <= 16 {
      assert p[|p| - k..] == last[16 - k..];
      assert p[..|p| - k] == head + last[..16 - k];
    }
  }
}
