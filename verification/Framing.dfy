/** Packets as bytes: the packed header of src/Protocol.hpp, and how `_send` and `_receive` of
    src/UDPNetwork.cpp seal a packet into a datagram and open it again. */
module Framing {
  import opened Options
  import opened Cbc

  const MAX_PACKET_SIZE: nat := 1450
  const HEADER_SIZE: nat := 46
  const KEY_SIZE: nat := 32
  const MAGIC: Bytes := [0x4B, 0x61, 0x70, 0x75, 0x61]
  const MAJOR: Byte := 0

  type U16 = n: nat | n < 0x1_0000
  type U64 = n: nat | n < 0x1_0000_0000_0000_0000

  datatype Header = Header(major: Byte, minor: Byte, patch: Byte, kind: U16, packetId: U64, fromId: U64, toId: U64,
                           ttl: U16, requestId: U64, length: U16)

  // ---------------------------------------------------------------------------------------------
  // Header layout

  function Power256(n: nat): nat { if n == 0 then 1 else 256 * Power256(n - 1) }

  /** Little-endian, as the packed structure lies in memory. */
  function ToBytes(v: nat, n: nat): (b: Bytes)
    ensures |b| == n
  {
    if n == 0 then [] else [v % 256] + ToBytes(v / 256, n - 1)
  }

  function FromBytes(b: Bytes): nat {
    if b == [] then 0 else b[0] + 256 * FromBytes(b[1..])
  }

  lemma {:induction false} FromToBytes(v: nat, n: nat)
    requires v < Power256(n)
    ensures FromBytes(ToBytes(v, n)) == v
  {
    if n > 0 {
      FromToBytes(v / 256, n - 1);
      assert ToBytes(v, n)[1..] == ToBytes(v / 256, n - 1);
    }
  }

  lemma {:induction false} ToFromBytes(b: Bytes)
    ensures FromBytes(b) < Power256(|b|) && ToBytes(FromBytes(b), |b|) == b
  {
    if b != [] {
      ToFromBytes(b[1..]);
      assert FromBytes(b) % 256 == b[0] && FromBytes(b) / 256 == FromBytes(b[1..]);
    }
  }

  lemma Widths()
    ensures Power256(2) == 0x1_0000 && Power256(8) == 0x1_0000_0000_0000_0000
  {
    assert Power256(4) == 0x1_0000_0000;
  }

  function HeaderBytes(h: Header): (b: Bytes)
    ensures |b| == HEADER_SIZE
  {
    MAGIC + [h.major, h.minor, h.patch] + ToBytes(h.kind, 2) + ToBytes(h.packetId, 8) + ToBytes(h.fromId, 8)
    + ToBytes(h.toId, 8) + ToBytes(h.ttl, 2) + ToBytes(h.requestId, 8) + ToBytes(h.length, 2)
  }

  function Field16(b: Bytes, at: nat): U16
    requires at + 2 <= |b|
  {
    Widths();
    ToFromBytes(b[at..at + 2]);
    FromBytes(b[at..at + 2])
  }

  function Field64(b: Bytes, at: nat): U64
    requires at + 8 <= |b|
  {
    Widths();
    ToFromBytes(b[at..at + 8]);
    FromBytes(b[at..at + 8])
  }

  function ReadHeader(b: Bytes): Header
    requires |b| >= HEADER_SIZE
  {
    Header(b[5], b[6], b[7], Field16(b, 8), Field64(b, 10), Field64(b, 18), Field64(b, 26),
           Field16(b, 34), Field64(b, 36), Field16(b, 44))
  }

  predicate MagicValid(b: Bytes)
    requires |b| >= HEADER_SIZE
  {
    b[..5] == MAGIC
  }

  predicate VersionValid(b: Bytes)
    requires |b| >= HEADER_SIZE
  {
    b[5] == MAJOR
  }

  lemma {:induction false} ReadsBack(b: Bytes, at: nat, v: nat, n: nat)
    requires at + n <= |b| && b[at..at + n] == ToBytes(v, n) && v < Power256(n)
    ensures FromBytes(b[at..at + n]) == v
  {
    FromToBytes(v, n);
  }

  /** Two and eight bytes at `at`, the first of least weight. */
  function Le16(b: Bytes, at: nat): nat
    requires at + 2 <= |b|
  {
    b[at] as nat + 0x100 * b[at + 1] as nat
  }

  function Le64(b: Bytes, at: nat): nat
    requires at + 8 <= |b|
  {
    b[at] as nat + 0x100 * b[at + 1] as nat + 0x1_0000 * b[at + 2] as nat + 0x100_0000 * b[at + 3] as nat
    + 0x1_0000_0000 * b[at + 4] as nat + 0x100_0000_0000 * b[at + 5] as nat
    + 0x1_0000_0000_0000 * b[at + 6] as nat + 0x100_0000_0000_0000 * b[at + 7] as nat
  }

  /** Where each field lies in the packed structure, and how its bytes are weighted. */
  predicate LaidOut(h: Header, b: Bytes)
    requires |b| >= 46
  {
    && h.major == b[5] && h.minor == b[6] && h.patch == b[7]
    && h.kind == Le16(b, 8)
    && h.packetId == Le64(b, 10)
    && h.fromId == Le64(b, 18)
    && h.toId == Le64(b, 26)
    && h.ttl == Le16(b, 34)
    && h.requestId == Le64(b, 36)
    && h.length == Le16(b, 44)
  }

  lemma FromTwoBytes(b: Bytes, at: nat)
    requires at + 2 <= |b|
    ensures FromBytes(b[at..at + 2]) == Le16(b, at)
  {
    FromOneMore(b, at, at + 2);
    FromOneMore(b, at + 1, at + 2);
    assert b[at + 2..at + 2] == [];
  }

  lemma FromOneMore(b: Bytes, lo: nat, hi: nat)
    requires lo < hi <= |b|
    ensures FromBytes(b[lo..hi]) == b[lo] as nat + 0x100 * FromBytes(b[lo + 1..hi])
  {
    assert b[lo..hi][1..] == b[lo + 1..hi];
  }

  lemma FromEightBytes(b: Bytes, at: nat)
    requires at + 8 <= |b|
    ensures FromBytes(b[at..at + 8]) == Le64(b, at)
  {
    hide FromBytes;
    FromOneMore(b, at, at + 8);
    FromOneMore(b, at + 1, at + 8);
    FromOneMore(b, at + 2, at + 8);
    FromOneMore(b, at + 3, at + 8);
    FromOneMore(b, at + 4, at + 8);
    FromOneMore(b, at + 5, at + 8);
    FromTwoBytes(b, at + 6);
  }

  /** Reading takes every field from its place, in whatever bytes; writing puts it there, after the
      five bytes that spell "Kapua". */
  lemma HeaderLayout(h: Header, b: Bytes)
    requires |b| >= 46
    ensures LaidOut(ReadHeader(b), b)
    ensures |HeaderBytes(h)| == 46 && HeaderBytes(h)[..5] == [0x4B, 0x61, 0x70, 0x75, 0x61]
    ensures LaidOut(h, HeaderBytes(h))
  {
    ReadLayout(b);
    ReadLayout(HeaderBytes(h));
    assert HeaderBytes(h) + [] == HeaderBytes(h);
    HeaderRoundTrip(h, []);
  }

  lemma ReadLayout(b: Bytes)
    requires |b| >= 46
    ensures LaidOut(ReadHeader(b), b)
  {
    hide Le16, Le64, FromBytes;
    FromTwoBytes(b, 8);
    FromEightBytes(b, 10);
    FromEightBytes(b, 18);
    FromEightBytes(b, 26);
    FromTwoBytes(b, 34);
    FromEightBytes(b, 36);
    FromTwoBytes(b, 44);
  }

  /** A header read back from its bytes, whatever follows them, is the header that was written. */
  lemma HeaderRoundTrip(h: Header, data: Bytes)
    ensures var b := HeaderBytes(h) + data;
      ReadHeader(b) == h && MagicValid(b) && (VersionValid(b) <==> h.major == MAJOR)
  {
    var b := HeaderBytes(h) + data;
    Widths();
    hide Power256, FromBytes, ToBytes;
    ReadsBack(b, 8, h.kind, 2);
    ReadsBack(b, 10, h.packetId, 8);
    ReadsBack(b, 18, h.fromId, 8);
    ReadsBack(b, 26, h.toId, 8);
    ReadsBack(b, 34, h.ttl, 2);
    ReadsBack(b, 36, h.requestId, 8);
    ReadsBack(b, 44, h.length, 2);
  }

  // ---------------------------------------------------------------------------------------------
  // Sealed datagrams

  /** A 32-byte slot for the initialisation vector, of which CBC uses the first 16, and the
      encrypted packet. */
  function Seal(c: BlockCipher, key: Bytes, iv: Bytes, packet: Bytes): Bytes
    requires Inverts(c) && |iv| == KEY_SIZE
  {
    iv + Encrypt(c, key, iv[..BLOCK], Padded(packet))
  }

  function SealedLength(n: nat): nat {
    KEY_SIZE + BLOCK * (n / BLOCK + 1)
  }

  function Open(c: BlockCipher, key: Bytes, d: Bytes): Option<Bytes>
    requires Inverts(c) && |d| >= KEY_SIZE
  {
    match DecryptFinal(c, key, d[..BLOCK], d[KEY_SIZE..])
    case None => None
    case Some(tail) => Some(DecryptUpdate(c, key, d[..BLOCK], d[KEY_SIZE..]) + tail)
  }

  lemma OpenUndoesSeal(c: BlockCipher, key: Bytes, iv: Bytes, packet: Bytes)
    requires Inverts(c) && |iv| == KEY_SIZE
    ensures var d := Seal(c, key, iv, packet);
      |d| == SealedLength(|packet|) && Open(c, key, d) == Some(packet)
  {
    var d, q := Seal(c, key, iv, packet), Encrypt(c, key, iv[..BLOCK], Padded(packet));
    DecryptInTwoSteps(c, key, iv[..BLOCK], packet);
    assert d[..BLOCK] == iv[..BLOCK] && d[KEY_SIZE..] == q;
    var n := WholeBlocks(|packet|);
    assert packet == packet[..n] + packet[n..];
  }

  /** The second half of the vector slot plays no part. */
  lemma SlackIsIgnored(c: BlockCipher, key: Bytes, d: Bytes, d': Bytes)
    requires Inverts(c) && |d| >= KEY_SIZE && |d'| >= KEY_SIZE
    requires d[..BLOCK] == d'[..BLOCK] && d[KEY_SIZE..] == d'[KEY_SIZE..]
    ensures Open(c, key, d) == Open(c, key, d')
  {
  }

  /** Exactly which packets can be sealed within the buffer; and a Ready, which has no data, is
      always 80 bytes. */
  lemma SealedFitsIff(length: nat)
    ensures SealedLength(HEADER_SIZE + length) <= MAX_PACKET_SIZE <==> length <= 1361
    ensures SealedLength(HEADER_SIZE) == 80
    ensures SealedLength(46 + length) <= 1450 <==> length <= 1361
  {
    var n := HEADER_SIZE + length;
    assert n == BLOCK * (n / BLOCK) + n % BLOCK;
  }

  /** What `_send` puts in the datagram. */
  function Outgoing(c: BlockCipher, sealUnder: Option<Bytes>, iv: Bytes, packet: Bytes): Bytes
    requires Inverts(c) && |iv| == KEY_SIZE
  {
    if sealUnder.Some? then Seal(c, sealUnder.value, iv, packet) else packet
  }

  /** What `_receive` makes of `size` bytes in its buffer, up to the version check: whether it goes
      on, and the buffer afterwards. `readUnder` is the key of a node at least in CheckEncryption. */
  function Accept(c: BlockCipher, readUnder: Option<Bytes>, buffer: Bytes, size: nat): (bool, Bytes)
    requires Inverts(c) && |buffer| == MAX_PACKET_SIZE && size <= MAX_PACKET_SIZE
  {
    if size < HEADER_SIZE then (false, buffer)
    else if MagicValid(buffer) || readUnder.None? then (VersionValid(buffer), buffer)
    else match Open(c, readUnder.value, buffer[..size])
      case None => (false, buffer)
      case Some(p) =>
        var after := Overwrite(buffer, p);
        (MagicValid(after) && VersionValid(after), after)
  }

  /** Exactly when a datagram is refused, byte by byte: if it is shorter than a header; if its first
      five bytes spell "Kapua", or there is no key for its sender, unless the sixth is 0; and
      otherwise if it does not open, or does not open into such bytes. The buffer changes only in
      the last case, to begin with what came out. */
  lemma RefusedIff(c: BlockCipher, readUnder: Option<Bytes>, buffer: Bytes, size: nat)
    requires Inverts(c) && |buffer| == 1450 && size <= 1450
    ensures var (ok, after) := Accept(c, readUnder, buffer, size);
      var kapua: Bytes := [0x4B, 0x61, 0x70, 0x75, 0x61];
      if size < 46 then !ok && after == buffer
      else if buffer[..5] == kapua || readUnder.None? then (ok <==> buffer[5] == 0) && after == buffer
      else match Open(c, readUnder.value, buffer[..size])
        case None => !ok && after == buffer
        case Some(p) =>
          && |after| == 1450 && |p| <= 1450 && after[..|p|] == p && after[|p|..] == buffer[|p|..]
          && (ok <==> after[..5] == kapua && after[5] == 0)
  {
    if size >= 46 && readUnder.Some? && Open(c, readUnder.value, buffer[..size]).Some? {
      OpenIsShorter(c, readUnder.value, buffer[..size]);
    }
  }

  function Overwrite(buffer: Bytes, p: Bytes): (r: Bytes)
    ensures |r| == |buffer|
  {
    if |p| <= |buffer| then p + buffer[|p|..] else buffer
  }

  lemma {:induction false} OpenIsShorter(c: BlockCipher, key: Bytes, d: Bytes)
    requires Inverts(c) && |d| >= KEY_SIZE && Open(c, key, d).Some?
    ensures |Open(c, key, d).value| <= |d| - KEY_SIZE
  {
    var q, iv := d[KEY_SIZE..], d[..BLOCK];
    var n := Released(|q|);
    DecryptLength(c, key, iv, q[..n]);
    DecryptLength(c, key, LastBlock(iv, q[..n]), q[n..]);
  }

  /** What arrives sealed, and is not taken for clear, is opened over the front of the buffer. */
  lemma SealedIsAccepted(c: BlockCipher, key: Bytes, iv: Bytes, packet: Bytes, stale: Bytes)
    requires Inverts(c) && |iv| == KEY_SIZE && iv[..5] != MAGIC && |packet| >= HEADER_SIZE
    requires |Seal(c, key, iv, packet) + stale| == MAX_PACKET_SIZE
    ensures |packet| <= |Seal(c, key, iv, packet)|
    ensures var wire := Seal(c, key, iv, packet);
      var after := packet + (wire + stale)[|packet|..];
      Accept(c, Some(key), wire + stale, |wire|) == (MagicValid(after) && VersionValid(after), after)
  {
    OpenUndoesSeal(c, key, iv, packet);
    hide Open, VersionValid, Inverts;
    var wire := Seal(c, key, iv, packet);
    var buffer := wire + stale;
    assert buffer[..|wire|] == wire && buffer[..5] == iv[..5];
    assert |wire| >= |packet| by { hide Seal; }
  }

  /** For every packet that fits, sending and receiving under matching keys, or in clear, restores
      the exact header and data, whatever the receive buffer held before. */
  lemma DatagramRoundTrip(c: BlockCipher, under: Option<Bytes>, iv: Bytes, h: Header, data: Bytes, stale: Bytes)
    requires Inverts(c) && |iv| == KEY_SIZE && iv[..5] != MAGIC
    requires h.length == |data| <= (if under.Some? then 1361 else MAX_PACKET_SIZE - HEADER_SIZE) && h.major == MAJOR
    requires |Outgoing(c, under, iv, HeaderBytes(h) + data) + stale| == MAX_PACKET_SIZE
    ensures var wire := Outgoing(c, under, iv, HeaderBytes(h) + data);
      var (ok, buffer) := Accept(c, under, wire + stale, |wire|);
      && ok && |buffer| == MAX_PACKET_SIZE
      && ReadHeader(buffer) == h && buffer[HEADER_SIZE..HEADER_SIZE + h.length] == data
  {
    var packet := HeaderBytes(h) + data;
    var wire := Outgoing(c, under, iv, packet);
    var buffer := wire + stale;
    hide HeaderBytes, ReadHeader, MagicValid, VersionValid, Open;
    if under.Some? {
      SealedIsAccepted(c, under.value, iv, packet, stale);
      HeaderRoundTrip(h, data + buffer[|packet|..]);
      assert packet + buffer[|packet|..] == HeaderBytes(h) + (data + buffer[|packet|..]);
    } else {
      assert buffer == HeaderBytes(h) + (data + stale);
      HeaderRoundTrip(h, data + stale);
    }
  }

  /** Exactly when a sealed datagram gets past the version check of a process that has no key for
      its sender yet: when the sixth byte of its random vector happens to be the major version.
      The handshake model takes this not to happen. */
  lemma UnreadablePassesIff(c: BlockCipher, key: Bytes, iv: Bytes, packet: Bytes, stale: Bytes)
    requires Inverts(c) && |iv| == KEY_SIZE && iv[..5] != MAGIC
    requires |Seal(c, key, iv, packet) + stale| == MAX_PACKET_SIZE
    ensures var wire := Seal(c, key, iv, packet);
      Accept(c, None, wire + stale, |wire|) == (iv[5] == MAJOR, wire + stale)
  {
    OpenUndoesSeal(c, key, iv, packet);
    var buffer := Seal(c, key, iv, packet) + stale;
    assert buffer[5] == iv[5];
  }

  // ---------------------------------------------------------------------------------------------
  // The buffers

  /** `memcpy` of `s` to `a + at`. */
  method Copy(s: Bytes, a: array<Byte>, at: nat)
    requires at + |s| <= a.Length
    modifies a
    ensures a[..] == old(a[..at]) + s + old(a[at + |s|..])
  {
    forall i | 0 <= i < |s| {
      a[at + i] := s[i];
    }
  }

  /** Goes on filling a buffer, of which `done` has replaced the front of `before`. */
  method CopyAfter(ghost done: Bytes, ghost before: Bytes, s: Bytes, a: array<Byte>, at: nat)
    requires at == |done| && at + |s| <= a.Length == |before| && a[..] == done + before[at..]
    modifies a
    ensures a[..] == (done + s) + before[at + |s|..]
  {
    assert a[..at] == done && a[at + |s|..] == before[at + |s|..] by { FillOn(done, s, before, a[..]); }
    Copy(s, a, at);
  }

  lemma FillOn(done: Bytes, s: Bytes, before: Bytes, a: Bytes)
    requires |done| + |s| <= |before| && a == done + before[|done|..]
    ensures a[..|done|] == done && a[|done| + |s|..] == before[|done| + |s|..]
  {
  }

  /** A sealed packet as the library writes it. */
  lemma SealInParts(c: BlockCipher, key: Bytes, iv: Bytes, packet: Bytes)
    requires Inverts(c) && |iv| == KEY_SIZE
    ensures var head, tail := EncryptUpdate(c, key, iv[..BLOCK], packet), EncryptFinal(c, key, iv[..BLOCK], packet);
      Seal(c, key, iv, packet) == iv + head + tail && KEY_SIZE + |head| + |tail| == SealedLength(|packet|)
  {
    EncryptInTwoSteps(c, key, iv[..BLOCK], packet);
    hide Encrypt, EncryptUpdate, EncryptFinal, Inverts, Padded;
    assert forall a, b, d: Bytes :: a + (b + d) == a + b + d;
  }

  /** Fills `ciphertext` from the front, and returns how far. */
  method AesEncrypt(c: BlockCipher, key: Bytes, iv: Bytes, plaintext: Bytes, ciphertext: array<Byte>)
    returns (length: nat)
    requires Inverts(c) && |iv| == KEY_SIZE && SealedLength(|plaintext|) <= ciphertext.Length
    modifies ciphertext
    ensures length == SealedLength(|plaintext|)
    ensures ciphertext[..] == Seal(c, key, iv, plaintext) + old(ciphertext[length..])
  {
    SealInParts(c, key, iv, plaintext);
    hide Seal, SealedLength, EncryptUpdate, EncryptFinal, Inverts, Padded;
    ghost var before := ciphertext[..];
    CopyAfter([], before, iv, ciphertext, 0);
    length := KEY_SIZE;
    assert [] + iv == iv;
    var head := EncryptUpdate(c, key, iv[..BLOCK], plaintext);
    CopyAfter(iv, before, head, ciphertext, length);
    length := length + |head|;
    var tail := EncryptFinal(c, key, iv[..BLOCK], plaintext);
    CopyAfter(iv + head, before, tail, ciphertext, length);
    length := length + |tail|;
  }

  /** Opens the first `size` bytes of `ciphertext` into the front of `plaintext`. */
  method AesDecrypt(c: BlockCipher, key: Bytes, ciphertext: array<Byte>, size: nat, plaintext: array<Byte>)
    returns (ok: bool, length: nat)
    requires Inverts(c) && KEY_SIZE <= size <= ciphertext.Length && size <= plaintext.Length && plaintext != ciphertext
    modifies plaintext
    ensures ok == Open(c, key, ciphertext[..size]).Some?
    ensures ok ==> length <= plaintext.Length && plaintext[..length] == Open(c, key, ciphertext[..size]).value
  {
    hide Decrypt, Unpad, Inverts;
    var iv, q := ciphertext[..BLOCK], ciphertext[KEY_SIZE..size];
    ghost var d := ciphertext[..size];
    assert d[..BLOCK] == iv && d[KEY_SIZE..] == q;
    DecryptLength(c, key, iv, q[..Released(|q|)]);
    var head := DecryptUpdate(c, key, iv, q);
    Copy(head, plaintext, 0);
    length := |head|;
    match DecryptFinal(c, key, iv, q) {
      case None => ok := false;
      case Some(tail) =>
        OpenIsShorter(c, key, d);
        Copy(tail, plaintext, length);
        length := length + |tail|;
        ok := true;
        assert plaintext[..length] == head + tail;
    }
  }

  /** The packet lies in the first bytes of `buffer`; it is not changed. */
  method SendFrom(c: BlockCipher, sealUnder: Option<Bytes>, iv: Bytes, buffer: array<Byte>, length: nat)
    returns (wire: Bytes)
    requires Inverts(c) && |iv| == KEY_SIZE && buffer.Length == MAX_PACKET_SIZE
    requires length <= (if sealUnder.Some? then 1361 else MAX_PACKET_SIZE - HEADER_SIZE)
    ensures wire == Outgoing(c, sealUnder, iv, buffer[..HEADER_SIZE + length])
  {
    var size := HEADER_SIZE + length;
    if sealUnder.Some? {
      SealedFitsIff(length);
      var crypt := new Byte[MAX_PACKET_SIZE];
      ghost var sealed := Seal(c, sealUnder.value, iv, buffer[..size]);
      OpenUndoesSeal(c, sealUnder.value, iv, buffer[..size]);
      var n := AesEncrypt(c, sealUnder.value, iv, buffer[..size], crypt);
      assert crypt[..n] == sealed;
      return crypt[..n];
    }
    return buffer[..size];
  }

  /** Decrypts into a second buffer and copies the result back over the first. */
  method ReceiveInto(c: BlockCipher, readUnder: Option<Bytes>, buffer: array<Byte>, size: nat) returns (ok: bool)
    requires Inverts(c) && buffer.Length == MAX_PACKET_SIZE && size <= MAX_PACKET_SIZE
    modifies buffer
    ensures (ok, buffer[..]) == Accept(c, readUnder, old(buffer[..]), size)
  {
    hide Open, MagicValid, VersionValid, Inverts;
    if size < HEADER_SIZE { return false; }
    if !MagicValid(buffer[..]) && readUnder.Some? {
      ghost var before := buffer[..];
      assert before[..size] == buffer[..size];
      var crypt := new Byte[MAX_PACKET_SIZE];
      var good, n := AesDecrypt(c, readUnder.value, buffer, size, crypt);
      if !good { return false; }
      OpenIsShorter(c, readUnder.value, buffer[..size]);
      Copy(crypt[..n], buffer, 0);
      assert buffer[..] == Overwrite(before, crypt[..n]);
      if !MagicValid(buffer[..]) { return false; }
    }
    return VersionValid(buffer[..]);
  }
}
