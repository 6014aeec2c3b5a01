/** One process's side of the peer handshake: what `_receive`, `_process_packet` and `_send` do to
    a single peer record (src/UDPNetwork.cpp, src/Node.hpp), stated on values.

    Cryptography is ideal. An RSA key pair and an AES key are opaque names; a wrapped session key
    opens only under the key pair it was wrapped for, a sealed datagram only under the key that
    sealed it. No freshness is assumed of generated keys. */
module PeerProtocol {
  import opened Options

  type Addr = nat
  type NodeId = n: nat | n < 0x1_0000_0000_0000_0000
  type RsaKey = nat

  /** An `AESKey` field: unset until `generate` or a decrypted context fills it. */
  datatype AesKey = Unset | Bits(bits: nat)

  const ID_BROADCAST: NodeId := 0xFFFF_FFFF_FFFF_FFFF
  const VERSION_MAJOR: nat := 0

  datatype State = Initialised | KeyExchange | Handshake | CheckEncryption | Connected

  /** The order of the enumerators: the code compares states with `>=`. */
  function Rank(s: State): nat {
    match s
    case Initialised => 0
    case KeyExchange => 1
    case Handshake => 2
    case CheckEncryption => 3
    case Connected => 4
  }

  datatype Body =
    | Ping
    | PublicKeyRequest
    | PublicKeyReply(key: RsaKey)
    | EncryptionContext(wrappedFor: RsaKey, session: AesKey)
    | Ready
    | Discovery
    | Unknown(code: nat)

  datatype Packet = Packet(major: nat, fromId: NodeId, toId: NodeId, body: Body)

  /** A datagram as the receiver can tell them apart: too short for a header, carrying the magic
      number in clear, or sealed under a session key. */
  datatype Datagram = Short | Clear(packet: Packet) | Sealed(key: AesKey, packet: Packet)

  /** The fields of a `Node` that the protocol reads or writes. */
  datatype Record = Record(id: NodeId, addr: Addr, state: State, peerKey: Option<RsaKey>, tx: AesKey, rx: AesKey)

  datatype Identity = Identity(id: NodeId, rsa: RsaKey)

  datatype Dest = Peer(addr: Addr) | Everyone

  /** What a process does that others, or the theorems, can observe, in program order. */
  datatype Event =
    | Sent(dest: Dest, datagram: Datagram)
    | Generated(key: AesKey)
    | Decrypted(key: AesKey)

  function NewRecord(id: NodeId, addr: Addr): Record {
    Record(id, addr, Initialised, None, Unset, Unset)
  }

  function Make(fromId: NodeId, toId: NodeId, body: Body): Packet {
    Packet(VERSION_MAJOR, fromId, toId, body)
  }

  /** `_send`: sealed exactly when the node is known and at least in CheckEncryption. */
  function Frame(node: Option<Record>, packet: Packet): Datagram {
    if node.Some? && Rank(node.value.state) >= Rank(CheckEncryption)
    then Sealed(node.value.tx, packet)
    else Clear(packet)
  }

  function SendTo(node: Record, packet: Packet, addr: Addr): Event {
    Sent(Peer(addr), Frame(Some(node), packet))
  }

  function Announcement(id: NodeId): Datagram {
    Frame(None, Make(id, ID_BROADCAST, Discovery))
  }

  datatype Refusal = TooShort | WrongKey | Unreadable | BadVersion | OwnPacket

  datatype Verdict = Refused(why: Refusal) | Accepted(node: Record, packet: Packet, events: seq<Event>)

  /** `_receive` up to the version check: which packet, if any, the datagram turns into.
      A sealed datagram for a record below CheckEncryption goes on to the version check on its
      ciphertext bytes in the code; it is taken to fail there. */
  function Receive(me: Identity, from: Addr, node: Option<Record>, d: Datagram): Verdict {
    match d
    case Short => Refused(TooShort)
    case Clear(packet) => Admit(me, from, node, packet)
    case Sealed(key, packet) =>
      if node.Some? && Rank(node.value.state) >= Rank(CheckEncryption) then
        if node.value.rx == key then Admit(me, from, node, packet) else Refused(WrongKey)
      else
        Refused(Unreadable)
  }

  /** The rest of `_receive`: version, own id, and first contact. */
  function Admit(me: Identity, from: Addr, node: Option<Record>, packet: Packet): Verdict {
    if packet.major != VERSION_MAJOR then
      Refused(BadVersion)
    else if packet.fromId == me.id then
      Refused(OwnPacket)
    else match node
      case Some(r) => Accepted(r, packet, [])
      case None =>
        var r := NewRecord(packet.fromId, from);
        Accepted(r, packet, [SendTo(r, Make(me.id, packet.fromId, PublicKeyRequest), from)])
  }

  datatype Reaction = Reaction(node: Option<Record>, events: seq<Event>)

  /** `_process_packet`; `draw` is what `generate` draws, should this packet call it. */
  function ProcessPacket(me: Identity, node: Option<Record>, packet: Packet, draw: nat): Reaction {
    match node
    case None => Reaction(None, [])
    case Some(r) =>
      match packet.body
      case PublicKeyRequest =>
        var r' := r.(state := KeyExchange);
        Reaction(Some(r'), [SendTo(r', Make(me.id, r.id, PublicKeyReply(me.rsa)), r.addr)])
      case PublicKeyReply(key) =>
        if r.state != KeyExchange then Reaction(node, []) else
          var r' := r.(peerKey := Some(key), tx := Bits(draw), state := Handshake);
          Reaction(Some(r'), [Generated(Bits(draw)),
                              SendTo(r', Make(me.id, r.id, EncryptionContext(key, Bits(draw))), r.addr)])
      case EncryptionContext(wrappedFor, session) =>
        if r.state != Handshake || wrappedFor != me.rsa then Reaction(node, []) else
          var r' := r.(rx := session, state := CheckEncryption);
          Reaction(Some(r'), [Decrypted(session), SendTo(r', Make(me.id, r.id, Ready), r.addr)])
      case Ready =>
        if r.state != CheckEncryption then Reaction(node, []) else
          Reaction(Some(r.(state := Connected)), [])
      case _ => Reaction(node, [])
  }

  /** One turn of the main loop that hears datagram `d` from address `from`. */
  function React(me: Identity, from: Addr, node: Option<Record>, d: Datagram, draw: nat): Reaction {
    match Receive(me, from, node, d)
    case Refused(_) => Reaction(node, [])
    case Accepted(r, packet, events) =>
      var done := ProcessPacket(me, Some(r), packet, draw);
      Reaction(done.node, events + done.events)
  }

  datatype Process = Process(who: Identity, records: map<Addr, Record>)

  function Lookup(records: map<Addr, Record>, a: Addr): Option<Record> {
    if a in records then Some(records[a]) else None
  }

  datatype TurnResult = TurnResult(process: Process, events: seq<Event>)

  /** The same turn on the whole process: only the sender's record is looked up or replaced. */
  function Turn(p: Process, from: Addr, d: Datagram, draw: nat): TurnResult {
    var r := React(p.who, from, Lookup(p.records, from), d, draw);
    TurnResult(p.(records := if r.node.Some? then p.records[from := r.node.value] else p.records), r.events)
  }

  /** How far the handshake with a peer has come: 0 for an unknown peer. */
  function Stage(node: Option<Record>): nat {
    if node.Some? then Rank(node.value.state) else 0
  }

  /** Exactly which datagrams are processed: long enough, of our version, not our own and, if
      sealed, from a node at least in CheckEncryption under the very key it gave us. */
  lemma AcceptedIff(me: Identity, from: Addr, node: Option<Record>, d: Datagram)
    ensures Receive(me, from, node, d).Accepted? <==> (
      && !d.Short?
      && d.packet.major == VERSION_MAJOR && d.packet.fromId != me.id
      && (d.Sealed? ==> node.Some? && node.value.state in {CheckEncryption, Connected} && node.value.rx == d.key))
    ensures Receive(me, from, node, d).Accepted? ==> Receive(me, from, node, d).packet == d.packet
  {
    if node.Some? {
      assert Rank(node.value.state) >= 3 <==> node.value.state in {CheckEncryption, Connected};
    }
  }

  /** Exactly when a packet is sealed, and under which key: for any node and any state. */
  lemma FrameIff(node: Option<Record>, packet: Packet)
    ensures Frame(node, packet).Sealed? <==> node.Some? && node.value.state in {CheckEncryption, Connected}
    ensures Frame(node, packet) == if Frame(node, packet).Sealed? then Sealed(node.value.tx, packet) else Clear(packet)
  {
    if node.Some? {
      assert Rank(node.value.state) >= 3 <==> node.value.state in {CheckEncryption, Connected};
    }
  }

  /** Exactly which packets move a record backwards, in any network whatever: a PublicKeyRequest
      that is admitted while the record is beyond KeyExchange. Nothing else ever does. */
  lemma StageFallsIff(me: Identity, from: Addr, node: Option<Record>, d: Datagram, draw: nat)
    ensures Stage(React(me, from, node, d, draw).node) < Stage(node)
       <==> Stage(node) > Rank(KeyExchange) && Receive(me, from, node, d).Accepted? && d.packet.body.PublicKeyRequest?
  {
  }

  /** Whatever the record and whatever arrives, a packet goes out sealed if and only if it is
      Ready, and a turn that hears from a record's own address answers nobody else. */
  lemma OnlyReadyIsSealed(me: Identity, from: Addr, node: Option<Record>, d: Datagram, draw: nat, e: Event)
    requires node.Some? ==> node.value.addr == from
    requires e in React(me, from, node, d, draw).events && e.Sent?
    ensures e.dest == Peer(from) && !e.datagram.Short?
    ensures e.datagram.Sealed? <==> e.datagram.packet.body.Ready?
    ensures e.datagram.packet.fromId == me.id && e.datagram.packet.major == VERSION_MAJOR
    ensures !e.datagram.packet.body.Discovery?
  {
  }
}
