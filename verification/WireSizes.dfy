/** How long the datagrams of the handshake are on the wire. */
module WireSizes {
  import opened Options
  import opened PeerProtocol
  import opened World
  import opened HandshakeTheorems
  import Framing

  /** The `length` field; none where it is the length of a serialised or wrapped key. */
  function DataLength(b: Body): Option<nat> {
    match b
    case PublicKeyReply(_) => None
    case EncryptionContext(_, _) => None
    case _ => Some(0)
  }

  function Size(d: Datagram): Option<nat> {
    if d.Short? || DataLength(d.packet.body).None? then None
    else
      var n := Framing.HEADER_SIZE + DataLength(d.packet.body).value;
      Some(if d.Sealed? then Framing.SealedLength(n) else n)
  }

  /** In every run over any network, whatever a process sends sealed is a Ready of exactly 80 bytes,
      far within the bound that sealing needs, and every Ready it sends is such a datagram. */
  lemma SealedIsReadyOfEightyBytes(net: Network, who: seq<Identity>, steps: seq<Move>, w: World, a: Addr, b: Addr,
                                   e: Event)
    requires Reached(net, who, steps, w) && Two(who, a, b) && e in Log(w, Link(a, b)) && e.Sent?
    ensures e.datagram.Sealed? || (!e.datagram.Short? && e.datagram.packet.body.Ready?) ==>
      e.datagram.Sealed? && e.datagram.packet == Make(who[a].id, who[b].id, Ready) && Size(e.datagram) == Some(80)
  {
    hide Run;
    ReadyAloneIsSealed(net, who, steps, w, a, b, e);
    Framing.SealedFitsIff(0);
  }
}
