/** The main loop of src/UDPNetwork.cpp over a live node table, refining the turns that the
    theorems about whole runs are stated for. */
module UdpNetwork {
  import opened Options
  import opened PeerProtocol
  import opened Nodes

  datatype Heard = Heard(from: Addr, datagram: Datagram, draw: nat)

  /** One pass of the loop: perhaps a datagram is waiting, perhaps a broadcast is due. */
  datatype Tick = Tick(heard: Option<Heard>, broadcastDue: bool)

  function Pass(p: Process, t: Tick): TurnResult {
    var r := if t.heard.Some? then Turn(p, t.heard.value.from, t.heard.value.datagram, t.heard.value.draw)
             else TurnResult(p, []);
    if t.broadcastDue then TurnResult(r.process, r.events + [Sent(Everyone, Announcement(p.who.id))]) else r
  }

  function Passes(p: Process, ticks: seq<Tick>): TurnResult {
    if ticks == [] then TurnResult(p, []) else
      var before := Passes(p, ticks[..|ticks| - 1]);
      var last := Pass(before.process, ticks[|ticks| - 1]);
      TurnResult(last.process, before.events + last.events)
  }

  class UdpNetwork {
    const core: Core
    /** What this process has done, in order: datagrams sent, keys drawn, keys decrypted. */
    var log: seq<Event>

    ghost predicate Valid()
      reads core
    {
      core.Valid() && OnePerAddress(core.added)
    }

    function Snapshot(): Process
      ensures Snapshot().who == core.me
      reads core, core.nodesByAddr.Values
    {
      Process(core.me, map a | a in core.nodesByAddr :: core.nodesByAddr[a].Value())
    }

    /** `node` is the live node filed under `addr`. */
    ghost predicate Filed(node: Node, addr: Addr)
      reads core
    {
      node.addr == addr && addr in core.nodesByAddr && core.nodesByAddr[addr] == node
    }

    constructor (me: Identity)
      ensures Valid() && fresh(core) && core.me == me && log == [] && Snapshot() == Process(me, map[])
    {
      core := new Core(me);
      log := [];
    }

    method Send(node: Node?, packet: Packet, dest: Dest)
      modifies this`log
      ensures log == old(log) + [Sent(dest, Frame(if node == null then None else Some(node.Value()), packet))]
    {
      if node != null && Rank(node.state) >= Rank(CheckEncryption) {
        log := log + [Sent(dest, Sealed(node.tx, packet))];
      } else {
        log := log + [Sent(dest, Clear(packet))];
      }
    }

    /** The record of an address is the value of the node filed under it. */
    lemma KnownRecord(from: Addr)
      ensures Lookup(Snapshot().records, from)
           == if from in core.nodesByAddr then Some(core.nodesByAddr[from].Value()) else None
      ensures from in core.nodesByAddr ==>
        Snapshot().records[from := core.nodesByAddr[from].Value()] == Snapshot().records
    {
    }

    method Receive(from: Addr, datagram: Datagram) returns (ok: bool, node: Node?, packet: Packet)
      requires Valid()
      modifies core, this`log
      ensures Valid()
      ensures var v := PeerProtocol.Receive(core.me, from, Lookup(old(Snapshot()).records, from), datagram);
        && ok == v.Accepted?
        && (v.Accepted? ==>
              && node != null && Filed(node, from) && packet == v.packet && node.Value() == v.node
              && log == old(log) + v.events
              && Snapshot().records == old(Snapshot()).records[from := v.node])
        && (v.Refused? ==> Snapshot() == old(Snapshot()) && log == old(log))
      ensures old(core.added) <= core.added
      ensures core.nodesByAddr.Values <= old(core.nodesByAddr.Values) + (if node == null then {} else {node})
      ensures node != null ==> fresh(node) || node in old(core.nodesByAddr.Values)
    {
      hide FirstByAddr, FirstById, OnePerAddress, Snapshot;
      KnownRecord(from);
      ok, packet := false, Make(0, 0, Ping);
      node := core.FindNodeByAddr(from);
      match datagram {
        case Short => return;
        case Clear(p) => packet := p;
        case Sealed(key, p) =>
          if node == null || Rank(node.state) < Rank(CheckEncryption) || node.rx != key { return; }
          packet := p;
      }
      if packet.major != VERSION_MAJOR { return; }
      if packet.fromId == core.me.id { return; }
      if node == null {
        ghost var known := core.added;
        node := core.AddNode(packet.fromId, from);
        StillOnePerAddress(known, node);
        OneRecordAdded(from, node);
        Send(node, Make(core.me.id, packet.fromId, PublicKeyRequest), Peer(from));
      }
      ok := true;
    }

    /** Filing one new node adds one record to the snapshot. */
    twostate lemma OneRecordAdded(from: Addr, new node: Node)
      requires old(from !in core.nodesByAddr) && core.nodesByAddr == old(core.nodesByAddr)[from := node]
      requires forall a :: a in old(core.nodesByAddr) ==> unchanged(old(core.nodesByAddr)[a])
      ensures Snapshot() == old(Snapshot()).(records := old(Snapshot()).records[from := node.Value()])
    {
    }

    /** An unknown address joins the log as its only entry. */
    lemma StillOnePerAddress(added: seq<Node>, node: Node)
      requires OnePerAddress(added) && FirstByAddr(added, node.addr) == null
      ensures OnePerAddress(added + [node])
    {
      FirstByAddrIsFirst(added, node.addr);
    }

    /** Changing one filed node changes one record of the snapshot. */
    twostate lemma OneRecordChanged(node: Node)
      requires unchanged(core) && old(core.Valid()) && old(allocated(node)) && old(Filed(node, node.addr))
      requires forall a :: a in core.nodesByAddr && a != node.addr ==> unchanged(core.nodesByAddr[a])
      ensures Snapshot() == old(Snapshot()).(records := old(Snapshot()).records[node.addr := node.Value()])
    {
    }

    method ProcessPacket(node: Node?, packet: Packet, draw: nat)
      requires Valid() && (node != null ==> Filed(node, node.addr))
      modifies node, this`log
      ensures Valid()
      ensures var r :=
          PeerProtocol.ProcessPacket(core.me, if node == null then None else Some(old(node.Value())), packet, draw);
        && log == old(log) + r.events
        && (node == null ==> Snapshot() == old(Snapshot()))
        && (node != null ==>
              && r.node == Some(node.Value())
              && Snapshot() == old(Snapshot()).(records := old(Snapshot()).records[node.addr := node.Value()]))
    {
      hide Snapshot, FirstById, FirstByAddr;
      if node == null { return; }
      match packet.body {
        case PublicKeyRequest =>
          node.state := KeyExchange;
          Send(node, Make(core.me.id, node.id, PublicKeyReply(core.me.rsa)), Peer(node.addr));
        case PublicKeyReply(key) =>
          if node.state == KeyExchange {
            node.peerKey := Some(key);
            node.tx := Bits(draw);
            log := log + [Generated(node.tx)];
            node.state := Handshake;
            Send(node, Make(core.me.id, node.id, EncryptionContext(node.peerKey.value, node.tx)), Peer(node.addr));
          }
        case EncryptionContext(wrappedFor, session) =>
          if node.state == Handshake && wrappedFor == core.me.rsa {
            node.rx := session;
            log := log + [Decrypted(session)];
            node.state := CheckEncryption;
            Send(node, Make(core.me.id, node.id, Ready), Peer(node.addr));
          }
        case Ready =>
          if node.state == CheckEncryption {
            node.state := Connected;
          }
        case _ =>
      }
      OneRecordChanged(node);
    }

    /** One pass of the loop that hears a datagram: the process changes as `Turn` says. The packet
        is processed only for a node that is filed under the sender's address. */
    method Hear(from: Addr, datagram: Datagram, draw: nat)
      requires Valid()
      modifies core, core.nodesByAddr.Values, this`log
      ensures Valid() && fresh(core.nodesByAddr.Values - old(core.nodesByAddr.Values))
      ensures var t := Turn(old(Snapshot()), from, datagram, draw);
        Snapshot() == t.process && log == old(log) + t.events
    {
      hide PeerProtocol.Receive, PeerProtocol.ProcessPacket, Snapshot, Core.Valid, OnePerAddress;
      var ok, node, packet := Receive(from, datagram);
      if ok {
        assert node != null && Filed(node, from);
        label received:
        ProcessPacket(node, packet, draw);
        assert Snapshot().records == old@received(Snapshot().records)[from := node.Value()];
      }
    }

    method Broadcast()
      modifies this`log
      ensures log == old(log) + [Sent(Everyone, Announcement(core.me.id))]
    {
      Send(null, Make(core.me.id, ID_BROADCAST, Discovery), Everyone);
    }

    /** The main loop, for as many passes as it is left running. */
    method MainLoop(ticks: seq<Tick>)
      requires Valid()
      modifies core, core.nodesByAddr.Values, this`log
      ensures Valid()
      ensures var t := Passes(old(Snapshot()), ticks);
        Snapshot() == t.process && log == old(log) + t.events
    {
      hide Turn, Snapshot, Valid;
      var i := 0;
      while i < |ticks|
        invariant 0 <= i <= |ticks| && Valid()
        invariant fresh(core.nodesByAddr.Values - old(core.nodesByAddr.Values))
        invariant Snapshot() == Passes(old(Snapshot()), ticks[..i]).process
        invariant log == old(log) + Passes(old(Snapshot()), ticks[..i]).events
      {
        assert ticks[..i + 1][..i] == ticks[..i];
        if ticks[i].heard.Some? {
          var h := ticks[i].heard.value;
          Hear(h.from, h.datagram, h.draw);
        }
        if ticks[i].broadcastDue {
          Broadcast();
        }
        i := i + 1;
      }
      assert ticks[..|ticks|] == ticks;
    }
  }
}
