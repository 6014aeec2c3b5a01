/** Concrete runs of two processes, played on what the two think of each other and what travels
    between them, and proved to be runs of the world. */
module Scenes {
  import opened Options
  import opened PeerProtocol
  import opened Sides
  import opened World
  import opened Runs
  import opened HandshakeTheorems

  const WHO: seq<Identity> := [Identity(1, 10), Identity(2, 20)]

  /** Each process's record of the other, and its wire to the other. */
  datatype Scene = Scene(r0: Option<Record>, wire0: seq<Datagram>, r1: Option<Record>, wire1: seq<Datagram>)

  const OPENING := Scene(None, [], None, [])

  function Travelling(s: Scene, src: Addr): seq<Datagram> {
    if src == 0 then s.wire0 else s.wire1
  }

  function Dropped(s: Scene, src: Addr, i: nat): Scene
    requires i < |Travelling(s, src)|
  {
    if src == 0 then s.(wire0 := Without(s.wire0, i)) else s.(wire1 := Without(s.wire1, i))
  }

  /** The other process hears `d` from `src`. */
  function Heard(s: Scene, src: Addr, d: Datagram, draw: nat): Scene {
    if src == 0 then
      var r := React(WHO[1], 0, s.r1, d, draw);
      s.(r1 := r.node, wire1 := s.wire1 + Sends(r.events))
    else
      var r := React(WHO[0], 1, s.r0, d, draw);
      s.(r0 := r.node, wire0 := s.wire0 + Sends(r.events))
  }

  predicate Between(l: Link) {
    l == Link(0, 1) || l == Link(1, 0)
  }

  predicate Playable(net: Network, s: Scene, m: Move) {
    match m
    case Broadcast(p) => p < 2
    case Deliver(l, i, _) => Between(l) && i < |Travelling(s, l.src)| && (net.Reliable? ==> i == 0)
    case Replay(l, i, _) => Between(l) && i < |Travelling(s, l.src)| && net.Replaying?
    case Lose(l, i) => Between(l) && i < |Travelling(s, l.src)| && !net.Reliable?
  }

  function Play(net: Network, s: Scene, m: Move): Scene
    requires Playable(net, s, m)
  {
    match m
    case Broadcast(p) =>
      var chat := Announcement(WHO[p].id);
      if p == 0 then s.(wire0 := s.wire0 + [chat]) else s.(wire1 := s.wire1 + [chat])
    case Deliver(l, i, draw) => Heard(Dropped(s, l.src, i), l.src, Travelling(s, l.src)[i], draw)
    case Replay(l, i, draw) => Heard(s, l.src, Travelling(s, l.src)[i], draw)
    case Lose(l, i) => Dropped(s, l.src, i)
  }

  /** The run `steps` has led to `w`, which looks like `s`. */
  ghost predicate Now(net: Network, steps: seq<Move>, w: World, s: Scene) {
    && Run(net, Init(WHO), steps, w) && Shaped(WHO, w)
    && View(w, 0, 1).record == s.r0 && View(w, 0, 1).wire == s.wire0
    && View(w, 1, 0).record == s.r1 && View(w, 1, 0).wire == s.wire1
  }

  lemma {:induction false} RunThen(net: Network, w: World, steps: seq<Move>, w1: World, m: Move)
    requires Run(net, w, steps, w1) && Enabled(net, w1, m)
    ensures Run(net, w, steps + [m], Apply(net, w1, m))
    decreases |steps|
  {
    if steps == [] {
      assert Run(net, Apply(net, w1, m), [m][1..], Apply(net, w1, m));
    } else {
      RunThen(net, Apply(net, w, steps[0]), steps[1..], w1, m);
      assert (steps + [m])[1..] == steps[1..] + [m];
    }
  }

  lemma Open(net: Network)
    ensures Now(net, [], Init(WHO), OPENING)
  {
    InitIsGood(net, WHO);
    assert Link(0, 1) in Links(2) && Link(1, 0) in Links(2);
  }

  /** What is played happens. */
  lemma Perform(net: Network, steps: seq<Move>, w: World, s: Scene, m: Move)
    requires Now(net, steps, w, s) && Playable(net, s, m)
    ensures Enabled(net, w, m) && Now(net, steps + [m], Apply(net, w, m), Play(net, s, m))
  {
    hide React, Apply, Sends, Run;
    assert Link(0, 1) in Links(|WHO|) && Link(1, 0) in Links(|WHO|);
    assert Enabled(net, w, m);
    MoveEffect(net, WHO, w, m, 0, 1);
    MoveEffect(net, WHO, w, m, 1, 0);
    MoveKeepsShape(net, WHO, w, m);
    RunThen(net, Init(WHO), steps, w, m);
  }

  lemma NowMeans(net: Network, steps: seq<Move>, w: World, s: Scene)
    requires Now(net, steps, w, s)
    ensures Reached(net, WHO, steps, w) && Rec(w, 0, 1) == s.r0 && Rec(w, 1, 0) == s.r1
    ensures Wire(w, Link(0, 1)) == s.wire0 && Wire(w, Link(1, 0)) == s.wire1
  {
    hide Run;
  }

  // ---------------------------------------------------------------------------------------------
  // What the two may send

  const CHAT0 := Clear(Packet(0, 1, 0xFFFF_FFFF_FFFF_FFFF, Discovery))
  const ASK0 := Clear(Make(1, 2, PublicKeyRequest))
  const ASK1 := Clear(Make(2, 1, PublicKeyRequest))
  const REPLY0 := Clear(Make(1, 2, PublicKeyReply(10)))
  const REPLY1 := Clear(Make(2, 1, PublicKeyReply(20)))

  function Context0(k: nat): Datagram { Clear(Make(1, 2, EncryptionContext(20, Bits(k)))) }

  function Context1(k: nat): Datagram { Clear(Make(2, 1, EncryptionContext(10, Bits(k)))) }

  function Ready0(k: nat): Datagram { Sealed(Bits(k), Make(1, 2, Ready)) }

  function Ready1(k: nat): Datagram { Sealed(Bits(k), Make(2, 1, Ready)) }

  /** Process 0's record of process 1, and the other way round. */
  function Rec0(state: State, peerKey: Option<RsaKey>, tx: AesKey, rx: AesKey): Option<Record> {
    Some(Record(2, 1, state, peerKey, tx, rx))
  }

  function Rec1(state: State, peerKey: Option<RsaKey>, tx: AesKey, rx: AesKey): Option<Record> {
    Some(Record(1, 0, state, peerKey, tx, rx))
  }

  /** Evaluates one act: `node` and `events` are what the hearer is left with and does. */
  lemma Act(net: Network, s: Scene, m: Move, node: Option<Record>, events: seq<Event>, s': Scene)
    requires Playable(net, s, m) && (m.Deliver? || m.Replay?) && |events| <= 2
    requires var l := m.link;
      React(WHO[l.dst], l.src, if l.src == 0 then s.r1 else s.r0, Travelling(s, l.src)[m.i], m.draw)
      == Reaction(node, events)
    requires var kept := if m.Deliver? then Dropped(s, m.link.src, m.i) else s;
      s' == if m.link.src == 0 then kept.(r1 := node, wire1 := s.wire1 + Told(events))
            else kept.(r0 := node, wire0 := s.wire0 + Told(events))
    ensures Play(net, s, m) == s'
  {
    hide React, Sends;
    ToldIsSends(events);
  }

  /** `Sends` for a turn's few events. */
  function Told(events: seq<Event>): seq<Datagram>
    requires |events| <= 2
  {
    (if |events| > 0 && events[0].Sent? then [events[0].datagram] else [])
    + (if |events| > 1 && events[1].Sent? then [events[1].datagram] else [])
  }

  lemma ToldIsSends(events: seq<Event>)
    requires |events| <= 2
    ensures Sends(events) == Told(events)
  {
    if |events| == 1 {
      ShortLogs(events[0], events[0]);
      assert events == [events[0]];
    } else if |events| == 2 {
      ShortLogs(events[0], events[1]);
      assert events == [events[0], events[1]];
    }
  }
}
