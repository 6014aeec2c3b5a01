/** What is answered, and when: every turn spelled out for any record and any datagram, and every
    answer of a run counted against what was handed over, in every network, replaying included. */
module Replies {
  import opened Options
  import opened PeerProtocol
  import opened Sides
  import opened World
  import opened Runs
  import opened HandshakeTheorems

  // ---------------------------------------------------------------------------------------------
  // One turn

  /** A datagram that is processed: of this version, from somebody else and, if sealed, readable. */
  predicate Admitted(me: Identity, node: Option<Record>, d: Datagram) {
    && !d.Short? && d.packet.major == 0 && d.packet.fromId != me.id
    && (d.Sealed? ==> node.Some? && node.value.state in {CheckEncryption, Connected} && node.value.rx == d.key)
  }

  /** A request is heeded in any state, and the other three packets only in the state that waits
      for them: step `k` of the handshake at stage `k`. */
  predicate Heeded(me: Identity, node: Option<Record>, d: Datagram) {
    var k := Sides.Step(d);
    && (k == 0 || (k == Stage(node) && k < 4))
    && (k == 2 ==> d.packet.body.wrappedFor == me.rsa)
  }

  /** What goes out for a datagram that is heeded. */
  function AnswerTo(me: Identity, r: Record, d: Datagram, draw: nat): seq<Event>
    requires Sides.Step(d) < 4
  {
    match d.packet.body
    case PublicKeyRequest => [Sent(Peer(r.addr), Clear(Packet(0, me.id, r.id, PublicKeyReply(me.rsa))))]
    case PublicKeyReply(key) =>
      [Generated(Bits(draw)), Sent(Peer(r.addr), Clear(Packet(0, me.id, r.id, EncryptionContext(key, Bits(draw)))))]
    case EncryptionContext(_, session) =>
      [Decrypted(session), Sent(Peer(r.addr), Sealed(r.tx, Packet(0, me.id, r.id, Ready)))]
    case _ => []
  }

  /** A peer nobody has heard of yet. */
  function Stranger(id: NodeId, addr: Addr): Record {
    Record(id, addr, Initialised, None, Unset, Unset)
  }

  /** One turn, for any record and any datagram. What is not admitted changes nothing. A stranger is
      asked for its key. What is heeded takes the record to the stage after its step, fills in what
      it carries, and is answered; anything else is passed over. */
  lemma TurnExactly(me: Identity, from: Addr, node: Option<Record>, d: Datagram, draw: nat)
    ensures !Admitted(me, node, d) ==> React(me, from, node, d, draw) == Reaction(node, [])
    ensures Admitted(me, node, d) ==>
      var r := if node.Some? then node.value else Stranger(d.packet.fromId, from);
      var greeting := if node.Some? then []
                      else [Sent(Peer(from), Clear(Packet(0, me.id, d.packet.fromId, PublicKeyRequest)))];
      var after, heeded, k := React(me, from, node, d, draw), Heeded(me, node, d), Sides.Step(d);
      && after.node.Some?
      && after.events == greeting + (if heeded then AnswerTo(me, r, d, draw) else [])
      && after.node.value.id == r.id && after.node.value.addr == r.addr
      && Stage(after.node) == (if heeded then k + 1 else Stage(Some(r)))
      && after.node.value.peerKey == (if heeded && k == 1 then Some(d.packet.body.key) else r.peerKey)
      && after.node.value.tx == (if heeded && k == 1 then Bits(draw) else r.tx)
      && after.node.value.rx == (if heeded && k == 2 then d.packet.body.session else r.rx)
  {
  }

  // ---------------------------------------------------------------------------------------------
  // Counting answers

  /** How many packets of step `k` the log sends. */
  function Answers(log: seq<Event>, k: nat): nat {
    if log == [] then 0
    else
      var e := log[|log| - 1];
      Answers(log[..|log| - 1], k) + if e.Sent? && Sides.Step(e.datagram) == k then 1 else 0
  }

  /** How many keys it opens. */
  function Opened(log: seq<Event>): nat {
    if log == [] then 0 else Opened(log[..|log| - 1]) + if log[|log| - 1].Decrypted? then 1 else 0
  }

  lemma {:induction false} CountsAppend(a: seq<Event>, b: seq<Event>, k: nat)
    ensures Answers(a + b, k) == Answers(a, k) + Answers(b, k)
    ensures Opened(a + b) == Opened(a) + Opened(b)
    ensures |Drawn(a + b)| == |Drawn(a)| + |Drawn(b)|
  {
    LogsAppend(a, b);
    if b == [] {
      assert a + b == a;
    } else {
      assert (a + b)[..|a + b| - 1] == a + b[..|b| - 1];
      CountsAppend(a, b[..|b| - 1], k);
    }
  }

  /** The datagram that a move hands over to `a` from `b`, if any. */
  function HandedBy(w: World, m: Move, a: Addr, b: Addr): Option<Datagram> {
    if (m.Deliver? || m.Replay?) && m.link == Link(b, a) && m.link in w.wires && m.i < |w.wires[m.link]|
    then Some(w.wires[m.link][m.i]) else None
  }

  /** Whether a move hands `a` the packet of step `k` of `b`, at a stage that waits for it. */
  predicate Waited(w: World, m: Move, a: Addr, b: Addr, k: nat) {
    var d := HandedBy(w, m, a, b);
    d.Some? && Sides.Step(d.value) == k && (k == 0 || Stage(Rec(w, a, b)) == k)
  }

  /** How many moves of a run do so. For requests that is simply how many are handed over. */
  function WaitedFor(net: Network, w: World, steps: seq<Move>, a: Addr, b: Addr, k: nat): nat
    decreases |steps|
  {
    if steps == [] || !Enabled(net, w, steps[0]) then 0
    else (if Waited(w, steps[0], a, b, k) then 1 else 0) + WaitedFor(net, Apply(net, w, steps[0]), steps[1..], a, b, k)
  }

  function Welcome(me: Identity, from: Addr, node: Option<Record>, d: Datagram): seq<Event>
    requires !d.Short?
  {
    if node.Some? then [] else [Sent(Peer(from), Clear(Packet(0, me.id, d.packet.fromId, PublicKeyRequest)))]
  }

  function If(b: bool): nat { if b then 1 else 0 }

  lemma GreetingCounts(me: Identity, from: Addr, node: Option<Record>, d: Datagram, k: nat)
    requires !d.Short?
    ensures var g := Welcome(me, from, node, d);
      Answers(g, k) == If(node.None? && k == 0) && |Drawn(g)| == 0 && Opened(g) == 0
  {
    ShortCounts(Welcome(me, from, node, d));
  }

  lemma AnswerCounts(me: Identity, r: Record, d: Datagram, draw: nat, k: nat)
    requires Sides.Step(d) < 4 && k < 4
    ensures var log, step := AnswerTo(me, r, d, draw), Sides.Step(d);
      && Answers(log, k) == If(step < 3 && k == step + 1)
      && |Drawn(log)| == If(step == 1) && Opened(log) == If(step == 2)
  {
    ShortCounts(AnswerTo(me, r, d, draw));
  }

  /** What the log gains by one turn, counted. */
  lemma TurnCounts(me: Identity, from: Addr, node: Option<Record>, d: Datagram, draw: nat, k: nat)
    requires Admitted(me, node, d) && k < 4
    ensures var events, step, heeded := React(me, from, node, d, draw).events, Sides.Step(d), Heeded(me, node, d);
      && Answers(events, k) == If(if k == 0 then node.None? else heeded && step + 1 == k)
      && |Drawn(events)| == If(heeded && step == 1)
      && Opened(events) == If(heeded && step == 2)
  {
    var r := if node.Some? then node.value else Stranger(d.packet.fromId, from);
    var greeting := Welcome(me, from, node, d);
    TurnExactly(me, from, node, d, draw);
    GreetingCounts(me, from, node, d, k);
    hide React, Answers, Opened, Drawn;
    if Heeded(me, node, d) {
      AnswerCounts(me, r, d, draw, k);
      CountsAppend(greeting, AnswerTo(me, r, d, draw), k);
    } else {
      assert greeting + [] == greeting;
    }
  }

  lemma ShortCounts(log: seq<Event>)
    requires |log| <= 2
    ensures forall k: nat :: Answers(log, k) == If(|log| > 0 && log[0].Sent? && Sides.Step(log[0].datagram) == k)
                                              + If(|log| > 1 && log[1].Sent? && Sides.Step(log[1].datagram) == k)
    ensures Opened(log) == If(|log| > 0 && log[0].Decrypted?) + If(|log| > 1 && log[1].Decrypted?)
    ensures |Drawn(log)| == If(|log| > 0 && log[0].Generated?) + If(|log| > 1 && log[1].Generated?)
  {
    if |log| == 2 {
      assert log[..1][..0] == [];
    }
  }

  /** A packet that somebody waits for is one that is processed and heeded. */
  lemma WaitedIsHeeded(me: Side, you: Side, d: Datagram, k: nat)
    requires Sound(you, me) && d in you.wire && me.who.id != you.who.id && k < 3
    ensures Admitted(me.who, me.record, d) && Heeded(me.who, me.record, d) && Sides.Step(d) == k
       <==> Sides.Step(d) == k && (k == 0 || Stage(me.record) == k)
  {
    OnTheWireIsGenuine(me, you, d);
  }

  /** `me'` counts what `me` does, and what the datagram waited for adds. */
  ghost predicate Counted(me: Side, me': Side, k: nat, asked: bool, drawn: bool, unwrapped: bool) {
    && (k == 0 ==> Answers(me'.log, 0) - If(me'.record.Some?) == Answers(me.log, 0) - If(me.record.Some?))
    && (k > 0 ==> Answers(me'.log, k) == Answers(me.log, k) + If(asked))
    && |Drawn(me'.log)| == |Drawn(me.log)| + If(drawn)
    && Opened(me'.log) == Opened(me.log) + If(unwrapped)
  }

  /** One move, counted. */
  lemma MoveCounts(net: Network, who: seq<Identity>, w: World, m: Move, a: Addr, b: Addr, k: nat)
    requires Good(Replaying, who, w) && Enabled(net, w, m) && Two(who, a, b) && k < 4
    ensures a < |Apply(net, w, m).procs|
    ensures Counted(View(w, a, b), View(Apply(net, w, m), a, b), k,
                    k > 0 && Waited(w, m, a, b, k - 1), Waited(w, m, a, b, 1), Waited(w, m, a, b, 2))
  {
    hide Apply, Counted, Hear, Sound;
    MoveEffect(net, who, w, m, a, b);
    var me, you := View(w, a, b), View(w, b, a);
    if (m.Deliver? || m.Replay?) && m.link == Link(b, a) {
      assert PairFits(Replaying, w, a, b);
      HearCounts(me, you, w.wires[m.link][m.i], m.draw, k);
    } else {
      SameCounts(me, View(Apply(net, w, m), a, b), k);
    }
  }

  lemma SameCounts(me: Side, me': Side, k: nat)
    requires me'.log == me.log && me'.record == me.record
    ensures Counted(me, me', k, false, false, false)
  {
  }

  lemma HearCounts(me: Side, you: Side, d: Datagram, draw: nat, k: nat)
    requires Sound(you, me) && d in you.wire && me.who.id != you.who.id && k < 4
    ensures var stage, step := Stage(me.record), Sides.Step(d);
      Counted(me, Hear(me, you.at, d, draw), k, step + 1 == k && (step == 0 || stage == step),
              step == 1 && stage == 1, step == 2 && stage == 2)
  {
    hide React, Sound, Answers, Opened, Drawn;
    CountsAppend(me.log, React(me.who, you.at, me.record, d, draw).events, k);
    EventCounts(me, you, d, draw, k);
  }

  lemma EventCounts(me: Side, you: Side, d: Datagram, draw: nat, k: nat)
    requires Sound(you, me) && d in you.wire && me.who.id != you.who.id && k < 4
    ensures var r, stage, step := React(me.who, you.at, me.record, d, draw), Stage(me.record), Sides.Step(d);
      && (k == 0 ==> Answers(r.events, 0) == If(r.node.Some?) - If(me.record.Some?))
      && (k > 0 ==> Answers(r.events, k) == If(step + 1 == k && (step == 0 || stage == step)))
      && |Drawn(r.events)| == If(step == 1 && stage == 1)
      && Opened(r.events) == If(step == 2 && stage == 2)
  {
    var step := Sides.Step(d);
    if step < 3 {
      WaitedIsHeeded(me, you, d, step);
    }
    TurnKnows(me.who, you.at, me.record, d, draw);
    hide React, Heeded, Sound, Answers, Opened, Drawn, Admitted;
    if Admitted(me.who, me.record, d) {
      TurnCounts(me.who, you.at, me.record, d, draw, k);
    } else {
      NoCounts(k);
    }
  }

  lemma TurnKnows(me: Identity, from: Addr, node: Option<Record>, d: Datagram, draw: nat)
    ensures Admitted(me, node, d) ==> React(me, from, node, d, draw).node.Some?
    ensures !Admitted(me, node, d) ==> React(me, from, node, d, draw) == Reaction(node, [])
  {
    TurnExactly(me, from, node, d, draw);
  }

  lemma NoCounts(k: nat)
    ensures Answers([], k) == 0 && Opened([]) == 0 && |Drawn([])| == 0
  {
  }

  lemma {:induction false} RunCounts(net: Network, who: seq<Identity>, w: World, steps: seq<Move>, w': World,
                                     a: Addr, b: Addr, k: nat)
    requires Good(Replaying, who, w) && Run(net, w, steps, w') && Two(who, a, b) && k < 4
    ensures var log, log' := Log(w, Link(a, b)), Log(w', Link(a, b));
      && (k == 0 ==> Answers(log', 0) - If(Rec(w', a, b).Some?) == Answers(log, 0) - If(Rec(w, a, b).Some?))
      && (k > 0 ==> Answers(log', k) == Answers(log, k) + WaitedFor(net, w, steps, a, b, k - 1))
      && |Drawn(log')| == |Drawn(log)| + WaitedFor(net, w, steps, a, b, 1)
      && Opened(log') == Opened(log) + WaitedFor(net, w, steps, a, b, 2)
    decreases |steps|
  {
    hide Apply, Good, Answers, Opened, Drawn, Waited, Rec;
    if steps != [] {
      MoveCounts(net, who, w, steps[0], a, b, k);
      CountedMeans(w, Apply(net, w, steps[0]), steps[0], a, b, k);
      GoodStaysGood(net, who, w, steps[0]);
      RunCounts(net, who, Apply(net, w, steps[0]), steps[1..], w', a, b, k);
    }
  }

  lemma CountedMeans(w: World, w': World, m: Move, a: Addr, b: Addr, k: nat)
    requires a < |w.procs| && a < |w'.procs|
    requires Counted(View(w, a, b), View(w', a, b), k,
                     k > 0 && Waited(w, m, a, b, k - 1), Waited(w, m, a, b, 1), Waited(w, m, a, b, 2))
    ensures var log, log' := Log(w, Link(a, b)), Log(w', Link(a, b));
      && (k == 0 ==> Answers(log', 0) - If(Rec(w', a, b).Some?) == Answers(log, 0) - If(Rec(w, a, b).Some?))
      && (k > 0 ==> Answers(log', k) == Answers(log, k) + If(Waited(w, m, a, b, k - 1)))
      && |Drawn(log')| == |Drawn(log)| + If(Waited(w, m, a, b, 1))
      && Opened(log') == Opened(log) + If(Waited(w, m, a, b, 2))
  {
  }

  /** No packet is answered twice, none that should be is not answered, and nothing is sent unasked.
      In every run of every network: a peer is asked for its key once, when it is first heard; each
      request handed over is answered with a reply, whatever the state; each reply that was waited
      for draws one key and is answered with it; each key that was waited for is opened and answered
      with a Ready. */
  lemma EveryAnswerIsDue(net: Network, who: seq<Identity>, steps: seq<Move>, w: World, a: Addr, b: Addr)
    requires Reached(net, who, steps, w) && Two(who, a, b)
    ensures var log := Log(w, Link(a, b));
      && Answers(log, 0) == (if Rec(w, a, b).Some? then 1 else 0)
      && Answers(log, 1) == WaitedFor(net, Init(who), steps, a, b, 0)
      && Answers(log, 2) == |Drawn(log)| == WaitedFor(net, Init(who), steps, a, b, 1)
      && Answers(log, 3) == Opened(log) == WaitedFor(net, Init(who), steps, a, b, 2)
  {
    hide Run, WaitedFor;
    InitIsGood(Replaying, who);
    RunCounts(net, who, Init(who), steps, w, a, b, 0);
    RunCounts(net, who, Init(who), steps, w, a, b, 1);
    RunCounts(net, who, Init(who), steps, w, a, b, 2);
    RunCounts(net, who, Init(who), steps, w, a, b, 3);
  }

  // ---------------------------------------------------------------------------------------------
  // What the answers carry

  /** A reply carries my key. A key drawn is sent at once, wrapped for the peer, and no other key
      ever is; a key opened is answered at once with a Ready, and nothing else is. */
  ghost predicate Carrying(me: Identity, you: Identity, at: Addr, log: seq<Event>) {
    forall i :: 0 <= i < |log| ==> CarriesAt(me, you, at, log, i)
  }

  predicate CarriesAt(me: Identity, you: Identity, at: Addr, log: seq<Event>, i: nat)
    requires i < |log|
  {
    match log[i]
    case Generated(k) =>
      i + 1 < |log| && log[i + 1] == Sent(Peer(at), Clear(Packet(0, me.id, you.id, EncryptionContext(you.rsa, k))))
    case Decrypted(_) =>
      i + 1 < |log| && log[i + 1].Sent? && log[i + 1].datagram.Sealed?
      && log[i + 1] == Sent(Peer(at), Sealed(log[i + 1].datagram.key, Packet(0, me.id, you.id, Ready)))
    case Sent(dest, d) =>
      && dest == Peer(at) && !d.Short? && d.packet.fromId == me.id && d.packet.toId == you.id && d.packet.major == 0
      && match d.packet.body
         case PublicKeyRequest => d.Clear?
         case PublicKeyReply(key) => d.Clear? && key == me.rsa
         case EncryptionContext(rsa, k) => d.Clear? && rsa == you.rsa && 0 < i && log[i - 1] == Generated(k)
         case Ready => d.Sealed? && 0 < i && log[i - 1].Decrypted?
         case _ => false
  }

  lemma CarryingAppend(me: Identity, you: Identity, at: Addr, a: seq<Event>, b: seq<Event>)
    requires Carrying(me, you, at, a) && Carrying(me, you, at, b)
    ensures Carrying(me, you, at, a + b)
  {
    var log := a + b;
    forall i | 0 <= i < |log| ensures CarriesAt(me, you, at, log, i) {
      if i < |a| {
        assert CarriesAt(me, you, at, a, i);
      } else {
        assert CarriesAt(me, you, at, b, i - |a|);
      }
    }
  }

  lemma HearKeepsCarrying(me: Side, you: Side, d: Datagram, draw: nat)
    requires MutuallySound(me, you) && d in you.wire && me.who.id != you.who.id
    requires Carrying(me.who, you.who, you.at, me.log)
    ensures Carrying(me.who, you.who, you.at, Hear(me, you.at, d, draw).log)
  {
    OnTheWireIsGenuine(me, you, d);
    TurnExactly(me.who, you.at, me.record, d, draw);
    var events := React(me.who, you.at, me.record, d, draw).events;
    hide React, Sound;
    CarryingAppend(me.who, you.who, you.at, me.log, events);
  }

  lemma {:induction false} RunKeepsCarrying(net: Network, who: seq<Identity>, w: World, steps: seq<Move>, w': World,
                                            a: Addr, b: Addr)
    requires Good(Replaying, who, w) && Run(net, w, steps, w') && Two(who, a, b)
    requires Carrying(who[a], who[b], b, Log(w, Link(a, b)))
    ensures Carrying(who[a], who[b], b, Log(w', Link(a, b)))
    decreases |steps|
  {
    hide Apply, Good, Carrying;
    if steps != [] {
      MoveKeepsCarrying(net, who, w, steps[0], a, b);
      GoodStaysGood(net, who, w, steps[0]);
      RunKeepsCarrying(net, who, Apply(net, w, steps[0]), steps[1..], w', a, b);
    }
  }

  lemma MoveKeepsCarrying(net: Network, who: seq<Identity>, w: World, m: Move, a: Addr, b: Addr)
    requires Good(Replaying, who, w) && Enabled(net, w, m) && Two(who, a, b)
    requires Carrying(who[a], who[b], b, Log(w, Link(a, b)))
    ensures Carrying(who[a], who[b], b, Log(Apply(net, w, m), Link(a, b)))
  {
    hide Apply, React, Carrying, Sound;
    MoveEffect(net, who, w, m, a, b);
    if (m.Deliver? || m.Replay?) && m.link == Link(b, a) {
      assert PairFits(Replaying, w, a, b);
      HearKeepsCarrying(View(w, a, b), View(w, b, a), w.wires[m.link][m.i], m.draw);
    }
  }

  /** In every run of every network, each answer carries what it should: my own key, or the key just
      drawn, wrapped for the peer; and a Ready follows at once on the key it acknowledges. */
  lemma AnswersCarryTheKeys(net: Network, who: seq<Identity>, steps: seq<Move>, w: World, a: Addr, b: Addr)
    requires Reached(net, who, steps, w) && Two(who, a, b)
    ensures Carrying(who[a], who[b], b, Log(w, Link(a, b)))
  {
    hide Run;
    InitIsGood(Replaying, who);
    RunKeepsCarrying(net, who, Init(who), steps, w, a, b);
  }
}
