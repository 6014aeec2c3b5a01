/** What the handshake guarantees in whole runs of any number of processes. */
module HandshakeTheorems {
  import opened Options
  import opened PeerProtocol
  import opened Sides
  import opened World
  import opened Runs

  /** `w` is reached by `steps` from the start, in network `net`. */
  ghost predicate Reached(net: Network, who: seq<Identity>, steps: seq<Move>, w: World) {
    DistinctIds(who) && Run(net, Init(who), steps, w)
  }

  predicate Two(who: seq<Identity>, a: Addr, b: Addr) {
    a < |who| && b < |who| && a != b
  }

  /** `a`'s record of `b`. */
  function Rec(w: World, a: Addr, b: Addr): Option<Record> {
    if a < |w.procs| then Lookup(w.procs[a].records, b) else None
  }

  predicate Within(narrow: Network, wide: Network) {
    narrow == wide || narrow.Reliable? || wide.Replaying?
  }

  /** Each network allows everything the ones before it allow. */
  lemma {:induction false} RunWidens(narrow: Network, wide: Network, w: World, steps: seq<Move>, w': World)
    requires Within(narrow, wide) && Run(narrow, w, steps, w')
    ensures Run(wide, w, steps, w')
    decreases |steps|
  {
    if steps != [] {
      assert Apply(wide, w, steps[0]) == Apply(narrow, w, steps[0]);
      RunWidens(narrow, wide, Apply(narrow, w, steps[0]), steps[1..], w');
    }
  }

  lemma SameMove(net: Network, w: World, m: Move)
    requires Enabled(net, w, m) && net != Replaying
    ensures Enabled(Lossy, w, m) && Apply(Lossy, w, m) == Apply(net, w, m)
  {
  }

  lemma ReachedIsGood(net: Network, wide: Network, who: seq<Identity>, steps: seq<Move>, w: World)
    requires Reached(net, who, steps, w) && Within(net, wide)
    ensures Good(wide, who, w)
  {
    RunWidens(net, wide, Init(who), steps, w);
    InitIsGood(wide, who);
    RunKeepsGood(wide, who, Init(who), steps, w);
  }

  lemma PairIs(net: Network, wide: Network, who: seq<Identity>, steps: seq<Move>, w: World, a: Addr, b: Addr)
    requires Reached(net, who, steps, w) && Within(net, wide) && Two(who, a, b)
    ensures |w.procs| == |who| && w.procs[a].who == who[a] && w.procs[b].who == who[b]
    ensures Fit(wide, View(w, a, b), View(w, b, a))
  {
    ReachedIsGood(net, wide, who, steps, w);
    assert PairFits(wide, w, a, b);
  }

  lemma PairIsAligned(net: Network, who: seq<Identity>, steps: seq<Move>, w: World, a: Addr, b: Addr)
    requires Reached(net, who, steps, w) && net != Replaying && Two(who, a, b)
    ensures |w.procs| == |who| && Aligned(View(w, a, b), View(w, b, a)) && Aligned(View(w, b, a), View(w, a, b))
  {
    PairIs(net, Lossy, who, steps, w, a, b);
  }

  /** Safety in any network, even one that replays: from CheckEncryption on, a record holds a key
      that the peer really drew for this process; and a Connected record means the peer did send
      Ready under exactly that key, immediately after decrypting a key drawn by this process. */
  lemma SafeUnderReplay(net: Network, who: seq<Identity>, steps: seq<Move>, w: World, a: Addr, b: Addr)
    requires Reached(net, who, steps, w) && Two(who, a, b)
    ensures var r := Rec(w, a, b);
      Stage(r) >= Rank(CheckEncryption) ==>
        Generated(r.value.rx) in Log(w, Link(b, a)) && Decrypted(r.value.rx) in Log(w, Link(a, b))
    ensures var r, theirs := Rec(w, a, b), Log(w, Link(b, a));
      r.Some? && r.value.state == Connected ==>
        exists i :: 0 < i < |theirs|
          && theirs[i] == Sent(Peer(a), Sealed(r.value.rx, Make(who[b].id, who[a].id, Ready)))
          && theirs[i - 1].Decrypted? && Generated(theirs[i - 1].key) in Log(w, Link(a, b))
  {
    PairIs(net, Replaying, who, steps, w, a, b);
    var me, you := View(w, a, b), View(w, b, a);
    if Stage(me.record) == 4 {
      var ready := Sealed(me.record.value.rx, Make(who[b].id, who[a].id, Ready));
      var i :| 0 <= i < |you.log| && you.log[i] == Sent(Peer(a), ready);
      assert Honest(you, me, i) && Honest(you, me, i - 1);
    }
  }

  /** From CheckEncryption on, `a` reads with the key `b` writes with; once `a` is Connected, `b` has
      come at least as far as CheckEncryption, and the keys agree both ways. */
  predicate Agreed(w: World, a: Addr, b: Addr) {
    var r, q := Rec(w, a, b), Rec(w, b, a);
    && (Stage(r) >= Rank(CheckEncryption) ==> q.Some? && r.value.rx == q.value.tx)
    && (Stage(r) == Rank(Connected) ==>
          Stage(q) >= Rank(CheckEncryption) && r.value.rx == q.value.tx && q.value.rx == r.value.tx)
  }

  /** Key agreement when nothing is duplicated. */
  lemma KeyAgreement(net: Network, who: seq<Identity>, steps: seq<Move>, w: World, a: Addr, b: Addr)
    requires Reached(net, who, steps, w) && net != Replaying && Two(who, a, b)
    ensures Agreed(w, a, b)
  {
    PairIsAligned(net, who, steps, w, a, b);
  }

  /** The handshake as a counter machine: what a process has ever sent a peer is a prefix of the
      four packets of the script, its length fixed by how far its record has come; and it has
      drawn a key for that peer at most once, the one it still sends under. */
  lemma SentIsPrefixOfScript(net: Network, who: seq<Identity>, steps: seq<Move>, w: World, a: Addr, b: Addr)
    requires Reached(net, who, steps, w) && net != Replaying && Two(who, a, b)
    ensures |w.procs| == |who|
    ensures var r, sent := Rec(w, a, b), Sends(Log(w, Link(a, b)));
      && sent <= Script(View(w, a, b), View(w, b, a))
      && |sent| == (if r.Some? then 1 else 0) + Min(3, Stage(r))
      && Stage(Rec(w, b, a)) <= |sent| <= 4
    ensures var r, keys := Rec(w, a, b), Drawn(Log(w, Link(a, b)));
      keys == if Stage(r) >= Rank(Handshake) then [r.value.tx] else []
  {
    PairIs(net, Lossy, who, steps, w, a, b);
  }

  // ---------------------------------------------------------------------------------------------
  // Nothing goes backwards

  ghost predicate NoFurtherThan(p: Option<Record>, q: Option<Record>) {
    && Stage(p) <= Stage(q)
    && (p.Some? ==> q.Some? && q.value.addr == p.value.addr && q.value.id == p.value.id)
    && (Stage(p) >= 2 ==> q.value.tx == p.value.tx)
    && (Stage(p) >= 3 ==> q.value.rx == p.value.rx)
  }

  lemma MoveNeverRetreats(who: seq<Identity>, w: World, m: Move, a: Addr, b: Addr)
    requires Good(Lossy, who, w) && Enabled(Lossy, w, m) && Two(who, a, b)
    ensures NoFurtherThan(Rec(w, a, b), Rec(Apply(Lossy, w, m), a, b))
  {
    hide Apply, React, Carries, Sends, Drawn;
    MoveEffect(Lossy, who, w, m, a, b);
    assert PairFits(Lossy, w, a, b);
    if m.Deliver? && m.link == Link(b, a) {
      DeliverKeepsOrderly(View(w, a, b), View(w, b, a), m.i, m.draw);
    }
  }

  /** In every run without duplication, although a PublicKeyRequest resets a record from any
      state, no record ever goes back, and session keys, once there, never change. */
  lemma {:induction false} NeverRetreats(who: seq<Identity>, w: World, steps: seq<Move>, w': World, a: Addr, b: Addr)
    requires Good(Lossy, who, w) && Run(Lossy, w, steps, w') && Two(who, a, b)
    ensures NoFurtherThan(Rec(w, a, b), Rec(w', a, b))
    decreases |steps|
  {
    if steps != [] {
      MoveNeverRetreats(who, w, steps[0], a, b);
      MoveKeepsGood(Lossy, who, w, steps[0]);
      NeverRetreats(who, Apply(Lossy, w, steps[0]), steps[1..], w', a, b);
    }
  }

  lemma StatesAreMonotone(net: Network, who: seq<Identity>, early: seq<Move>, w: World, later: seq<Move>, w': World,
                          a: Addr, b: Addr)
    requires Reached(net, who, early, w) && Run(net, w, later, w') && net != Replaying && Two(who, a, b)
    ensures NoFurtherThan(Rec(w, a, b), Rec(w', a, b))
  {
    ReachedIsGood(net, Lossy, who, early, w);
    RunWidens(net, Lossy, w, later, w');
    NeverRetreats(who, w, later, w', a, b);
  }

  // ---------------------------------------------------------------------------------------------
  // A lost packet is lost for good

  lemma MoveKeepsMissing(who: seq<Identity>, w: World, m: Move, a: Addr, b: Addr, k: nat)
    requires Good(Lossy, who, w) && Enabled(Lossy, w, m) && Two(who, a, b) && Missing(View(w, a, b), View(w, b, a), k)
    ensures Missing(Moved(w, m, a, b), Moved(w, m, b, a), k)
  {
    var me, you := View(w, a, b), View(w, b, a);
    hide React, Orderly, Missing;
    assert PairFits(Lossy, w, a, b);
    match m
    case Broadcast(p) =>
      if p == a { SayKeepsMissing(me, you, k); }
      if p == b { YourWireKeepsMissing(me, you, you.wire + [Announcement(you.who.id)], k); }
    case Lose(l, i) =>
      if l == Link(a, b) { DropKeepsMissing(me, you, i, k); }
      if l == Link(b, a) { YourWireKeepsMissing(me, you, Without(you.wire, i), k); }
    case Deliver(l, i, draw) =>
      if l == Link(b, a) { HearKeepsMissing(me, you, i, draw, k); }
      if l == Link(a, b) { TakeKeepsMissing(you, me, i, draw, k); }
  }

  /** There are no retransmissions: once a packet of the handshake is missing, the peer's record
      never gets past its step, in any continuation. */
  lemma {:induction false} LossIsFinal(who: seq<Identity>, w: World, steps: seq<Move>, w': World, a: Addr, b: Addr,
                                       k: nat)
    requires Good(Lossy, who, w) && Run(Lossy, w, steps, w') && Two(who, a, b)
    requires Missing(View(w, a, b), View(w, b, a), k)
    ensures |w'.procs| == |who|
    ensures Missing(View(w', a, b), View(w', b, a), k) && Stage(Rec(w', b, a)) <= k < Rank(Connected)
    decreases |steps|
  {
    hide Apply, Orderly;
    assert PairFits(Lossy, w, a, b);
    if steps != [] {
      MoveKeepsMissing(who, w, steps[0], a, b, k);
      MoveEffect(Lossy, who, w, steps[0], a, b);
      MoveEffect(Lossy, who, w, steps[0], b, a);
      MoveKeepsGood(Lossy, who, w, steps[0]);
      LossIsFinal(who, Apply(Lossy, w, steps[0]), steps[1..], w', a, b, k);
    }
  }

  /** No packet of the handshake is travelling between the two. */
  predicate Quiet(w: World, a: Addr, b: Addr) {
    Pending(Wire(w, Link(a, b))) == [] && Pending(Wire(w, Link(b, a))) == []
  }

  predicate BothConnected(w: World, a: Addr, b: Addr) {
    Stage(Rec(w, a, b)) == Rank(Connected) && Stage(Rec(w, b, a)) == Rank(Connected)
  }

  // ---------------------------------------------------------------------------------------------
  // The reliable network

  /** No deadlock: once either process has heard anything from the other, the only states with no
      handshake packet travelling between them have both Connected, with matching keys. */
  lemma ReliableQuietIsConnected(who: seq<Identity>, steps: seq<Move>, w: World, a: Addr, b: Addr)
    requires Reached(Reliable, who, steps, w) && Two(who, a, b)
    requires Quiet(w, a, b) && (Rec(w, a, b).Some? || Rec(w, b, a).Some?)
    ensures BothConnected(w, a, b)
    ensures Rec(w, a, b).value.rx == Rec(w, b, a).value.tx && Rec(w, b, a).value.rx == Rec(w, a, b).value.tx
  {
    hide Run, Orderly;
    PairIs(Reliable, Reliable, who, steps, w, a, b);
    QuietMeansConnected(View(w, a, b), View(w, b, a));
  }

  /** Nothing is dropped on the way: a handshake packet that is handed over is the next one the
      receiver waits for, is readable, and moves its record on by exactly one. */
  lemma ReliableDropsNothing(who: seq<Identity>, steps: seq<Move>, w: World, m: Move)
    requires Reached(Reliable, who, steps, w) && Enabled(Reliable, w, m) && m.Deliver?
    requires Sides.Step(w.wires[m.link][0]) < 4
    ensures var l, d := m.link, w.wires[m.link][0];
      && Two(who, l.src, l.dst)
      && Receive(who[l.dst], l.src, Rec(w, l.dst, l.src), d).Accepted?
      && Stage(Rec(w, l.dst, l.src)) == Sides.Step(d)
      && Stage(Rec(Apply(Reliable, w, m), l.dst, l.src)) == Sides.Step(d) + 1
  {
    var l, d := m.link, w.wires[m.link][0];
    ReachedIsGood(Reliable, Reliable, who, steps, w);
    assert l in Links(|who|);
    if l.src == l.dst {
      OnSelfWire(who, w, l, 0);
    }
    var me, you := View(w, l.dst, l.src), View(w, l.src, l.dst);
    assert PairFits(Reliable, w, l.dst, l.src);
    MoveEffect(Reliable, who, w, m, l.dst, l.src);
    HeadIsDue(me, you);
    DeliverKeepsOrderly(me, you, 0, m.draw);
  }

  /** How many handshake packets from `a` to `b` are handed over along a run. */
  function HandedOver(net: Network, w: World, steps: seq<Move>, l: Link): nat
    decreases |steps|
  {
    if steps == [] || !Enabled(net, w, steps[0]) then 0 else
      var m := steps[0];
      (if m.Deliver? && m.link == l && Sides.Step(w.wires[l][m.i]) < 4 then 1 else 0)
      + HandedOver(net, Apply(net, w, m), steps[1..], l)
  }

  /** One move hands over at most one handshake packet, and moves the receiver on by as much. */
  lemma MoveCounts(who: seq<Identity>, w: World, m: Move, a: Addr, b: Addr)
    requires Good(Reliable, who, w) && Enabled(Reliable, w, m) && Two(who, a, b)
    ensures Stage(Rec(Apply(Reliable, w, m), b, a))
         == Stage(Rec(w, b, a)) + HandedOver(Reliable, w, [m], Link(a, b))
  {
    hide Apply, React, Orderly;
    var me, you := View(w, b, a), View(w, a, b);
    MoveEffect(Reliable, who, w, m, b, a);
    assert HandedOver(Reliable, Apply(Reliable, w, m), [m][1..], Link(a, b)) == 0;
    if m.Deliver? && m.link == Link(a, b) {
      assert PairFits(Reliable, w, b, a);
      HeadCounts(me, you, m.draw);
    }
  }

  /** A receiver's stage is the number of handshake packets it has been handed by that sender. */
  lemma {:induction false} StageCountsPackets(who: seq<Identity>, w: World, steps: seq<Move>, w': World, a: Addr,
                                              b: Addr)
    requires Good(Reliable, who, w) && Run(Reliable, w, steps, w') && Two(who, a, b)
    ensures Stage(Rec(w', b, a)) == Stage(Rec(w, b, a)) + HandedOver(Reliable, w, steps, Link(a, b))
    decreases |steps|
  {
    hide Apply, Good;
    if steps != [] {
      var m := steps[0];
      MoveCounts(who, w, m, a, b);
      MoveKeepsGood(Reliable, who, w, m);
      StageCountsPackets(who, Apply(Reliable, w, m), steps[1..], w', a, b);
    }
  }

  /** The reliable handshake is two counters: each stage is the number of packets handed over, and
      each process has sent one packet for knowing its peer and one for each of the first three. */
  lemma ReliableIsCounting(who: seq<Identity>, steps: seq<Move>, w: World, a: Addr, b: Addr)
    requires Reached(Reliable, who, steps, w) && Two(who, a, b)
    ensures Stage(Rec(w, b, a)) == HandedOver(Reliable, Init(who), steps, Link(a, b))
    ensures |Sends(Log(w, Link(a, b)))|
         == (if Rec(w, a, b).Some? then 1 else 0) + Min(3, HandedOver(Reliable, Init(who), steps, Link(b, a)))
  {
    InitIsGood(Reliable, who);
    StageCountsPackets(who, Init(who), steps, w, a, b);
    StageCountsPackets(who, Init(who), steps, w, b, a);
    SentIsPrefixOfScript(Reliable, who, steps, w, a, b);
  }

  /** What a pair has left to do: packets still to send, weighed against datagrams to deliver. */
  function Effort(me: Side, you: Side): nat {
    3 * (4 - SentCount(me)) + |me.wire| + 3 * (4 - SentCount(you)) + |you.wire|
  }

  lemma HearingIsProgress(me: Side, you: Side, draw: nat)
    requires MutuallyInLine(me, you) && me.who.id != you.who.id && you.wire != []
    ensures Effort(Hear(me, you.at, you.wire[0], draw), Drop(you, 0)) < Effort(me, you)
    ensures me.record.Some? || you.record.Some? ==>
      Hear(me, you.at, you.wire[0], draw).record.Some? || you.record.Some?
  {
    var d := you.wire[0];
    var events := React(me.who, you.at, me.record, d, draw).events;
    HearAdvances(me, you, d, draw);
    AdvanceTally(me, Hear(me, you.at, d, draw), you, d, events);
  }

  lemma AdvanceTally(me: Side, me': Side, you: Side, d: Datagram, events: seq<Event>)
    requires me'.who == me.who && Advances(me, me', you, d, events)
    requires IsChatter(you, d) || OnScript(you, me, d)
    ensures SentCount(me') == SentCount(me) + |Sends(events)|
    ensures me.record.Some? ==> me'.record.Some?
  {
    AdvanceSends(me, me', you, d, events);
  }

  /** The next handshake packet of a pair that has not finished can always be brought forward. */
  lemma SomethingToHear(me: Side, you: Side)
    requires MutuallyInLine(me, you) && (me.record.Some? || you.record.Some?)
    requires Stage(me.record) < 4 || Stage(you.record) < 4
    ensures me.wire != [] || you.wire != []
  {
    if me.wire == [] && you.wire == [] {
      QuietMeansConnected(me, you);
    }
  }

  lemma NextDelivery(who: seq<Identity>, w: World, a: Addr, b: Addr, draw: nat) returns (m: Move)
    requires Good(Reliable, who, w) && Two(who, a, b) && !BothConnected(w, a, b)
    requires Rec(w, a, b).Some? || Rec(w, b, a).Some?
    ensures Enabled(Reliable, w, m) && m.Deliver? && m.link in {Link(a, b), Link(b, a)}
    ensures var w' := Apply(Reliable, w, m);
      && Effort(View(w', a, b), View(w', b, a)) < Effort(View(w, a, b), View(w, b, a))
      && (Rec(w', a, b).Some? || Rec(w', b, a).Some?)
  {
    hide React, Apply, Orderly;
    assert PairFits(Reliable, w, a, b) && PairFits(Reliable, w, b, a);
    var x, y := View(w, a, b), View(w, b, a);
    SomethingToHear(x, y);
    m := if x.wire != [] then Deliver(Link(a, b), 0, draw) else Deliver(Link(b, a), 0, draw);
    MoveEffect(Reliable, who, w, m, a, b);
    MoveEffect(Reliable, who, w, m, b, a);
    if x.wire != [] {
      HearingIsProgress(y, x, draw);
    } else {
      HearingIsProgress(x, y, draw);
    }
  }

  /** No live-lock either: from every state the reliable network can reach in which one of the two
      has heard the other, delivering what is on their wires, in order, connects them. */
  lemma {:induction false} ReliableCanFinish(who: seq<Identity>, w: World, a: Addr, b: Addr, draw: nat)
    returns (steps: seq<Move>, w': World)
    requires Good(Reliable, who, w) && Two(who, a, b)
    requires Rec(w, a, b).Some? || Rec(w, b, a).Some?
    ensures Run(Reliable, w, steps, w') && BothConnected(w', a, b)
    ensures forall i :: 0 <= i < |steps| ==> steps[i].Deliver? && steps[i].link in {Link(a, b), Link(b, a)}
    decreases Effort(View(w, a, b), View(w, b, a))
  {
    hide Apply, Good;
    if BothConnected(w, a, b) {
      steps, w' := [], w;
    } else {
      var m := NextDelivery(who, w, a, b, draw);
      MoveKeepsGood(Reliable, who, w, m);
      steps, w' := ReliableCanFinish(who, Apply(Reliable, w, m), a, b, draw);
      steps := [m] + steps;
    }
  }

  // ---------------------------------------------------------------------------------------------
  // Any network

  /** Isolation: hearing from `l.src` may change only the record of `l.src` at `l.dst`; every
      record is filed under its owner's own address; nobody has a record of itself, although it
      hears its own announcements. */
  lemma PeersAreIsolated(net: Network, who: seq<Identity>, steps: seq<Move>, w: World, m: Move, x: Addr, y: Addr)
    requires Reached(net, who, steps, w) && Enabled(net, w, m) && x < |who|
    ensures Rec(w, x, y).Some? ==> y < |who| && y != x && Rec(w, x, y).value.addr == y
    ensures !(m.Deliver? || m.Replay?) || m.link != Link(y, x) || x == y ==>
      Rec(Apply(net, w, m), x, y) == Rec(w, x, y)
  {
    hide Apply, React, Run;
    ReachedIsGood(net, Replaying, who, steps, w);
    MoveKeepsShape(net, who, w, m);
    if y < |who| && y != x {
      MoveEffect(net, who, w, m, x, y);
    }
  }

  /** The only packet ever sent sealed is Ready, and Ready is never sent in clear: of everything
      any process sends its peers in any run. */
  lemma ReadyAloneIsSealed(net: Network, who: seq<Identity>, steps: seq<Move>, w: World, a: Addr, b: Addr, e: Event)
    requires Reached(net, who, steps, w) && Two(who, a, b) && e in Log(w, Link(a, b)) && e.Sent?
    ensures e.dest == Peer(b) && !e.datagram.Short?
    ensures e.datagram.Sealed? <==> e.datagram.packet.body.Ready?
    ensures e.datagram.packet == Make(who[a].id, who[b].id, e.datagram.packet.body)
  {
    PairIs(net, Replaying, who, steps, w, a, b);
    var me := View(w, a, b);
    var i :| 0 <= i < |me.log| && me.log[i] == e;
    assert Honest(me, View(w, b, a), i);
  }
}
