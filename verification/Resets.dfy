/** What duplication breaks, and when: a record goes back exactly when a request is handed to it too
    late, and as long as that never happens the keys agree, whatever else is replayed. */
module Resets {
  import opened Options
  import opened PeerProtocol
  import opened Sides
  import opened World
  import opened Runs
  import opened HandshakeTheorems

  /** The move hands `a` a PublicKeyRequest of `b` while `a`'s record of `b` is beyond KeyExchange.
      Nothing but the state before the move decides it. */
  predicate ResetBy(w: World, m: Move, a: Addr, b: Addr) {
    && (m.Deliver? || m.Replay?) && m.link == Link(b, a)
    && m.link in w.wires && m.i < |w.wires[m.link]|
    && (var d := w.wires[m.link][m.i]; !d.Short? && d.packet.body.PublicKeyRequest?)
    && Stage(Rec(w, a, b)) > Rank(KeyExchange)
  }

  /** No move of a run does so, to either of the two. */
  predicate NeverReset(net: Network, w: World, steps: seq<Move>, a: Addr, b: Addr)
    decreases |steps|
  {
    steps != [] && Enabled(net, w, steps[0]) ==>
      && !ResetBy(w, steps[0], a, b) && !ResetBy(w, steps[0], b, a)
      && NeverReset(net, Apply(net, w, steps[0]), steps[1..], a, b)
  }

  /** At every state of a run the keys of the two agree, and no move takes a record of either back
      or changes a session key it holds. */
  ghost predicate Steady(net: Network, w: World, steps: seq<Move>, a: Addr, b: Addr)
    decreases |steps|
  {
    && Agreed(w, a, b) && Agreed(w, b, a)
    && (steps != [] && Enabled(net, w, steps[0]) ==>
          var w' := Apply(net, w, steps[0]);
          && NoFurtherThan(Rec(w, a, b), Rec(w', a, b))
          && NoFurtherThan(Rec(w, b, a), Rec(w', b, a))
          && Steady(net, w', steps[1..], a, b))
  }

  // ---------------------------------------------------------------------------------------------
  // One turn

  /** What an event of the past says about the record as long as it has never gone back. */
  predicate Lasting(node: Option<Record>, e: Event) {
    match e
    case Generated(k) => Stage(node) >= Rank(Handshake) && node.value.tx == k
    case Sent(_, d) => d.Sealed? ==> Stage(node) >= Rank(CheckEncryption)
    case Decrypted(_) => true
  }

  /** The only key I ever drew is the one I hold, and I am still as far as my sends say. */
  ghost predicate Settled(me: Side) {
    forall e :: e in me.log ==> Lasting(me.record, e)
  }

  /** A turn on anything but a late request loses nothing, draws only where no key was held, and
      seals only at CheckEncryption. */
  lemma TurnIsLasting(me: Identity, from: Addr, node: Option<Record>, d: Datagram, draw: nat)
    requires Stage(node) > Rank(KeyExchange) ==> d.Short? || !d.packet.body.PublicKeyRequest?
    ensures var r := React(me, from, node, d, draw);
      && NoFurtherThan(node, r.node)
      && (forall e :: e in r.events ==> Lasting(r.node, e))
      && (forall e :: Lasting(node, e) ==> Lasting(r.node, e))
  {
  }

  lemma HearKeepsSettled(me: Side, you: Addr, d: Datagram, draw: nat)
    requires Settled(me)
    requires Stage(me.record) > Rank(KeyExchange) ==> d.Short? || !d.packet.body.PublicKeyRequest?
    ensures Settled(Hear(me, you, d, draw)) && NoFurtherThan(me.record, Hear(me, you, d, draw).record)
  {
    hide React;
    TurnIsLasting(me.who, you, me.record, d, draw);
  }

  // ---------------------------------------------------------------------------------------------
  // One move

  /** In every run, a move takes a record back if and only if it is a late request; no other packet
      and no loss ever does. */
  lemma RetreatsIff(net: Network, who: seq<Identity>, steps: seq<Move>, w: World, m: Move, a: Addr, b: Addr)
    requires Reached(net, who, steps, w) && Enabled(net, w, m) && Two(who, a, b)
    ensures Stage(Rec(Apply(net, w, m), a, b)) < Stage(Rec(w, a, b)) <==> ResetBy(w, m, a, b)
  {
    hide Run, Apply;
    ReachedIsGood(net, Replaying, who, steps, w);
    MoveRetreatsIff(net, who, w, m, a, b);
  }

  lemma MoveRetreatsIff(net: Network, who: seq<Identity>, w: World, m: Move, a: Addr, b: Addr)
    requires Good(Replaying, who, w) && Enabled(net, w, m) && Two(who, a, b)
    ensures Stage(Rec(Apply(net, w, m), a, b)) < Stage(Rec(w, a, b)) <==> ResetBy(w, m, a, b)
  {
    hide Apply, React, Receive;
    MoveEffect(net, who, w, m, a, b);
    assert PairFits(Replaying, w, a, b);
    if (m.Deliver? || m.Replay?) && m.link == Link(b, a) {
      var me, you, d := View(w, a, b), View(w, b, a), w.wires[m.link][m.i];
      OnTheWireIsGenuine(me, you, d);
      AcceptedIff(me.who, b, me.record, d);
      StageFallsIff(me.who, b, me.record, d, m.draw);
    }
  }

  lemma MoveKeepsSettled(net: Network, who: seq<Identity>, w: World, m: Move, a: Addr, b: Addr)
    requires Good(Replaying, who, w) && Enabled(net, w, m) && Two(who, a, b)
    requires Settled(View(w, a, b)) && !ResetBy(w, m, a, b)
    ensures |Apply(net, w, m).procs| == |who| && Settled(View(Apply(net, w, m), a, b))
    ensures NoFurtherThan(Rec(w, a, b), Rec(Apply(net, w, m), a, b))
  {
    hide Apply, React;
    var me := View(w, a, b);
    MoveEffect(net, who, w, m, a, b);
    if (m.Deliver? || m.Replay?) && m.link == Link(b, a) {
      HearKeepsSettled(me, b, w.wires[m.link][m.i], m.draw);
    }
  }

  // ---------------------------------------------------------------------------------------------
  // Whole runs

  lemma SettledAgrees(who: seq<Identity>, w: World, a: Addr, b: Addr)
    requires Good(Replaying, who, w) && Two(who, a, b)
    requires Settled(View(w, a, b)) && Settled(View(w, b, a))
    ensures Agreed(w, a, b)
  {
    var me, you := View(w, a, b), View(w, b, a);
    assert PairFits(Replaying, w, a, b);
    if Stage(me.record) >= 3 {
      assert Lasting(you.record, Generated(me.record.value.rx));
    }
    if Stage(me.record) == 4 {
      assert Lasting(you.record, Sent(Peer(a), Sealed(me.record.value.rx, Make(who[b].id, who[a].id, Ready))));
      assert Lasting(me.record, Generated(you.record.value.rx));
    }
  }

  lemma {:induction false} SteadyFromHere(net: Network, who: seq<Identity>, w: World, steps: seq<Move>, a: Addr,
                                          b: Addr)
    requires Good(Replaying, who, w) && Two(who, a, b)
    requires Settled(View(w, a, b)) && Settled(View(w, b, a))
    ensures Steady(net, w, steps, a, b) <==> NeverReset(net, w, steps, a, b)
    decreases |steps|
  {
    hide Apply, Good, Settled, ResetBy, Agreed;
    SettledAgrees(who, w, a, b);
    SettledAgrees(who, w, b, a);
    if steps != [] && Enabled(net, w, steps[0]) {
      var m := steps[0];
      MoveRetreatsIff(net, who, w, m, a, b);
      MoveRetreatsIff(net, who, w, m, b, a);
      if !ResetBy(w, m, a, b) && !ResetBy(w, m, b, a) {
        MoveKeepsSettled(net, who, w, m, a, b);
        MoveKeepsSettled(net, who, w, m, b, a);
        GoodStaysGood(net, who, w, m);
        SteadyFromHere(net, who, Apply(net, w, m), steps[1..], a, b);
      }
    }
  }

  /** Exactly when the promises of the handshake survive replay. In every run of every network: the
      keys of two processes agree at every state, and their records never go back, if and only if
      no move hands a PublicKeyRequest to a record beyond KeyExchange. */
  lemma SteadyIff(net: Network, who: seq<Identity>, steps: seq<Move>, w: World, a: Addr, b: Addr)
    requires Reached(net, who, steps, w) && Two(who, a, b)
    ensures Steady(net, Init(who), steps, a, b) <==> NeverReset(net, Init(who), steps, a, b)
    ensures NeverReset(net, Init(who), steps, a, b) ==> Agreed(w, a, b) && Agreed(w, b, a)
  {
    hide Run, Apply, Agreed;
    InitIsGood(Replaying, who);
    SteadyFromHere(net, who, Init(who), steps, a, b);
    if NeverReset(net, Init(who), steps, a, b) {
      SteadyToTheEnd(net, Init(who), steps, w, a, b);
    }
  }

  lemma {:induction false} SteadyToTheEnd(net: Network, w: World, steps: seq<Move>, w': World, a: Addr, b: Addr)
    requires Run(net, w, steps, w') && Steady(net, w, steps, a, b)
    ensures Agreed(w', a, b) && Agreed(w', b, a)
    decreases |steps|
  {
    hide Apply, Agreed;
    if steps != [] {
      SteadyToTheEnd(net, Apply(net, w, steps[0]), steps[1..], w', a, b);
    }
  }

  lemma {:induction false} NeverResetFromHere(net: Network, who: seq<Identity>, w: World, steps: seq<Move>, w': World,
                                              a: Addr, b: Addr)
    requires Good(Lossy, who, w) && Good(Replaying, who, w) && net != Replaying
    requires Run(net, w, steps, w') && Two(who, a, b)
    ensures NeverReset(net, w, steps, a, b)
    decreases |steps|
  {
    hide Apply, Good, ResetBy;
    if steps != [] {
      var m := steps[0];
      SameMove(net, w, m);
      MoveNeverRetreats(who, w, m, a, b);
      MoveNeverRetreats(who, w, m, b, a);
      MoveRetreatsIff(net, who, w, m, a, b);
      MoveRetreatsIff(net, who, w, m, b, a);
      MoveKeepsGood(Lossy, who, w, m);
      GoodStaysGood(net, who, w, m);
      NeverResetFromHere(net, who, Apply(net, w, m), steps[1..], w', a, b);
    }
  }

  /** Without duplication a request is never handed over late, so every such run is steady. */
  lemma LateRequestsAreReplays(net: Network, who: seq<Identity>, steps: seq<Move>, w: World, a: Addr, b: Addr)
    requires Reached(net, who, steps, w) && net != Replaying && Two(who, a, b)
    ensures NeverReset(net, Init(who), steps, a, b) && Steady(net, Init(who), steps, a, b)
  {
    InitIsGood(Lossy, who);
    InitIsGood(Replaying, who);
    NeverResetFromHere(net, who, Init(who), steps, w, a, b);
    SteadyIff(net, who, steps, w, a, b);
  }
}
