/** What losing and reordering cost: every handshake packet is taken in, still travels, or was
    wasted, and two processes finish exactly if the network wasted nothing of theirs. */
module Losses {
  import opened Options
  import opened PeerProtocol
  import opened Sides
  import opened World
  import opened Runs
  import opened HandshakeTheorems
  import opened Accounting
  import opened Scenes

  /** The move loses a handshake packet on link `l`, or hands one over out of turn: at a record
      that is not at the packet's own step. */
  predicate Wastes(w: World, m: Move, l: Link) {
    && (m.Lose? || m.Deliver?) && m.link == l && l in w.wires && m.i < |w.wires[l]|
    && var step := Sides.Step(w.wires[l][m.i]);
       step < 4 && (m.Deliver? ==> step != Stage(Rec(w, l.dst, l.src)))
  }

  /** How many moves of a run do so. */
  function Wasted(net: Network, w: World, steps: seq<Move>, l: Link): nat
    decreases |steps|
  {
    if steps == [] || !Enabled(net, w, steps[0]) then 0
    else (if Wastes(w, steps[0], l) then 1 else 0) + Wasted(net, Apply(net, w, steps[0]), steps[1..], l)
  }

  /** Hearing a datagram moves a record on exactly if it is a handshake packet in its turn. */
  lemma HearBalance(me: Side, you: Side, i: nat, draw: nat)
    requires MutuallyOrderly(me, you) && me.who.id != you.who.id && i < |you.wire|
    ensures var step := Sides.Step(you.wire[i]);
      Stage(Hear(me, you.at, you.wire[i], draw).record)
      == Stage(me.record) + if step < 4 && step == Stage(me.record) then 1 else 0
  {
    hide React, Orderly;
    DeliverKeepsOrderly(me, you, i, draw);
    ChatterOrStep(me, you, i);
  }

  lemma ChatterOrStep(me: Side, you: Side, i: nat)
    requires Orderly(you, me) && i < |you.wire|
    ensures IsChatter(you, you.wire[i]) <==> Sides.Step(you.wire[i]) == 4
  {
  }

  lemma MoveBalance(who: seq<Identity>, w: World, m: Move, a: Addr, b: Addr)
    requires Good(Lossy, who, w) && Enabled(Lossy, w, m) && Two(who, a, b)
    ensures var w' := Apply(Lossy, w, m);
      Stage(Rec(w', b, a)) + (if Wastes(w, m, Link(a, b)) then 1 else 0) - Stage(Rec(w, b, a))
      == Gone(w', a, b) - Gone(w, a, b)
  {
    hide Apply, React, Orderly, Hear, Sends, Gone;
    MoveGone(who, w, m, a, b);
    MoveEffect(Lossy, who, w, m, b, a);
    if m.Deliver? && m.link == Link(a, b) {
      assert PairFits(Lossy, w, b, a);
      HearBalance(View(w, b, a), View(w, a, b), m.i, m.draw);
    }
  }

  lemma {:induction false} RunBalance(net: Network, who: seq<Identity>, w: World, steps: seq<Move>, w': World,
                                      a: Addr, b: Addr)
    requires Good(Lossy, who, w) && Run(net, w, steps, w') && net != Replaying && Two(who, a, b)
    ensures Stage(Rec(w', b, a)) + Wasted(net, w, steps, Link(a, b)) - Stage(Rec(w, b, a))
         == Gone(w', a, b) - Gone(w, a, b)
    decreases |steps|
  {
    hide Apply, Good, Wastes, Gone;
    if steps != [] {
      SameMove(net, w, steps[0]);
      MoveBalance(who, w, steps[0], a, b);
      MoveKeepsGood(Lossy, who, w, steps[0]);
      RunBalance(net, who, Apply(net, w, steps[0]), steps[1..], w', a, b);
    }
  }

  /** No packet disappears: of what `a` ever sent `b` in a run without duplication, `b`'s record
      has taken in as many as its stage says, some still travel, and the rest was wasted. So one
      wasted packet keeps `b` from ever being Connected. */
  lemma EveryPacketIsAccountedFor(net: Network, who: seq<Identity>, steps: seq<Move>, w: World, a: Addr, b: Addr)
    requires Reached(net, who, steps, w) && net != Replaying && Two(who, a, b)
    ensures var l := Link(a, b);
      Stage(Rec(w, b, a)) + Wasted(net, Init(who), steps, l) + |Pending(Wire(w, l))| == |Sends(Log(w, l))| <= 4
  {
    hide Run, Good;
    InitIsGood(Lossy, who);
    RunBalance(net, who, Init(who), steps, w, a, b);
    SentIsPrefixOfScript(net, who, steps, w, a, b);
  }

  /** And what is wasted is never made good: the receiver is not Connected in any continuation. */
  lemma WasteIsFinal(net: Network, who: seq<Identity>, early: seq<Move>, w: World, later: seq<Move>, w': World,
                     a: Addr, b: Addr)
    requires Reached(net, who, early, w) && Run(net, w, later, w') && net != Replaying && Two(who, a, b)
    requires Wasted(net, Init(who), early, Link(a, b)) > 0
    ensures Stage(Rec(w', b, a)) < Rank(Connected)
  {
    hide Run, Good;
    EveryPacketIsAccountedFor(net, who, early, w, a, b);
    ReachedIsGood(net, Lossy, who, early, w);
    RunBalance(net, who, w, later, w', a, b);
    RunWidens(net, Lossy, w, later, w');
    RunKeepsGood(Lossy, who, w, later, w');
    AtMostFour(who, w', a, b);
  }

  lemma AtMostFour(who: seq<Identity>, w: World, a: Addr, b: Addr)
    requires Good(Lossy, who, w) && Two(who, a, b)
    ensures |Sends(Log(w, Link(a, b)))| <= 4
  {
    assert PairFits(Lossy, w, a, b);
  }

  // ---------------------------------------------------------------------------------------------
  // A packet is missing exactly if one was wasted

  function StepsOn(wire: seq<Datagram>): set<nat> {
    if wire == [] then {} else (if Sides.Step(wire[0]) < 4 then {Sides.Step(wire[0])} else {}) + StepsOn(wire[1..])
  }

  function Range(lo: nat, hi: nat): (r: set<nat>)
    requires lo <= hi
    ensures |r| == hi - lo && forall k :: k in r <==> lo <= k < hi
    decreases hi
  {
    if lo == hi then {} else Range(lo, hi - 1) + {hi - 1}
  }

  lemma {:induction false} StepsOnAre(wire: seq<Datagram>, k: nat)
    ensures k in StepsOn(wire) <==> k < 4 && exists i :: 0 <= i < |wire| && Sides.Step(wire[i]) == k
  {
    if wire != [] {
      StepsOnAre(wire[1..], k);
      assert forall i :: 1 <= i < |wire| ==> wire[i] == wire[1..][i - 1];
    }
  }

  /** The handshake packets on a wire are all of different steps. */
  lemma {:induction false} StepsAreDifferent(chat: Datagram, script: seq<Datagram>, lo: nat, hi: nat,
                                             wire: seq<Datagram>)
    requires Carries(chat, script, lo, hi, wire) && Sides.Step(chat) == 4
    ensures |StepsOn(wire)| == |Pending(wire)|
  {
    if wire != [] {
      var k := Sides.Step(wire[0]);
      StepsAreDifferent(chat, script, lo, hi, wire[1..]);
      StepsOnAre(wire[1..], k);
      assert forall i :: 1 <= i < |wire| && Sides.Step(wire[i]) == k && k < 4 ==> wire[i] == wire[0];
    }
  }

  /** Nothing is missing exactly if all that was sent and not taken in still travels. */
  lemma NoneMissingIff(me: Side, you: Side)
    requires Orderly(me, you)
    ensures NoneMissing(me, you) <==> Stage(you.record) + |Pending(me.wire)| == SentCount(me)
  {
    var lo, hi, on := Stage(you.record), SentCount(me), StepsOn(me.wire);
    var due := Range(lo, hi);
    StepsAreDifferent(Announcement(me.who.id), Script(me, you), lo, hi, me.wire);
    forall k ensures k in on <==> k in due && !Missing(me, you, k) {
      StepsOnAre(me.wire, k);
    }
    assert NoneMissing(me, you) <==> on == due by {
      if on == due {
        forall k ensures !Missing(me, you, k) { assert k in due <==> k in on; }
      }
    }
    if |on| == hi - lo {
      SameSize(on, due);
    }
  }

  lemma SameSize(a: set<nat>, b: set<nat>)
    requires a <= b && |a| == |b|
    ensures a == b
  {
    assert b == a + (b - a);
  }

  /** `Missing` is no more than waste: some packet of `a`'s is missing exactly if one was wasted. */
  lemma NoneMissingIffNoneWasted(net: Network, who: seq<Identity>, steps: seq<Move>, w: World, a: Addr, b: Addr)
    requires Reached(net, who, steps, w) && net != Replaying && Two(who, a, b)
    ensures |w.procs| == |who|
    ensures NoneMissing(View(w, a, b), View(w, b, a)) <==> Wasted(net, Init(who), steps, Link(a, b)) == 0
  {
    hide Run, NoneMissing, Orderly;
    EveryPacketIsAccountedFor(net, who, steps, w, a, b);
    SentIsPrefixOfScript(net, who, steps, w, a, b);
    PairIs(net, Lossy, who, steps, w, a, b);
    NoneMissingIff(View(w, a, b), View(w, b, a));
  }

  /** Exactly when an unreliable network lets two processes finish: once one has heard the other
      and nothing travels between them, both are Connected if and only if the run lost nothing of
      their handshake and handed nothing of it over out of turn. */
  lemma QuietOutcome(net: Network, who: seq<Identity>, steps: seq<Move>, w: World, a: Addr, b: Addr)
    requires Reached(net, who, steps, w) && net != Replaying && Two(who, a, b)
    requires Quiet(w, a, b) && (Rec(w, a, b).Some? || Rec(w, b, a).Some?)
    ensures BothConnected(w, a, b) <==>
      Wasted(net, Init(who), steps, Link(a, b)) == 0 && Wasted(net, Init(who), steps, Link(b, a)) == 0
    ensures |w.procs| == |who|
    ensures BothConnected(w, a, b) <==>
      NoneMissing(View(w, a, b), View(w, b, a)) && NoneMissing(View(w, b, a), View(w, a, b))
  {
    hide Run, Orderly, NoneMissing;
    PairIs(net, Lossy, who, steps, w, a, b);
    QuietPair(View(w, a, b), View(w, b, a));
    NoneMissingIffNoneWasted(net, who, steps, w, a, b);
    NoneMissingIffNoneWasted(net, who, steps, w, b, a);
  }

  // ---------------------------------------------------------------------------------------------
  // Two runs that end stuck

  lemma {:induction false} WastedThen(net: Network, w: World, steps: seq<Move>, w1: World, m: Move, l: Link)
    requires Run(net, w, steps, w1) && Enabled(net, w1, m)
    ensures Wasted(net, w, steps + [m], l) == Wasted(net, w, steps, l) + if Wastes(w1, m, l) then 1 else 0
    decreases |steps|
  {
    hide Wastes, Apply;
    if steps == [] {
      assert Wasted(net, Apply(net, w1, m), [m][1..], l) == 0;
    } else {
      WastedThen(net, Apply(net, w, steps[0]), steps[1..], w1, m, l);
      assert (steps + [m])[1..] == steps[1..] + [m];
    }
  }

  const LOSES := [Broadcast(0), Deliver(Link(0, 1), 0, 0), Lose(Link(1, 0), 0)]

  const REORDERS := [Broadcast(0), Deliver(Link(0, 1), 0, 0), Deliver(Link(1, 0), 0, 0), Deliver(Link(0, 1), 1, 0)]

  const HAILED := Scene(None, [CHAT0], None, [])
  const ANSWERED := Scene(None, [], Rec1(Initialised, None, Unset, Unset), [ASK1])
  const ASKED := Scene(Rec0(KeyExchange, None, Unset, Unset), [ASK0, REPLY0], Rec1(Initialised, None, Unset, Unset), [])

  /** Both runs begin with process 1 hearing process 0 and asking it for its key. */
  lemma Begin(net: Network) returns (w: World)
    requires !net.Replaying?
    ensures Now(net, LOSES[..2], w, ANSWERED)
  {
    hide Now, React, Apply;
    Open(net);
    assert Play(net, OPENING, Broadcast(0)) == HAILED;
    Perform(net, [], Init(WHO), OPENING, Broadcast(0));
    w := Apply(net, Init(WHO), Broadcast(0));
    assert React(WHO[1], 0, None, CHAT0, 0) == Reaction(ANSWERED.r1, [Sent(Peer(0), ASK1)]) by { Greets(); }
    Act(net, HAILED, LOSES[1], ANSWERED.r1, [Sent(Peer(0), ASK1)], ANSWERED);
    Perform(net, [] + [Broadcast(0)], w, HAILED, LOSES[1]);
    w := Apply(net, w, LOSES[1]);
    assert [] + [Broadcast(0)] + [LOSES[1]] == LOSES[..2];
  }

  lemma Greets()
    ensures React(WHO[1], 0, None, CHAT0, 0) == Reaction(ANSWERED.r1, [Sent(Peer(0), ASK1)])
  {
  }

  /** One loss is enough: the third move loses the request for the key, nothing travels any more,
      one process knows the other, and the pair is not Connected. */
  lemma LossSticks() returns (w: World)
    ensures Reached(Lossy, WHO, LOSES, w) && Quiet(w, 0, 1) && Rec(w, 1, 0).Some?
    ensures Wasted(Lossy, Init(WHO), LOSES, Link(1, 0)) > 0 && !BothConnected(w, 0, 1)
  {
    hide Now, Apply, Run, React, Wasted;
    var w2 := Begin(Lossy);
    var m := Lose(Link(1, 0), 0);
    Perform(Lossy, LOSES[..2], w2, ANSWERED, m);
    assert LOSES[..2] + [m] == LOSES;
    w := Apply(Lossy, w2, m);
    assert Play(Lossy, ANSWERED, m) == ANSWERED.(wire1 := []);
    NowMeans(Lossy, LOSES[..2], w2, ANSWERED);
    NowMeans(Lossy, LOSES, w, ANSWERED.(wire1 := []));
    WastedThen(Lossy, Init(WHO), LOSES[..2], w2, m, Link(1, 0));
  }

  const SKIPPED := ASKED.(wire0 := [ASK0])

  /** Reordering alone is enough too: nothing is lost, but process 1 hears the reply before the
      request, ignores it, and waits for it for ever. */
  lemma ReorderingSticks() returns (w: World)
    ensures Reached(Lossy, WHO, REORDERS, w) && Wasted(Lossy, Init(WHO), REORDERS, Link(0, 1)) > 0
    ensures forall i :: 0 <= i < |REORDERS| ==> !REORDERS[i].Lose?
    ensures forall later, w' :: Run(Lossy, w, later, w') ==> !BothConnected(w', 0, 1)
  {
    hide Now, Apply, Run, React, Wasted, Play, Playable;
    var w2 := Begin(Lossy);
    var m := REORDERS[3];
    SkipActs();
    assert REORDERS[..2] == LOSES[..2];
    Perform(Lossy, REORDERS[..2], w2, ANSWERED, REORDERS[2]);
    var w3 := Apply(Lossy, w2, REORDERS[2]);
    assert REORDERS[..2] + [REORDERS[2]] == REORDERS[..3];
    Perform(Lossy, REORDERS[..3], w3, ASKED, m);
    w := Apply(Lossy, w3, m);
    assert REORDERS[..3] + [m] == REORDERS;
    NowMeans(Lossy, REORDERS[..3], w3, ASKED);
    NowMeans(Lossy, REORDERS, w, SKIPPED);
    WastedThen(Lossy, Init(WHO), REORDERS[..3], w3, m, Link(0, 1));
    forall later, w' | Run(Lossy, w, later, w') ensures !BothConnected(w', 0, 1) {
      WasteIsFinal(Lossy, WHO, REORDERS, w, later, w', 0, 1);
    }
  }

  lemma SkipActs()
    ensures Playable(Lossy, ANSWERED, REORDERS[2]) && Play(Lossy, ANSWERED, REORDERS[2]) == ASKED
    ensures Playable(Lossy, ASKED, REORDERS[3]) && Play(Lossy, ASKED, REORDERS[3]) == SKIPPED
  {
    Act(Lossy, ANSWERED, REORDERS[2], ASKED.r0, [Sent(Peer(1), ASK0), Sent(Peer(1), REPLY0)], ASKED);
    Act(Lossy, ASKED, REORDERS[3], ASKED.r1, [], SKIPPED);
  }
}
