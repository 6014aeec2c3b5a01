/** The theorems about whole runs of the handshake, for each of the three networks. */
module Runs {
  import opened Options
  import opened PeerProtocol
  import opened Sides
  import opened World

  /** What a pair of processes keeps to, in each network. */
  ghost predicate Fit(net: Network, a: Side, b: Side) {
    match net
    case Replaying => MutuallySound(a, b)
    case Lossy => MutuallyOrderly(a, b)
    case Reliable => MutuallyInLine(a, b)
  }

  ghost predicate PairFits(net: Network, w: World, x: Addr, y: Addr) {
    x < |w.procs| && y < |w.procs| && Fit(net, View(w, x, y), View(w, y, x))
  }

  ghost predicate Good(net: Network, who: seq<Identity>, w: World) {
    && Shaped(who, w)
    && forall x, y :: 0 <= x < |who| && 0 <= y < |who| && x != y ==> PairFits(net, w, x, y)
  }

  lemma InitIsGood(net: Network, who: seq<Identity>)
    requires DistinctIds(who)
    ensures Good(net, who, Init(who))
  {
    var w := Init(who);
    forall x | 0 <= x < |who| ensures Alone(w, x) {}
    forall x, y | 0 <= x < |who| && 0 <= y < |who| && x != y
      ensures PairFits(net, w, x, y)
    {
      assert Link(x, y) in Links(|who|) && Link(y, x) in Links(|who|);
      assert View(w, x, y) == Side(who[x], x, None, [], []);
      assert View(w, y, x) == Side(who[y], y, None, [], []);
    }
  }

  lemma FitDeliver(net: Network, me: Side, you: Side, i: nat, draw: nat)
    requires Fit(net, me, you) && me.who.id != you.who.id && i < |you.wire| && (net.Reliable? ==> i == 0)
    ensures Fit(net, Hear(me, you.at, you.wire[i], draw), Drop(you, i))
  {
    match net
    case Replaying =>
      HearKeepsSound(me, you, you.wire[i], draw);
      DropKeepsSound(you, Hear(me, you.at, you.wire[i], draw), i);
    case Lossy => DeliverKeepsOrderly(me, you, i, draw);
    case Reliable => DeliverKeepsInLine(me, you, draw);
  }

  lemma FitSay(net: Network, me: Side, you: Side)
    requires Fit(net, me, you)
    ensures Fit(net, Say(me, Announcement(me.who.id)), you)
  {
    match net
    case Replaying => SayKeepsSound(me, you);
    case Lossy => SayKeepsOrderly(me, you);
    case Reliable => SayKeepsInLine(me, you);
  }

  lemma FitDrop(net: Network, me: Side, you: Side, i: nat)
    requires Fit(net, me, you) && i < |me.wire| && !net.Reliable?
    ensures Fit(net, Drop(me, i), you)
  {
    match net
    case Replaying => DropKeepsSound(me, you, i);
    case Lossy => DropKeepsOrderly(me, you, i);
  }

  lemma FitIsMutual(net: Network, a: Side, b: Side)
    ensures Fit(net, a, b) <==> Fit(net, b, a)
  {
  }

  /** Handing over a datagram, as one process sees another. */
  lemma HandOver(who: seq<Identity>, w: World, l: Link, d: Datagram, draw: nat, x: Addr, y: Addr)
    requires Shaped(who, w) && l.src < |who| && l.dst < |who| && x < |who| && x != y
    requires l.src == l.dst ==> d == Announcement(who[l.src].id)
    ensures View(Hand(w, l, d, draw), x, y)
         == if l == Link(y, x) then Hear(View(w, x, y), y, d, draw) else View(w, x, y)
  {
    if l.src == l.dst {
      SelfIgnored(who, w, l.src, d, draw);
    } else {
      HandIsHear(who, w, l, d, draw, x, y);
    }
  }

  lemma HandKeepsShape(who: seq<Identity>, w: World, l: Link, d: Datagram, draw: nat)
    requires Shaped(who, w) && l.src < |who| && l.dst < |who|
    requires l.src == l.dst ==> d == Announcement(who[l.src].id)
    ensures Shaped(who, Hand(w, l, d, draw))
  {
    if l.src == l.dst {
      SelfIgnored(who, w, l.src, d, draw);
    } else {
      var r := React(who[l.dst], l.src, Lookup(w.procs[l.dst].records, l.src), d, draw);
      HandEffect(who, w, l, d, draw);
      AfterKeepsShape(who, w, l, r.node, r.events);
    }
  }

  lemma OnSelfWire(who: seq<Identity>, w: World, l: Link, i: nat)
    requires Shaped(who, w) && l in w.wires && i < |w.wires[l]| && l.src == l.dst
    ensures w.wires[l][i] == Announcement(who[l.src].id)
  {
    assert Alone(w, l.src);
    assert l == Link(l.src, l.src);
    assert Wire(w, Link(l.src, l.src))[i] == w.wires[l][i];
  }

  /** What one move does to what any process sees of any other. */
  lemma MoveEffect(net: Network, who: seq<Identity>, w: World, m: Move, x: Addr, y: Addr)
    requires Shaped(who, w) && Enabled(net, w, m) && x < |who| && y < |who| && x != y
    ensures View(Apply(net, w, m), x, y) == Moved(w, m, x, y)
  {
    match m
    case Broadcast(p) =>
      assert Link(x, y) in Links(|who|);
      BroadcastIsPutAll(net, w, p);
      PutAllIsSay(w, p, Announcement(who[p].id), x, y);
    case Lose(l, i) => TakeIsDrop(w, l, i, x, y);
    case Deliver(l, i, draw) =>
      assert l in Links(|who|);
      if l.src == l.dst { OnSelfWire(who, w, l, i); }
      TakeKeepsShape(who, w, l, i);
      TakeIsDrop(w, l, i, x, y);
      HandOver(who, Take(w, l, i), l, w.wires[l][i], draw, x, y);
    case Replay(l, i, draw) =>
      assert l in Links(|who|);
      if l.src == l.dst { OnSelfWire(who, w, l, i); }
      HandOver(who, w, l, w.wires[l][i], draw, x, y);
  }

  lemma MoveKeepsShape(net: Network, who: seq<Identity>, w: World, m: Move)
    requires Shaped(who, w) && Enabled(net, w, m)
    ensures Shaped(who, Apply(net, w, m))
  {
    match m
    case Broadcast(p) =>
      BroadcastIsPutAll(net, w, p);
      PutAllKeepsShape(who, w, p);
    case Lose(l, i) => TakeKeepsShape(who, w, l, i);
    case Deliver(l, i, draw) =>
      assert l in Links(|who|);
      if l.src == l.dst { OnSelfWire(who, w, l, i); }
      TakeKeepsShape(who, w, l, i);
      HandKeepsShape(who, Take(w, l, i), l, w.wires[l][i], draw);
    case Replay(l, i, draw) =>
      assert l in Links(|who|);
      if l.src == l.dst { OnSelfWire(who, w, l, i); }
      HandKeepsShape(who, w, l, w.wires[l][i], draw);
  }

  /** `View(w, x, y)` after move `m`. */
  function Moved(w: World, m: Move, x: Addr, y: Addr): Side
    requires x < |w.procs| && y < |w.procs| && x != y
    requires !m.Broadcast? ==> m.link in w.wires && m.i < |w.wires[m.link]|
  {
    var me := View(w, x, y);
    match m
    case Broadcast(p) => if x == p then Say(me, Announcement(me.who.id)) else me
    case Lose(l, i) => if l == Link(x, y) then Drop(me, i) else me
    case Deliver(l, i, draw) =>
      if l == Link(x, y) then Drop(me, i)
      else if l == Link(y, x) then Hear(me, y, w.wires[l][i], draw)
      else me
    case Replay(l, i, draw) => if l == Link(y, x) then Hear(me, y, w.wires[l][i], draw) else me
  }

  lemma MoveKeepsGood(net: Network, who: seq<Identity>, w: World, m: Move)
    requires Good(net, who, w) && Enabled(net, w, m)
    ensures Good(net, who, Apply(net, w, m))
  {
    MoveKeepsShape(net, who, w, m);
    var w' := Apply(net, w, m);
    forall x, y | 0 <= x < |who| && 0 <= y < |who| && x != y
      ensures PairFits(net, w', x, y)
    {
      MoveEffect(net, who, w, m, x, y);
      MoveEffect(net, who, w, m, y, x);
      MoveKeepsFit(net, who, w, m, x, y);
    }
  }

  /** A move of any network is one that the replaying network allows. */
  lemma GoodStaysGood(net: Network, who: seq<Identity>, w: World, m: Move)
    requires Good(Replaying, who, w) && Enabled(net, w, m)
    ensures Good(Replaying, who, Apply(net, w, m))
  {
    assert Apply(Replaying, w, m) == Apply(net, w, m);
    MoveKeepsGood(Replaying, who, w, m);
  }

  lemma MoveKeepsFit(net: Network, who: seq<Identity>, w: World, m: Move, x: Addr, y: Addr)
    requires Good(net, who, w) && Enabled(net, w, m) && x < |who| && y < |who| && x != y
    ensures Fit(net, Moved(w, m, x, y), Moved(w, m, y, x))
  {
    var a, b := View(w, x, y), View(w, y, x);
    assert a.who.id != b.who.id;
    assert PairFits(net, w, x, y);
    FitIsMutual(net, a, b);
    FitIsMutual(net, Moved(w, m, x, y), Moved(w, m, y, x));
    match m
    case Broadcast(p) =>
      if x == p { FitSay(net, a, b); }
      if y == p { FitSay(net, b, a); }
    case Lose(l, i) =>
      if l == Link(x, y) { FitDrop(net, a, b, i); }
      if l == Link(y, x) { FitDrop(net, b, a, i); }
    case Deliver(l, i, draw) =>
      if l == Link(x, y) { FitDeliver(net, b, a, i, draw); }
      if l == Link(y, x) { FitDeliver(net, a, b, i, draw); }
    case Replay(l, i, draw) =>
      if l == Link(x, y) { HearKeepsSound(b, a, a.wire[i], draw); }
      if l == Link(y, x) { HearKeepsSound(a, b, b.wire[i], draw); }
  }

  lemma {:induction false} RunKeepsGood(net: Network, who: seq<Identity>, w: World, steps: seq<Move>, w': World)
    requires Good(net, who, w) && Run(net, w, steps, w')
    ensures Good(net, who, w')
    decreases |steps|
  {
    if steps != [] {
      MoveKeepsGood(net, who, w, steps[0]);
      RunKeepsGood(net, who, Apply(net, w, steps[0]), steps[1..], w');
    }
  }
}
