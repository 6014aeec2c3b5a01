/** Counting handshake packets over whole runs: each one sent is still travelling, or was handed
    over or lost exactly once, and only a bounded number is ever sent. */
module Accounting {
  import opened Options
  import opened PeerProtocol
  import opened Sides
  import opened World
  import opened Runs
  import opened HandshakeTheorems

  ghost function Sum(f: nat -> int, n: nat): int {
    if n == 0 then 0 else Sum(f, n - 1) + f(n - 1)
  }

  lemma {:induction false} SumPlus(f: nat -> int, g: nat -> int, n: nat, i: nat, d: int)
    requires forall k :: 0 <= k < n ==> g(k) == f(k) + if k == i then d else 0
    ensures Sum(g, n) == Sum(f, n) + if i < n then d else 0
  {
    if n > 0 {
      SumPlus(f, g, n - 1, i, d);
    }
  }

  /** `n` terms of at most `c` each, of which term `i` is nothing. */
  lemma {:induction false} SumAtMost(f: nat -> int, n: nat, i: nat, c: nat)
    requires forall k :: 0 <= k < n ==> f(k) <= if k == i then 0 else c
    ensures Sum(f, n) <= if i < n then (n - 1) * c else n * c
  {
    if n > 0 {
      SumAtMost(f, n - 1, i, c);
    }
  }

  lemma {:induction false} SumBelow(f: nat -> int, g: nat -> int, n: nat)
    requires forall k :: 0 <= k < n ==> f(k) <= g(k)
    ensures Sum(f, n) <= Sum(g, n)
  {
    if n > 0 {
      SumBelow(f, g, n - 1);
    }
  }

  /** Handshake packets from `x` to `y` that were sent and are no longer travelling. */
  ghost function Gone(w: World, x: Addr, y: Addr): int {
    if x == y then 0 else |Sends(Log(w, Link(x, y)))| - |Pending(Wire(w, Link(x, y)))|
  }

  /** Handshake packets from `x` to `y` ever sent. */
  ghost function Made(w: World, x: Addr, y: Addr): int {
    if x == y then 0 else |Sends(Log(w, Link(x, y)))|
  }

  ghost function GoneFrom(w: World, x: Addr, n: nat): int { Sum((y: nat) => Gone(w, x, y), n) }

  ghost function MadeBy(w: World, x: Addr, n: nat): int { Sum((y: nat) => Made(w, x, y), n) }

  ghost function TotalGone(w: World, n: nat): int { Sum((x: nat) => GoneFrom(w, x, n), n) }

  ghost function TotalMade(w: World, n: nat): int { Sum((x: nat) => MadeBy(w, x, n), n) }

  /** Whether a move takes a handshake packet off a wire: 1 if it does. */
  function Handles(w: World, m: Move): nat {
    if (m.Deliver? || m.Lose?) && m.link in w.wires && m.i < |w.wires[m.link]|
       && Sides.Step(w.wires[m.link][m.i]) < 4
    then 1 else 0
  }

  /** How many moves of a run do so. */
  function Handled(net: Network, w: World, steps: seq<Move>): nat
    decreases |steps|
  {
    if steps == [] || !Enabled(net, w, steps[0]) then 0
    else Handles(w, steps[0]) + Handled(net, Apply(net, w, steps[0]), steps[1..])
  }

  lemma HearAddsGone(me: Side, you: Side, i: nat, draw: nat)
    requires MutuallyOrderly(me, you) && me.who.id != you.who.id && i < |you.wire|
    ensures var me' := Hear(me, you.at, you.wire[i], draw);
      |Sends(me'.log)| - |Pending(me'.wire)| == |Sends(me.log)| - |Pending(me.wire)|
  {
    var d := you.wire[i];
    var events := React(me.who, you.at, me.record, d, draw).events;
    var me' := Hear(me, you.at, d, draw);
    HearAdvances(me, you, d, draw);
    TurnAddsPending(me, me', you, d, events);
    AdvanceSends(me, me', you, d, events);
    LogsAppend(me.log, events);
  }

  lemma MoveGone(who: seq<Identity>, w: World, m: Move, x: Addr, y: Addr)
    requires Good(Lossy, who, w) && Enabled(Lossy, w, m) && Two(who, x, y)
    ensures Gone(Apply(Lossy, w, m), x, y)
         == Gone(w, x, y) + if !m.Broadcast? && m.link == Link(x, y) then Handles(w, m) else 0
  {
    hide Apply, React, Orderly;
    var me, you := View(w, x, y), View(w, y, x);
    MoveEffect(Lossy, who, w, m, x, y);
    assert PairFits(Lossy, w, x, y);
    match m
    case Broadcast(p) =>
      var chat := Announcement(me.who.id);
      PendingAppend(me.wire, [chat]);
      assert [chat][1..] == [];
    case Lose(l, i) =>
      if l == Link(x, y) { PendingWithout(me.wire, i); }
    case Deliver(l, i, draw) =>
      if l == Link(x, y) { PendingWithout(me.wire, i); }
      if l == Link(y, x) { HearAddsGone(me, you, i, draw); }
  }

  lemma MoveTotal(who: seq<Identity>, w: World, m: Move)
    requires Good(Lossy, who, w) && Enabled(Lossy, w, m)
    ensures TotalGone(Apply(Lossy, w, m), |who|) == TotalGone(w, |who|) + Handles(w, m)
  {
    hide Apply;
    var n, w' := |who|, Apply(Lossy, w, m);
    var l := if m.Broadcast? then Link(n, n) else m.link;
    var d := Handles(w, m);
    assert l.src == l.dst ==> d == 0 by {
      if d == 1 && l.src == l.dst { OnSelfWire(who, w, l, m.i); }
    }
    forall x | 0 <= x < n
      ensures GoneFrom(w', x, n) == GoneFrom(w, x, n) + if x == l.src then d else 0
    {
      forall y | 0 <= y < n ensures Gone(w', x, y) == Gone(w, x, y) + if y == l.dst && x == l.src then d else 0 {
        if x != y { MoveGone(who, w, m, x, y); }
      }
      SumPlus((y: nat) => Gone(w, x, y), (y: nat) => Gone(w', x, y), n, l.dst, if x == l.src then d else 0);
      assert d == 1 ==> l in Links(n);
    }
    SumPlus((x: nat) => GoneFrom(w, x, n), (x: nat) => GoneFrom(w', x, n), n, l.src, d);
    assert d == 1 ==> l in Links(n);
  }

  lemma {:induction false} RunTotal(who: seq<Identity>, w: World, steps: seq<Move>, w': World)
    requires Good(Lossy, who, w) && Run(Lossy, w, steps, w')
    ensures TotalGone(w', |who|) == TotalGone(w, |who|) + Handled(Lossy, w, steps)
    decreases |steps|
  {
    hide Apply, Good, TotalGone, Handles;
    if steps != [] {
      MoveTotal(who, w, steps[0]);
      MoveKeepsGood(Lossy, who, w, steps[0]);
      RunTotal(who, Apply(Lossy, w, steps[0]), steps[1..], w');
    }
  }

  lemma InitTotal(who: seq<Identity>)
    ensures TotalGone(Init(who), |who|) == 0
  {
    var n, w := |who|, Init(who);
    forall x | 0 <= x < n ensures GoneFrom(w, x, n) == 0 {
      SumZero((y: nat) => Gone(w, x, y), n);
    }
    SumZero((x: nat) => GoneFrom(w, x, n), n);
  }

  lemma {:induction false} SumZero(f: nat -> int, n: nat)
    requires forall k :: 0 <= k < n ==> f(k) == 0
    ensures Sum(f, n) == 0
  {
    if n > 0 {
      SumZero(f, n - 1);
    }
  }

  lemma {:induction false} HandledWidens(net: Network, w: World, steps: seq<Move>, w': World)
    requires Within(net, Lossy) && Run(net, w, steps, w')
    ensures Handled(net, w, steps) == Handled(Lossy, w, steps)
    decreases |steps|
  {
    if steps != [] {
      assert Apply(Lossy, w, steps[0]) == Apply(net, w, steps[0]);
      HandledWidens(net, Apply(net, w, steps[0]), steps[1..], w');
    }
  }

  /** Conservation: without duplication, the handshake packets handed over or lost in a run are
      exactly those ever sent less those still travelling. */
  lemma Conservation(net: Network, who: seq<Identity>, steps: seq<Move>, w: World)
    requires Reached(net, who, steps, w) && net != Replaying
    ensures Handled(net, Init(who), steps) == TotalGone(w, |who|)
  {
    hide Apply, Good, TotalGone;
    RunWidens(net, Lossy, Init(who), steps, w);
    HandledWidens(net, Init(who), steps, w);
    InitIsGood(Lossy, who);
    RunTotal(who, Init(who), steps, w);
    InitTotal(who);
  }

  /** Termination: `N` processes ever send at most `4 * N * (N - 1)` handshake packets, and no run
      hands over or loses more than that. */
  lemma HandshakesAreBounded(net: Network, who: seq<Identity>, steps: seq<Move>, w: World)
    requires Reached(net, who, steps, w) && net != Replaying
    ensures Handled(net, Init(who), steps) <= TotalMade(w, |who|) <= 4 * |who| * (|who| - 1)
  {
    hide Run, Good;
    var n := |who|;
    Conservation(net, who, steps, w);
    forall x | 0 <= x < n ensures GoneFrom(w, x, n) <= MadeBy(w, x, n) <= (n - 1) * 4 {
      SumBelow((y: nat) => Gone(w, x, y), (y: nat) => Made(w, x, y), n);
      forall y | 0 <= y < n ensures Made(w, x, y) <= if y == x then 0 else 4 {
        if x != y { SentIsPrefixOfScript(net, who, steps, w, x, y); }
      }
      SumAtMost((y: nat) => Made(w, x, y), n, x, 4);
    }
    SumBelow((x: nat) => GoneFrom(w, x, n), (x: nat) => MadeBy(w, x, n), n);
    if n > 0 {
      SumAtMost((x: nat) => MadeBy(w, x, n), n, n, (n - 1) * 4);
    }
  }

  /** What a run may still hand over or lose. */
  ghost function Budget(w: World, n: nat): int {
    4 * n * (n - 1) - TotalGone(w, n)
  }

  /** The measure: never negative, it falls by exactly one with every handshake packet that leaves
      a wire, and nothing else changes it. */
  lemma BudgetFalls(net: Network, who: seq<Identity>, steps: seq<Move>, w: World, m: Move)
    requires Reached(net, who, steps, w) && net != Replaying && Enabled(net, w, m)
    ensures 0 <= Budget(w, |who|)
    ensures Budget(Apply(net, w, m), |who|) == Budget(w, |who|) - Handles(w, m)
  {
    hide Run;
    Conservation(net, who, steps, w);
    HandshakesAreBounded(net, who, steps, w);
    ReachedIsGood(net, Lossy, who, steps, w);
    assert Apply(Lossy, w, m) == Apply(net, w, m);
    MoveTotal(who, w, m);
  }

  /** Hearing an announcement from a peer already known changes nothing but the wire. */
  lemma AnnouncementIsStutter(who: seq<Identity>, w: World, m: Move)
    requires Good(Lossy, who, w) && Enabled(Lossy, w, m) && m.Deliver?
    requires w.wires[m.link][m.i] == Announcement(w.procs[m.link.src].who.id)
    requires Rec(w, m.link.dst, m.link.src).Some?
    ensures Apply(Lossy, w, m) == Take(w, m.link, m.i)
  {
    var l, w1 := m.link, Take(w, m.link, m.i);
    assert l in Links(|who|) && l.src != l.dst;
    TakeKeepsShape(who, w, l, m.i);
    HandEffect(who, w1, l, w.wires[l][m.i], m.draw);
    var node := Rec(w, l.dst, l.src);
    assert React(who[l.dst], l.src, node, w.wires[l][m.i], m.draw) == Reaction(node, []);
    AfterNothing(w1, l);
  }

  lemma AfterNothing(w: World, l: Link)
    requires l.dst < |w.procs| && Link(l.dst, l.src) in w.wires && Link(l.dst, l.src) in w.logs
    ensures After(w, l, Rec(w, l.dst, l.src), []) == w
  {
    var back, p := Link(l.dst, l.src), w.procs[l.dst];
    assert w.wires[back] + [] == w.wires[back] && w.logs[back] + [] == w.logs[back];
    assert w.wires[back := w.wires[back]] == w.wires && w.logs[back := w.logs[back]] == w.logs;
    assert l.src in p.records ==> p.records[l.src := p.records[l.src]] == p.records;
    assert w.procs[l.dst := p] == w.procs;
  }
}
