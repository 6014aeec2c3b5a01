/** What the main loop of src/UDPNetwork.cpp says and does over any number of passes, and that the
    processes of the world run nothing else. */
module MainLoops {
  import opened Options
  import opened PeerProtocol
  import opened Sides
  import opened World
  import opened Runs
  import opened HandshakeTheorems
  import opened UdpNetwork

  /** The datagrams heard, in order. */
  function HeardIn(ticks: seq<Tick>): seq<Heard> {
    if ticks == [] then []
    else HeardIn(ticks[..|ticks| - 1]) + (var t := ticks[|ticks| - 1]; if t.heard.Some? then [t.heard.value] else [])
  }

  /** One turn for each, in order. */
  function Turns(p: Process, heard: seq<Heard>): TurnResult {
    if heard == [] then TurnResult(p, []) else
      var before, h := Turns(p, heard[..|heard| - 1]), heard[|heard| - 1];
      var last := Turn(before.process, h.from, h.datagram, h.draw);
      TurnResult(last.process, before.events + last.events)
  }

  /** How many passes found a broadcast due. */
  function Dues(ticks: seq<Tick>): nat {
    if ticks == [] then 0 else Dues(ticks[..|ticks| - 1]) + if ticks[|ticks| - 1].broadcastDue then 1 else 0
  }

  predicate ToEveryone(e: Event) {
    e.Sent? && e.dest.Everyone?
  }

  /** The events that are sends to everyone, and the others. */
  function Aloud(events: seq<Event>): seq<Event> {
    if events == [] then []
    else Aloud(events[..|events| - 1]) + (var e := events[|events| - 1]; if ToEveryone(e) then [e] else [])
  }

  function Between(events: seq<Event>): seq<Event> {
    if events == [] then []
    else Between(events[..|events| - 1]) + (var e := events[|events| - 1]; if ToEveryone(e) then [] else [e])
  }

  lemma {:induction false} SplitAppend(a: seq<Event>, b: seq<Event>)
    ensures Aloud(a + b) == Aloud(a) + Aloud(b) && Between(a + b) == Between(a) + Between(b)
  {
    if b == [] {
      assert a + b == a;
    } else {
      assert (a + b)[..|a + b| - 1] == a + b[..|b| - 1];
      SplitAppend(a, b[..|b| - 1]);
    }
  }

  lemma {:induction false} AllBetween(events: seq<Event>)
    requires IsPrivate(events)
    ensures Aloud(events) == [] && Between(events) == events
  {
    if events != [] {
      AllBetween(events[..|events| - 1]);
    }
  }

  lemma OneAloud(e: Event)
    requires ToEveryone(e)
    ensures Aloud([e]) == [e] && Between([e]) == []
  {
    assert [e][..0] == [];
  }

  predicate IsPrivate(events: seq<Event>) {
    forall e :: e in events ==> !ToEveryone(e)
  }

  /** A turn speaks to one peer at a time, and does not change who the process is. */
  lemma TurnIsPrivate(p: Process, from: Addr, d: Datagram, draw: nat)
    ensures Turn(p, from, d, draw).process.who == p.who && IsPrivate(Turn(p, from, d, draw).events)
  {
  }

  /** The turn of a pass: on the datagram heard, if any. */
  function TurnOn(p: Process, heard: Option<Heard>): TurnResult {
    match heard
    case None => TurnResult(p, [])
    case Some(h) => Turn(p, h.from, h.datagram, h.draw)
  }

  /** What a broadcast says. */
  function Discover(id: NodeId): Event {
    Sent(Everyone, Clear(Packet(0, id, 0xFFFF_FFFF_FFFF_FFFF, Discovery)))
  }

  /** Pass `i` of the loop: the turn on the datagram heard, if any, in the state that the passes
      before have left; and after it the broadcast, if one is due. */
  lemma PassByPass(p: Process, ticks: seq<Tick>, i: nat)
    requires i < |ticks|
    ensures var before, after := Passes(p, ticks[..i]), Passes(p, ticks[..i + 1]);
      var turn := TurnOn(before.process, ticks[i].heard);
      && after.process == turn.process
      && after.events == before.events + turn.events + (if ticks[i].broadcastDue then [Discover(p.who.id)] else [])
  {
    hide Turn;
    assert ticks[..i + 1][..i] == ticks[..i];
    PassesKeepWho(p, ticks[..i]);
  }

  lemma {:induction false} PassesKeepWho(p: Process, ticks: seq<Tick>)
    ensures Passes(p, ticks).process.who == p.who
  {
    if ticks != [] {
      var rest, t := ticks[..|ticks| - 1], ticks[|ticks| - 1];
      PassesKeepWho(p, rest);
      if t.heard.Some? {
        TurnIsPrivate(Passes(p, rest).process, t.heard.value.from, t.heard.value.datagram, t.heard.value.draw);
      }
    }
  }

  lemma TurnsGoOn(p: Process, ticks: seq<Tick>)
    requires ticks != []
    ensures var before, t := Turns(p, HeardIn(ticks[..|ticks| - 1])), ticks[|ticks| - 1];
      var turn := TurnOn(before.process, t.heard);
      Turns(p, HeardIn(ticks)) == TurnResult(turn.process, before.events + turn.events)
  {
    hide Turn;
    var rest, t := ticks[..|ticks| - 1], ticks[|ticks| - 1];
    var before := Turns(p, HeardIn(rest));
    assert before.events + [] == before.events && HeardIn(rest) + [] == HeardIn(rest);
    if t.heard.Some? {
      assert (HeardIn(rest) + [t.heard.value])[..|HeardIn(rest)|] == HeardIn(rest);
    }
  }

  /** `r` is `turns` with exactly `dues` broadcasts in between. */
  ghost predicate Interleaves(id: NodeId, dues: nat, r: TurnResult, turns: TurnResult) {
    && |Aloud(r.events)| == dues
    && (forall e :: e in Aloud(r.events) ==> e == Discover(id))
    && Between(r.events) == turns.events
    && r.process == turns.process
  }

  lemma OnePassMore(id: NodeId, dues: nat, r: TurnResult, turns: TurnResult, turn: TurnResult, due: bool)
    requires Interleaves(id, dues, r, turns) && IsPrivate(turn.events)
    ensures Interleaves(id, dues + if due then 1 else 0,
                        TurnResult(turn.process, r.events + turn.events + if due then [Discover(id)] else []),
                        TurnResult(turn.process, turns.events + turn.events))
  {
    var said := if due then [Discover(id)] else [];
    AllBetween(turn.events);
    AllBetween([]);
    OneAloud(Discover(id));
    hide Aloud, Between;
    SplitAppend(r.events, turn.events);
    SplitAppend(r.events + turn.events, said);
  }

  /** The whole loop: exactly one broadcast for each pass that finds one due, always the same
      packet, in clear; and apart from those, nothing but the turns on what was heard, in order. */
  lemma {:induction false} LoopSays(p: Process, ticks: seq<Tick>)
    ensures Interleaves(p.who.id, Dues(ticks), Passes(p, ticks), Turns(p, HeardIn(ticks)))
  {
    hide Turn, Interleaves;
    if ticks == [] {
      NothingSaid(p);
    } else {
      var rest, t := ticks[..|ticks| - 1], ticks[|ticks| - 1];
      var r, turns := Passes(p, rest), Turns(p, HeardIn(rest));
      LoopSays(p, rest);
      assert r.process == turns.process by { SameProcess(p.who.id, Dues(rest), r, turns); }
      TurnsGoOn(p, ticks);
      PassByPass(p, ticks, |rest|);
      assert ticks[..|rest| + 1] == ticks;
      var turn := TurnOn(r.process, t.heard);
      assert IsPrivate(turn.events) by {
        if t.heard.Some? {
          TurnIsPrivate(r.process, t.heard.value.from, t.heard.value.datagram, t.heard.value.draw);
        }
      }
      OnePassMore(p.who.id, Dues(rest), r, turns, turn, t.broadcastDue);
    }
  }

  lemma SameProcess(id: NodeId, dues: nat, r: TurnResult, turns: TurnResult)
    requires Interleaves(id, dues, r, turns)
    ensures r.process == turns.process
  {
  }

  lemma NothingSaid(p: Process)
    ensures Interleaves(p.who.id, Dues([]), Passes(p, []), Turns(p, HeardIn([])))
  {
  }

  // ---------------------------------------------------------------------------------------------
  // The processes of the world

  /** What process `x` meets in a run, one pass of its loop for each of its moves. */
  function TicksOf(net: Network, w: World, steps: seq<Move>, x: Addr): seq<Tick>
    decreases |steps|
  {
    if steps == [] || !Enabled(net, w, steps[0]) then []
    else TickOf(w, steps[0], x) + TicksOf(net, Apply(net, w, steps[0]), steps[1..], x)
  }

  function TickOf(w: World, m: Move, x: Addr): seq<Tick> {
    match m
    case Broadcast(p) => if p == x then [Tick(None, true)] else []
    case Lose(_, _) => []
    case _ =>
      if m.link.dst == x && m.link in w.wires && m.i < |w.wires[m.link]|
      then [Tick(Some(Heard(m.link.src, w.wires[m.link][m.i], m.draw)), false)]
      else []
  }

  /** And its broadcast reaches every address: the announcement joins each wire out of it. */
  lemma BroadcastReaches(net: Network, who: seq<Identity>, w: World, p: Addr, x: Addr, y: Addr)
    requires Shaped(who, w) && p < |who| && x < |who| && y < |who|
    ensures var w' := Apply(net, w, Broadcast(p));
      && w'.procs == w.procs && w'.logs == w.logs
      && Wire(w', Link(x, y)) == Wire(w, Link(x, y))
           + if x == p then [Clear(Packet(0, who[p].id, 0xFFFF_FFFF_FFFF_FFFF, Discovery))] else []
  {
    assert Link(x, y) in Links(|who|);
    BroadcastIsPutAll(net, w, p);
  }

  lemma {:induction false} PassesAppend(p: Process, a: seq<Tick>, b: seq<Tick>)
    ensures Passes(p, a + b).process == Passes(Passes(p, a).process, b).process
    ensures Passes(p, a + b).events == Passes(p, a).events + Passes(Passes(p, a).process, b).events
  {
    hide Pass;
    if b == [] {
      assert a + b == a;
    } else {
      assert (a + b)[..|a + b| - 1] == a + b[..|b| - 1];
      PassesAppend(p, a, b[..|b| - 1]);
    }
  }

  lemma OnePass(p: Process, t: Tick)
    ensures Passes(p, [t]).process == TurnOn(p, t.heard).process
  {
    assert [t][..0] == [];
  }

  /** One move is one pass of the loop of the process that makes it, and no pass of any other. */
  lemma MoveIsPass(net: Network, w: World, m: Move, x: Addr)
    requires Enabled(net, w, m) && x < |w.procs|
    ensures Apply(net, w, m).procs[x] == Passes(w.procs[x], TickOf(w, m, x)).process
  {
    hide Turn;
    if TickOf(w, m, x) != [] {
      OnePass(w.procs[x], TickOf(w, m, x)[0]);
    }
  }

  /** In every run of every network, each process is where its own loop has taken it. */
  lemma {:induction false} WorldRunsLoops(net: Network, w: World, steps: seq<Move>, w': World, x: Addr)
    requires Run(net, w, steps, w') && x < |w.procs|
    ensures |w'.procs| == |w.procs| && w'.procs[x] == Passes(w.procs[x], TicksOf(net, w, steps, x)).process
    decreases |steps|
  {
    hide Apply, TickOf;
    if steps != [] {
      var w1 := Apply(net, w, steps[0]);
      MoveIsPass(net, w, steps[0], x);
      WorldRunsLoops(net, w1, steps[1..], w', x);
      PassesAppend(w.procs[x], TickOf(w, steps[0], x), TicksOf(net, w1, steps[1..], x));
    }
  }
}
