/** Any number of processes at fixed addresses, and the network between them. Each runs the main
    loop of src/UDPNetwork.cpp; one step of the world is one turn that hears a datagram, one
    discovery broadcast, or a loss. */
module World {
  import opened Options
  import opened PeerProtocol
  import opened Sides

  datatype Link = Link(src: Addr, dst: Addr)

  /** Process `i` has address `i`. `wires` holds the datagrams travelling from one process to
      another, `logs` what a process has done about each peer; the logs only exist to state
      theorems about whole runs. */
  datatype World = World(procs: seq<Process>, wires: map<Link, seq<Datagram>>, logs: map<Link, seq<Event>>)

  /** The three networks: reliable and in order on each link; losing and reordering; and one that
      may also deliver any datagram again and again. */
  datatype Network = Reliable | Lossy | Replaying

  datatype Move =
    | Broadcast(p: Addr)
    | Deliver(link: Link, i: nat, draw: nat)
    | Replay(link: Link, i: nat, draw: nat)
    | Lose(link: Link, i: nat)

  function Links(n: nat): set<Link> {
    set x: Addr, y: Addr | x < n && y < n :: Link(x, y)
  }

  function Init(who: seq<Identity>): World {
    World(seq(|who|, i requires 0 <= i < |who| => Process(who[i], map[])),
          map l | l in Links(|who|) :: [],
          map l | l in Links(|who|) :: [])
  }

  predicate DistinctIds(who: seq<Identity>) {
    forall x, y :: 0 <= x < y < |who| ==> who[x].id != who[y].id
  }

  function Wire(w: World, l: Link): seq<Datagram> {
    if l in w.wires then w.wires[l] else []
  }

  function Log(w: World, l: Link): seq<Event> {
    if l in w.logs then w.logs[l] else []
  }

  /** Puts one datagram on one wire. */
  function Put(w: World, l: Link, d: Datagram): World {
    if l in w.wires then w.(wires := w.wires[l := w.wires[l] + [d]]) else w
  }

  /** Puts one datagram on every wire out of `p`, its own included. */
  function PutAll(w: World, p: Addr, d: Datagram): World {
    w.(wires := map l | l in w.wires :: if l.src == p then w.wires[l] + [d] else w.wires[l])
  }

  /** Carries out the sends of process `p`, in order. */
  function Emit(w: World, p: Addr, events: seq<Event>): (w': World)
    ensures w'.procs == w.procs && w'.logs == w.logs
    decreases |events|
  {
    if events == [] then w else
      var before, e := Emit(w, p, events[..|events| - 1]), events[|events| - 1];
      if !e.Sent? then before
      else if e.dest.Peer? then Put(before, Link(p, e.dest.addr), e.datagram)
      else PutAll(before, p, e.datagram)
  }

  function Note(w: World, l: Link, events: seq<Event>): World {
    if l in w.logs then w.(logs := w.logs[l := w.logs[l] + events]) else w
  }

  /** Process `l.dst` runs one turn of its loop on a datagram from `l.src`. */
  function Hand(w: World, l: Link, d: Datagram, draw: nat): (w': World)
    requires l.dst < |w.procs|
    ensures |w'.procs| == |w.procs|
  {
    var t := Turn(w.procs[l.dst], l.src, d, draw);
    Note(Emit(w.(procs := w.procs[l.dst := t.process]), l.dst, t.events), Link(l.dst, l.src), t.events)
  }

  function Take(w: World, l: Link, i: nat): World
    requires l in w.wires && i < |w.wires[l]|
  {
    w.(wires := w.wires[l := Without(w.wires[l], i)])
  }

  predicate Enabled(net: Network, w: World, s: Move) {
    match s
    case Broadcast(p) => p < |w.procs|
    case Deliver(l, i, _) => l in w.wires && i < |w.wires[l]| && l.dst < |w.procs| && (net.Reliable? ==> i == 0)
    case Replay(l, i, _) => l in w.wires && i < |w.wires[l]| && l.dst < |w.procs| && net.Replaying?
    case Lose(l, i) => l in w.wires && i < |w.wires[l]| && !net.Reliable?
  }

  function Apply(net: Network, w: World, s: Move): (w': World)
    requires Enabled(net, w, s)
    ensures |w'.procs| == |w.procs|
  {
    match s
    case Broadcast(p) => Emit(w, p, [Sent(Everyone, Announcement(w.procs[p].who.id))])
    case Deliver(l, i, draw) => Hand(Take(w, l, i), l, w.wires[l][i], draw)
    case Replay(l, i, draw) => Hand(w, l, w.wires[l][i], draw)
    case Lose(l, i) => Take(w, l, i)
  }

  /** `steps` is a run of network `net` from `w` to `w'`. */
  predicate Run(net: Network, w: World, steps: seq<Move>, w': World)
    decreases |steps|
  {
    if steps == [] then w' == w
    else Enabled(net, w, steps[0]) && Run(net, Apply(net, w, steps[0]), steps[1..], w')
  }

  /** Process `x` as it stands towards `y`. */
  function View(w: World, x: Addr, y: Addr): Side
    requires x < |w.procs|
  {
    Side(w.procs[x].who, x, Lookup(w.procs[x].records, y), Wire(w, Link(x, y)), Log(w, Link(x, y)))
  }

  /** What the world looks like in every run: one process per identity, every record filed under
      its own address, and no process with a record of itself. */
  ghost predicate Shaped(who: seq<Identity>, w: World) {
    && DistinctIds(who)
    && |w.procs| == |who|
    && w.wires.Keys == w.logs.Keys == Links(|who|)
    && (forall x :: 0 <= x < |who| ==> w.procs[x].who == who[x])
    && (forall x, y :: 0 <= x < |who| && y in w.procs[x].records ==>
          y < |who| && y != x && w.procs[x].records[y].addr == y)
    && (forall x :: 0 <= x < |who| ==> Alone(w, x))
  }

  /** All a process ever hears from itself is its own announcements. */
  ghost predicate Alone(w: World, x: Addr)
    requires x < |w.procs|
  {
    forall i :: 0 <= i < |Wire(w, Link(x, x))| ==> Wire(w, Link(x, x))[i] == Announcement(w.procs[x].who.id)
  }

  // ---------------------------------------------------------------------------------------------
  // One step of the world, seen by a pair

  lemma {:induction false} EmitToOne(w: World, p: Addr, to: Addr, events: seq<Event>)
    requires Link(p, to) in w.wires
    requires forall e :: e in events && e.Sent? ==> e.dest == Peer(to)
    ensures Emit(w, p, events) == w.(wires := w.wires[Link(p, to) := w.wires[Link(p, to)] + Sends(events)])
    decreases |events|
  {
    var l := Link(p, to);
    if events == [] {
      assert w.wires[l] + [] == w.wires[l];
    } else {
      var before, e := events[..|events| - 1], events[|events| - 1];
      EmitToOne(w, p, to, before);
      if e.Sent? {
        assert w.wires[l] + Sends(before) + [e.datagram] == w.wires[l] + Sends(events);
      } else {
        assert Sends(before) == Sends(events);
      }
    }
  }

  /** The world after process `l.dst` has replaced its record of `l.src` and done `events`. */
  function After(w: World, l: Link, node: Option<Record>, events: seq<Event>): World
    requires l.dst < |w.procs| && Link(l.dst, l.src) in w.wires && Link(l.dst, l.src) in w.logs
  {
    var p, back := w.procs[l.dst], Link(l.dst, l.src);
    World(w.procs[l.dst := p.(records := if node.Some? then p.records[l.src := node.value] else p.records)],
          w.wires[back := w.wires[back] + Sends(events)],
          w.logs[back := w.logs[back] + events])
  }

  /** The whole effect of handing a datagram over to another process: the receiver's record of the
      sender, its wire to the sender and its log about the sender, and nothing else anywhere. */
  lemma HandEffect(who: seq<Identity>, w: World, l: Link, d: Datagram, draw: nat)
    requires Shaped(who, w) && l.src < |who| && l.dst < |who| && l.src != l.dst
    ensures var r := React(who[l.dst], l.src, Lookup(w.procs[l.dst].records, l.src), d, draw);
      && (if r.node.Some? then r.node.value.addr == l.src else l.src !in w.procs[l.dst].records)
      && Hand(w, l, d, draw) == After(w, l, r.node, r.events)
  {
    var node := Lookup(w.procs[l.dst].records, l.src);
    var t := Turn(w.procs[l.dst], l.src, d, draw);
    forall e | e in t.events && e.Sent? ensures e.dest == Peer(l.src) {
      OnlyReadyIsSealed(who[l.dst], l.src, node, d, draw, e);
    }
    HearKeepsAddress(who[l.dst], l.src, node, d, draw);
    EmitToOne(w.(procs := w.procs[l.dst := t.process]), l.dst, l.src, t.events);
  }

  lemma AfterKeepsShape(who: seq<Identity>, w: World, l: Link, node: Option<Record>, events: seq<Event>)
    requires Shaped(who, w) && l.src < |who| && l.dst < |who| && l.src != l.dst
    requires node.Some? ==> node.value.addr == l.src
    ensures Shaped(who, After(w, l, node, events))
  {
    var w' := After(w, l, node, events);
    forall x | 0 <= x < |who| ensures Alone(w', x) {
      assert Alone(w, x);
      assert Wire(w', Link(x, x)) == Wire(w, Link(x, x));
    }
  }

  lemma AfterIsLocal(w: World, l: Link, node: Option<Record>, events: seq<Event>, x: Addr, y: Addr)
    requires l.dst < |w.procs| && Link(l.dst, l.src) in w.wires && Link(l.dst, l.src) in w.logs && x < |w.procs|
    requires node.None? ==> l.src !in w.procs[l.dst].records
    ensures var me := View(w, x, y);
      View(After(w, l, node, events), x, y)
      == if l == Link(y, x) then me.(record := node, wire := me.wire + Sends(events), log := me.log + events) else me
  {
  }

  /** So the receiver's view of the sender changes as `Hear` says, and every other view of every
      process stays as it was. */
  lemma HandIsHear(who: seq<Identity>, w: World, l: Link, d: Datagram, draw: nat, x: Addr, y: Addr)
    requires Shaped(who, w) && l.src < |who| && l.dst < |who| && l.src != l.dst && x < |who|
    ensures View(Hand(w, l, d, draw), x, y)
         == if l == Link(y, x) then Hear(View(w, x, y), y, d, draw) else View(w, x, y)
  {
    HandEffect(who, w, l, d, draw);
    var r := React(who[l.dst], l.src, Lookup(w.procs[l.dst].records, l.src), d, draw);
    AfterIsLocal(w, l, r.node, r.events, x, y);
  }

  lemma HearKeepsAddress(me: Identity, from: Addr, node: Option<Record>, d: Datagram, draw: nat)
    requires node.Some? ==> node.value.addr == from
    ensures var r := React(me, from, node, d, draw).node; r.Some? ==> r.value.addr == from
  {
  }

  /** A process ignores what it hears from itself. */
  lemma SelfIgnored(who: seq<Identity>, w: World, x: Addr, d: Datagram, draw: nat)
    requires Shaped(who, w) && x < |who| && d == Announcement(who[x].id)
    ensures Hand(w, Link(x, x), d, draw) == w
  {
    var t := Turn(w.procs[x], x, d, draw);
    assert x !in w.procs[x].records;
    assert t.events == [] && t.process == w.procs[x];
    assert w.procs[x := w.procs[x]] == w.procs;
    assert Log(w, Link(x, x)) + [] == Log(w, Link(x, x));
    assert w.logs[Link(x, x) := w.logs[Link(x, x)]] == w.logs;
  }

  lemma TakeIsDrop(w: World, l: Link, i: nat, x: Addr, y: Addr)
    requires l in w.wires && i < |w.wires[l]| && x < |w.procs|
    ensures View(Take(w, l, i), x, y) == if l == Link(x, y) then Drop(View(w, x, y), i) else View(w, x, y)
  {
  }

  lemma TakeKeepsShape(who: seq<Identity>, w: World, l: Link, i: nat)
    requires Shaped(who, w) && l in w.wires && i < |w.wires[l]|
    ensures Shaped(who, Take(w, l, i))
  {
    var w' := Take(w, l, i);
    forall x | 0 <= x < |who| ensures Alone(w', x) {
      assert Alone(w, x);
      var wire, wire' := Wire(w, Link(x, x)), Wire(w', Link(x, x));
      forall k | 0 <= k < |wire'| ensures wire'[k] == Announcement(w.procs[x].who.id) {
        assert wire'[k] == wire[if l == Link(x, x) && k >= i then k + 1 else k];
      }
    }
  }

  lemma BroadcastIsPutAll(net: Network, w: World, p: Addr)
    requires p < |w.procs|
    ensures Apply(net, w, Broadcast(p)) == PutAll(w, p, Announcement(w.procs[p].who.id))
  {
    assert Apply(net, w, Broadcast(p)) == PutAll(Emit(w, p, []), p, Announcement(w.procs[p].who.id));
  }

  lemma PutAllIsSay(w: World, p: Addr, d: Datagram, x: Addr, y: Addr)
    requires x < |w.procs| && Link(x, y) in w.wires
    ensures View(PutAll(w, p, d), x, y) == if x == p then Say(View(w, x, y), d) else View(w, x, y)
  {
  }

  lemma PutAllKeepsShape(who: seq<Identity>, w: World, p: Addr)
    requires Shaped(who, w) && p < |who|
    ensures Shaped(who, PutAll(w, p, Announcement(who[p].id)))
  {
    var d := Announcement(who[p].id);
    var w' := PutAll(w, p, d);
    forall x | 0 <= x < |who| ensures Alone(w', x) {
      assert Alone(w, x);
      assert Wire(w', Link(x, x)) == if x == p then Wire(w, Link(x, x)) + [d] else Wire(w, Link(x, x));
    }
  }
}
