/** The node table of src/Core.cpp: two indexes over the nodes it has created, by id and by
    address. `insert` does not overwrite, so each index keeps the first node of its key. */
module Nodes {
  import opened Options
  import opened PeerProtocol

  /** src/Node.hpp: id and address are never changed after construction. */
  class Node {
    const id: NodeId
    const addr: Addr
    var state: State
    var peerKey: Option<RsaKey>
    var tx: AesKey
    var rx: AesKey

    constructor (id: NodeId, addr: Addr)
      ensures this.id == id && this.addr == addr && Value() == NewRecord(id, addr)
    {
      this.id, this.addr := id, addr;
      state, peerKey, tx, rx := Initialised, None, Unset, Unset;
    }

    function Value(): Record
      reads this
    {
      Record(id, addr, state, peerKey, tx, rx)
    }
  }

  /** The first node of `log`, in order of creation, with that id; null if there is none. */
  function FirstById(log: seq<Node>, id: NodeId): Node? {
    if log == [] then null else
      var n, last := FirstById(log[..|log| - 1], id), log[|log| - 1];
      if n != null then n else if last.id == id then last else null
  }

  function FirstByAddr(log: seq<Node>, addr: Addr): Node? {
    if log == [] then null else
      var n, last := FirstByAddr(log[..|log| - 1], addr), log[|log| - 1];
      if n != null then n else if last.addr == addr then last else null
  }

  predicate FreshId(log: seq<Node>, id: NodeId) {
    forall i :: 0 <= i < |log| ==> log[i].id != id
  }

  predicate FreshAddr(log: seq<Node>, addr: Addr) {
    forall i :: 0 <= i < |log| ==> log[i].addr != addr
  }

  lemma {:induction false} FirstByIdIsFirst(log: seq<Node>, id: NodeId)
    ensures FirstById(log, id) == null <==> FreshId(log, id)
    ensures FirstById(log, id) != null ==>
      exists i :: 0 <= i < |log| && log[i] == FirstById(log, id) && log[i].id == id && FreshId(log[..i], id)
  {
    if log != [] {
      var rest := log[..|log| - 1];
      FirstByIdIsFirst(rest, id);
      assert forall i :: 0 <= i < |rest| ==> rest[i] == log[i];
      if FirstById(rest, id) != null {
        var i :| 0 <= i < |rest| && rest[i] == FirstById(rest, id) && rest[i].id == id && FreshId(rest[..i], id);
        assert log[i] == FirstById(log, id) && log[..i] == rest[..i];
      } else if log[|log| - 1].id == id {
        assert log[|log| - 1] == FirstById(log, id) && log[..|log| - 1] == rest;
      }
    }
  }

  lemma {:induction false} FirstByAddrIsFirst(log: seq<Node>, addr: Addr)
    ensures FirstByAddr(log, addr) == null <==> FreshAddr(log, addr)
    ensures FirstByAddr(log, addr) != null ==>
      exists i :: 0 <= i < |log| && log[i] == FirstByAddr(log, addr) && log[i].addr == addr && FreshAddr(log[..i], addr)
  {
    if log != [] {
      var rest := log[..|log| - 1];
      FirstByAddrIsFirst(rest, addr);
      assert forall i :: 0 <= i < |rest| ==> rest[i] == log[i];
      if FirstByAddr(rest, addr) != null {
        var i :| 0 <= i < |rest| && rest[i] == FirstByAddr(rest, addr) && rest[i].addr == addr
          && FreshAddr(rest[..i], addr);
        assert log[i] == FirstByAddr(log, addr) && log[..i] == rest[..i];
      } else if log[|log| - 1].addr == addr {
        assert log[|log| - 1] == FirstByAddr(log, addr) && log[..|log| - 1] == rest;
      }
    }
  }

  /** No address was ever added twice. */
  ghost predicate OnePerAddress(log: seq<Node>) {
    forall i, j :: 0 <= i < j < |log| ==> log[i].addr != log[j].addr
  }

  class Core {
    const me: Identity
    var nodes: map<NodeId, Node>
    var nodesByAddr: map<Addr, Node>
    /** Every node ever created, in order. */
    ghost var added: seq<Node>

    ghost predicate Valid()
      reads this
    {
      && (forall id: NodeId :: if id in nodes then nodes[id] == FirstById(added, id) else FirstById(added, id) == null)
      && (forall a: Addr ::
            if a in nodesByAddr then nodesByAddr[a] == FirstByAddr(added, a) else FirstByAddr(added, a) == null)
      && (forall a :: a in nodesByAddr ==> nodesByAddr[a].addr == a)
      && (forall id :: id in nodes ==> nodes[id].id == id)
    }

    constructor (me: Identity)
      ensures Valid() && this.me == me && added == [] && nodes == map[] && nodesByAddr == map[]
    {
      this.me, nodes, nodesByAddr, added := me, map[], map[], [];
    }

    method AddNode(id: NodeId, addr: Addr) returns (node: Node)
      requires Valid()
      modifies this
      ensures Valid() && fresh(node) && added == old(added) + [node]
      ensures node.Value() == NewRecord(id, addr)
      ensures nodes == if id in old(nodes) then old(nodes) else old(nodes)[id := node]
      ensures nodesByAddr == if addr in old(nodesByAddr) then old(nodesByAddr) else old(nodesByAddr)[addr := node]
    {
      node := new Node(id, addr);
      if id !in nodes { nodes := nodes[id := node]; }
      if addr !in nodesByAddr { nodesByAddr := nodesByAddr[addr := node]; }
      added := added + [node];
      assert added[..|added| - 1] == old(added);
    }

    method FindNode(id: NodeId) returns (node: Node?)
      requires Valid()
      ensures node == FirstById(added, id)
    {
      if id in nodes { return nodes[id]; }
      return null;
    }

    method FindNodeByAddr(addr: Addr) returns (node: Node?)
      requires Valid()
      ensures node == FirstByAddr(added, addr)
      ensures node == if addr in nodesByAddr then nodesByAddr[addr] else null
    {
      if addr in nodesByAddr { return nodesByAddr[addr]; }
      return null;
    }

    /** When no address is added twice, as `_receive` sees to, the address index holds every node
        ever created, exactly once, under its own address, whatever ids they carry. */
    lemma AddressIndexIsComplete()
      requires Valid() && OnePerAddress(added)
      ensures forall i :: 0 <= i < |added| ==> added[i].addr in nodesByAddr && nodesByAddr[added[i].addr] == added[i]
      ensures forall a :: a in nodesByAddr ==> nodesByAddr[a] in added
      ensures |nodesByAddr| == |added|
    {
      forall i | 0 <= i < |added|
        ensures added[i].addr in nodesByAddr && nodesByAddr[added[i].addr] == added[i]
      {
        FirstByAddrIsFirst(added, added[i].addr);
      }
      forall a | a in nodesByAddr ensures nodesByAddr[a] in added {
        FirstByAddrIsFirst(added, a);
      }
      CountAddresses(added, nodesByAddr.Keys);
    }
  }

  lemma {:induction false} CountAddresses(log: seq<Node>, addrs: set<Addr>)
    requires OnePerAddress(log)
    requires forall a :: a in addrs <==> exists i :: 0 <= i < |log| && log[i].addr == a
    ensures |addrs| == |log|
  {
    if log == [] {
      assert addrs == {};
    } else {
      var rest, last := log[..|log| - 1], log[|log| - 1];
      assert log[|log| - 1].addr in addrs;
      forall a ensures a in addrs - {last.addr} <==> exists i :: 0 <= i < |rest| && rest[i].addr == a {
        if a in addrs - {last.addr} {
          var i :| 0 <= i < |log| && log[i].addr == a;
          assert rest[i].addr == a;
        }
        if exists i :: 0 <= i < |rest| && rest[i].addr == a {
          var i :| 0 <= i < |rest| && rest[i].addr == a;
          assert log[i].addr == a;
        }
      }
      CountAddresses(rest, addrs - {last.addr});
    }
  }
}
