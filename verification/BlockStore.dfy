/** The consistent-hash ring of src/DistributedBlockStore.cpp: the state and its operations on
    values, the class that updates it in place, and what lookups promise. */
module BlockStore {
  import opened Rings
  import opened Arithmetic

  const REPLICAS: nat := 5

  datatype Capacity = Capacity(limit: U64, used: U64)

  /** `owner` maps virtual ids to node ids (`virtual_to_real`). */
  datatype Store = Store(ring: seq<U64>, owner: map<U64, U64>, capacities: map<U64, Capacity>)

  const EMPTY := Store([], map[], map[])

  /** Gives virtual ids to node `id`, taking them over if they have an owner. */
  function Claimed(s: Store, id: U64, vids: seq<U64>): Store {
    if vids == [] then s else
      var s' := Claimed(s, id, vids[..|vids| - 1]);
      var vid := vids[|vids| - 1];
      s'.(ring := Insert(s'.ring, vid), owner := s'.owner[vid := id])
  }

  function Added(s: Store, id: U64, vids: seq<U64>, limit: U64): Store {
    var s' := Claimed(s, id, vids);
    s'.(capacities := s'.capacities[id := Capacity(limit, 0)])
  }

  function Owned(s: Store, id: U64): set<U64> {
    set v | v in s.owner && s.owner[v] == id
  }

  function Others(s: Store, id: U64): set<U64> {
    set v | v in s.owner && s.owner[v] != id
  }

  function Removed(s: Store, id: U64): Store {
    Store(Filter(s.ring, Others(s, id)), s.owner - Owned(s, id), s.capacities - {id})
  }

  function Resized(s: Store, id: U64, limit: U64): Store {
    if id in s.capacities then s.(capacities := s.capacities[id := s.capacities[id].(limit := limit)]) else s
  }

  predicate Overloaded(s: Store, id: U64) {
    id in s.capacities && s.capacities[id].used >= s.capacities[id].limit
  }

  /** The virtual ids whose owner takes more blocks. */
  function Open(s: Store): set<U64> {
    set v | v in s.owner && !Overloaded(s, s.owner[v])
  }

  /** The position of the `i`-th virtual id a lookup inspects, wrapping around. */
  function Spot(ring: seq<U64>, block: U64, i: nat): (p: nat)
    requires ring != []
    ensures p < |ring|
  {
    (Start(ring, block) + i) % |ring|
  }

  /** The five virtual ids a lookup inspects. */
  function Window(ring: seq<U64>, block: U64): seq<U64>
    requires ring != []
  {
    seq(REPLICAS, i requires 0 <= i => ring[Spot(ring, block, i)])
  }

  lemma WindowIsFive(ring: seq<U64>, block: U64)
    requires ring != []
    ensures |Window(ring, block)| == REPLICAS
  {
  }

  lemma SpotsGoAround(ring: seq<U64>, block: U64, i: nat)
    requires ring != []
    ensures Spot(ring, block, 0) == Start(ring, block)
    ensures Spot(ring, block, i + 1) == Next(ring, Spot(ring, block, i))
  {
    hide Start;
    SmallMod(Start(ring, block), |ring|);
    NextMod(Start(ring, block) + i, |ring|);
  }

  function LookUp(s: Store, block: U64): seq<U64> {
    if s.ring == [] then [] else Filter(Window(s.ring, block), Open(s))
  }

  /** What every sequence of operations keeps. */
  ghost predicate Consistent(s: Store) {
    && Increasing(s.ring)
    && Elements(s.ring) == s.owner.Keys
    && (forall v :: v in s.owner ==> s.owner[v] in s.capacities)
    && (forall id :: id in s.capacities ==> s.capacities[id].used == 0)
  }

  // ---------------------------------------------------------------------------------------------
  // The state in every run

  lemma {:induction false} ClaimedIsConsistent(s: Store, id: U64, vids: seq<U64>)
    requires Increasing(s.ring) && Elements(s.ring) == s.owner.Keys
    ensures var s' := Claimed(s, id, vids);
      && Increasing(s'.ring) && Elements(s'.ring) == s'.owner.Keys == s.owner.Keys + Elements(vids)
      && (forall v :: v in s'.owner ==> s'.owner[v] == if v in vids then id else s.owner[v])
      && s'.capacities == s.capacities
  {
    hide Increasing, Insert;
    if vids != [] {
      var rest, vid := vids[..|vids| - 1], vids[|vids| - 1];
      ClaimedIsConsistent(s, id, rest);
      InsertAdds(Claimed(s, id, rest).ring, vid);
      assert vids == rest + [vid];
      ElementsAppend(rest, [vid]);
      assert Elements([vid]) == {vid};
    }
  }

  datatype Op = Add(id: U64, vids: seq<U64>, limit: U64) | Remove(id: U64) | Resize(id: U64, limit: U64)

  function Step(s: Store, op: Op): Store {
    match op
    case Add(id, vids, limit) => Added(s, id, vids, limit)
    case Remove(id) => Removed(s, id)
    case Resize(id, limit) => Resized(s, id, limit)
  }

  function After(s: Store, ops: seq<Op>): Store {
    if ops == [] then s else Step(After(s, ops[..|ops| - 1]), ops[|ops| - 1])
  }

  lemma StepIsConsistent(s: Store, op: Op)
    requires Consistent(s)
    ensures Consistent(Step(s, op))
  {
    match op
    case Add(id, vids, limit) => ClaimedIsConsistent(s, id, vids);
    case Remove(id) =>
      FilterElements(s.ring, Others(s, id));
      FilterIncreasing(s.ring, Others(s, id));
      assert forall v :: v in s.owner <==> v in Elements(s.ring);
    case Resize(id, limit) =>
  }

  /** Whatever operations follow the constructor: the ring is exactly the virtual ids that have an
      owner, so `at` never fails; every owner has a capacity entry, so the "not found" fallback is
      never taken; recorded usage stays 0, so overloaded means capacity 0. */
  lemma {:induction false} AlwaysConsistent(id: U64, vids: seq<U64>, limit: U64, ops: seq<Op>)
    ensures var s := After(Added(EMPTY, id, vids, limit), ops);
      && Consistent(s)
      && (forall v :: v in s.ring ==> v in s.owner && s.owner[v] in s.capacities)
      && (forall n :: Overloaded(s, n) <==> n in s.capacities && s.capacities[n].limit == 0)
  {
    if ops == [] {
      StepIsConsistent(EMPTY, Add(id, vids, limit));
    } else {
      AlwaysConsistent(id, vids, limit, ops[..|ops| - 1]);
      StepIsConsistent(After(Added(EMPTY, id, vids, limit), ops[..|ops| - 1]), ops[|ops| - 1]);
    }
    var s := After(Added(EMPTY, id, vids, limit), ops);
    assert forall v :: v in s.ring <==> v in Elements(s.ring);
  }

  /** The whole state after each operation, virtual id by virtual id and node by node. */
  lemma StateAfter(s: Store, op: Op)
    requires Consistent(s)
    ensures var s' := Step(s, op);
      match op
      case Add(id, vids, limit) =>
        && (forall v :: v in s'.ring <==> v in s.ring || v in vids)
        && (forall v :: v in s'.owner <==> v in s.owner || v in vids)
        && (forall v :: v in s'.owner ==> s'.owner[v] == if v in vids then id else s.owner[v])
        && (forall n :: n in s'.capacities <==> n in s.capacities || n == id)
        && (forall n :: n in s'.capacities ==>
              s'.capacities[n] == if n == id then Capacity(limit, 0) else s.capacities[n])
      case Remove(id) =>
        && (forall v :: v in s'.ring <==> v in s.ring && v in s.owner && s.owner[v] != id)
        && (forall v :: v in s'.owner <==> v in s.owner && s.owner[v] != id)
        && (forall v :: v in s'.owner ==> s'.owner[v] == s.owner[v])
        && (forall n :: n in s'.capacities <==> n in s.capacities && n != id)
        && (forall n :: n in s'.capacities ==> s'.capacities[n] == s.capacities[n])
      case Resize(id, limit) =>
        && s'.ring == s.ring && s'.owner == s.owner
        && (forall n :: n in s'.capacities <==> n in s.capacities)
        && (forall n :: n in s'.capacities ==>
              && s'.capacities[n].used == s.capacities[n].used
              && s'.capacities[n].limit == if n == id then limit else s.capacities[n].limit)
  {
    hide Increasing, Claimed, Filter;
    match op
    case Add(id, vids, limit) =>
      ClaimedIsConsistent(s, id, vids);
      var s' := Step(s, op);
      assert forall v :: v in s'.ring <==> v in Elements(s'.ring);
      assert forall v :: v in s.ring <==> v in Elements(s.ring);
      assert forall v :: v in vids <==> v in Elements(vids);
    case Remove(id) => FilterElements(s.ring, Others(s, id));
    case Resize(id, limit) =>
  }

  /** What each operation does to which virtual ids serve blocks: the node's own serve exactly if
      its new capacity is not 0, those it has lost no longer do, and nobody else's change. */
  lemma OpenAfter(s: Store, op: Op, v: U64)
    requires Consistent(s)
    ensures v in Open(Step(s, op)) <==>
      match op
      case Add(id, vids, limit) =>
        if v in vids || v in Owned(s, id) then limit > 0 else v in Open(s)
      case Remove(id) => v in Open(s) && v !in Owned(s, id)
      case Resize(id, limit) => if v in Owned(s, id) then limit > 0 else v in Open(s)
  {
    hide Increasing, Claimed, Filter;
    match op
    case Add(id, vids, limit) => ClaimedIsConsistent(s, id, vids);
    case Remove(id) =>
    case Resize(id, limit) =>
  }

  // ---------------------------------------------------------------------------------------------
  // What a lookup returns

  /** `w` follows `v` clockwise on the ring. */
  ghost predicate Follows(ring: seq<U64>, v: U64, w: U64) {
    && v in ring && w in ring
    && if exists u :: u in ring && u > v
       then w > v && forall u :: u in ring && u > v ==> w <= u
       else forall u :: u in ring ==> w <= u
  }

  /** `v` is the first virtual id at or after the block or, if there is none, the first of all. */
  ghost predicate Leads(ring: seq<U64>, block: U64, v: U64) {
    && v in ring
    && if exists u :: u in ring && u >= block
       then v >= block && forall u :: u in ring && u >= block ==> v <= u
       else forall u :: u in ring ==> v <= u
  }

  lemma StartLeads(ring: seq<U64>, block: U64)
    requires Increasing(ring) && ring != []
    ensures Leads(ring, block, ring[Start(ring, block)])
  {
    hide LowerBound;
    var i := LowerBound(ring, block);
    if i < |ring| {
      assert forall j :: i <= j < |ring| ==> ring[i] <= ring[j];
      assert ring[i] in ring;
    }
  }

  /** The window starts at the first virtual id at or after the block, and each of its entries
      follows the one before it. */
  lemma WindowGoesAround(ring: seq<U64>, block: U64)
    requires Increasing(ring) && ring != []
    ensures var w := Window(ring, block);
      && |w| == REPLICAS && Leads(ring, block, w[0])
      && (forall i :: 0 <= i < REPLICAS - 1 ==> Follows(ring, w[i], w[i + 1]))
  {
    hide Spot, Start, Follows, Leads;
    var w := Window(ring, block);
    SpotsGoAround(ring, block, 0);
    StartLeads(ring, block);
    forall i | 0 <= i < REPLICAS - 1 ensures Follows(ring, w[i], w[i + 1]) {
      SpotsGoAround(ring, block, i);
      NextFollows(ring, Spot(ring, block, i));
    }
  }

  lemma NextMod(x: nat, n: nat)
    requires n > 0
    ensures (x + 1) % n == if x % n + 1 == n then 0 else x % n + 1
  {
    var r := x % n + 1;
    if r == n {
      SameRemainder(n, (x + 1) / n, (x + 1) % n, x / n + 1, 0);
    } else {
      SameRemainder(n, (x + 1) / n, (x + 1) % n, x / n, r);
    }
  }

  lemma NextFollows(ring: seq<U64>, a: nat)
    requires Increasing(ring) && a < |ring|
    ensures Follows(ring, ring[a], ring[Next(ring, a)])
  {
    if a + 1 < |ring| {
      assert ring[a + 1] > ring[a];
    }
  }

  /** The window is the walk the loop makes. */
  lemma WindowIsWalk(ring: seq<U64>, block: U64)
    requires ring != []
    ensures Window(ring, block) == Walk(ring, Start(ring, block), REPLICAS)
  {
    forall i | 0 <= i < REPLICAS ensures Window(ring, block)[i] == Walk(ring, Start(ring, block), REPLICAS)[i] {
      WalkAt(ring, Start(ring, block), REPLICAS, i);
    }
  }

  predicate Distinct(s: seq<U64>) {
    forall i, j :: 0 <= i < j < |s| ==> s[i] != s[j]
  }

  lemma {:induction false} FilterDistinct(s: seq<U64>, keep: set<U64>)
    requires Distinct(s)
    ensures Distinct(Filter(s, keep))
  {
    if s != [] {
      FilterDistinct(s[1..], keep);
      FilterElements(s[1..], keep);
      assert s[0] !in s[1..];
    }
  }

  /** Positions less than a turn apart are different, and a whole turn meets every position. */
  lemma TurnIsOnce(p: nat, i: nat, j: nat, n: nat)
    requires i < j < i + n
    ensures (p + i) % n != (p + j) % n
  {
    var a, b := p + i, p + j;
    assert n * (b / n - a / n) == j - i - (b % n - a % n);
    AtLeastOnce(n, b / n - a / n);
  }

  lemma TurnIsWhole(p: nat, k: nat, n: nat) returns (i: nat)
    requires p < n && k < n
    ensures i < n && (p + i) % n == k
  {
    SmallMod(k, n);
    if k >= p {
      i := k - p;
    } else {
      i := k + n - p;
      ModWrap(k, n);
    }
  }

  lemma WindowIsDistinct(ring: seq<U64>, block: U64)
    requires Increasing(ring) && |ring| >= REPLICAS
    ensures Distinct(Window(ring, block))
  {
    hide Start, Spot;
    var w := Window(ring, block);
    forall i, j | 0 <= i < j < REPLICAS ensures w[i] != w[j] {
      SpotsDiffer(ring, block, i, j);
      var p, q := Spot(ring, block, i), Spot(ring, block, j);
      assert if p < q then ring[p] < ring[q] else ring[q] < ring[p];
    }
  }

  lemma SpotsDiffer(ring: seq<U64>, block: U64, i: nat, j: nat)
    requires i < j < i + |ring|
    ensures Spot(ring, block, i) != Spot(ring, block, j)
  {
    hide Start;
    TurnIsOnce(Start(ring, block), i, j, |ring|);
  }

  lemma WindowCovers(ring: seq<U64>, block: U64, v: U64)
    requires 0 < |ring| <= REPLICAS && v in ring
    ensures v in Window(ring, block)
  {
    hide Start;
    var k :| 0 <= k < |ring| && ring[k] == v;
    var i := TurnIsWhole(Start(ring, block), k, |ring|);
    assert Window(ring, block)[i] == v;
  }

  /** At most five replicas, all open; no virtual id twice on a ring of five or more; every open
      virtual id on a ring of five or fewer. */
  lemma LookUpShape(s: Store, block: U64)
    requires Consistent(s)
    ensures var found := LookUp(s, block);
      && |found| <= REPLICAS
      && (forall v :: v in found ==> v in Open(s))
      && (|s.ring| >= REPLICAS ==> Distinct(found))
      && (|s.ring| <= REPLICAS ==> forall v :: v in Open(s) ==> v in found)
  {
    assert forall v :: v in Open(s) ==> v in Elements(s.ring);
    if s.ring != [] {
      hide Increasing, Filter, Spot, Open, Distinct;
      var w := Window(s.ring, block);
      FilterElements(w, Open(s));
      if |s.ring| >= REPLICAS {
        WindowIsDistinct(s.ring, block);
        FilterDistinct(w, Open(s));
      }
      if |s.ring| <= REPLICAS {
        forall v | v in Open(s) ensures v in w {
          WindowCovers(s.ring, block, v);
        }
      }
    }
  }

  // ---------------------------------------------------------------------------------------------
  // Stability

  /** Dropping virtual ids from the ring: as far as a lookup before found virtual ids of `watch`,
      one after finds them, in the same order and before any others of `watch`. */
  lemma ThinnedLookUp(s: Store, s': Store, keep: set<U64>, watch: set<U64>, block: U64)
    requires Consistent(s) && s'.ring == Filter(s.ring, keep) && watch <= keep
    requires forall v :: v in s.ring && v in watch ==> (v in Open(s) <==> v in Open(s'))
    ensures Filter(LookUp(s, block), watch) <= Filter(LookUp(s', block), watch)
  {
    if s.ring != [] {
      hide Open, Start, Increasing;
      var r, r', p := s.ring, s'.ring, Start(s.ring, block);
      var w := Walk(r, p, REPLICAS);
      WindowIsWalk(r, block);
      WalkStaysIn(r, p, REPLICAS);
      var f, both := Filter(w, keep), Open(s') * watch;
      FilterTwice(w, Open(s), watch, keep, both);
      if r' == [] {
        FilterElements(r, keep);
        NoneLeft(w, keep);
      } else {
        var w' := Walk(r', Start(r', block), REPLICAS);
        FilteredWalk(r, keep, p, REPLICAS);
        StartAmong(r, keep, block);
        FilterElements(w, keep);
        WalkPrefix(r', Start(r', block), |f|, REPLICAS);
        WindowIsWalk(r', block);
        FilterPrefix(f, w', both);
        FilterAtOnce(w', Open(s'), watch);
      }
    }
  }

  /** And if nothing else is left on the ring, before any others at all. */
  lemma FilteredLookUp(s: Store, s': Store, keep: set<U64>, block: U64)
    requires Consistent(s) && s'.ring == Filter(s.ring, keep)
    requires forall v :: v in s.owner && v in keep ==> (v in Open(s) <==> v in Open(s'))
    ensures Filter(LookUp(s, block), keep) <= LookUp(s', block)
  {
    assert forall v :: v in s.ring ==> v in Elements(s.ring);
    ThinnedLookUp(s, s', keep, keep, block);
    FilterElements(s.ring, keep);
    FoundOnRing(s', block);
    AllLeft(LookUp(s', block), keep);
  }

  lemma FoundOnRing(s: Store, block: U64)
    ensures forall v :: v in LookUp(s, block) ==> v in s.ring
  {
    if s.ring != [] {
      FilterElements(Window(s.ring, block), Open(s));
    }
  }

  /** Removing a node never loses or reorders a surviving replica: the old result without the
      node's virtual ids is a prefix of the new one, on rings of any size. */
  lemma RemovalIsStable(s: Store, id: U64, block: U64)
    requires Consistent(s)
    ensures Filter(LookUp(s, block), Others(s, id)) <= LookUp(Removed(s, id), block)
  {
    FilteredLookUp(s, Removed(s, id), Others(s, id), block);
  }

  /** The node id is unknown and none of its virtual ids is on the ring. */
  predicate Fresh(s: Store, id: U64, vids: seq<U64>) {
    id !in s.capacities && forall v :: v in vids ==> v !in s.ring
  }

  lemma FreshIsRestored(s: Store, id: U64, vids: seq<U64>, limit: U64)
    requires Consistent(s) && Fresh(s, id, vids)
    ensures Removed(Added(s, id, vids, limit), id) == s
  {
    hide Claimed, Filter;
    var a := Added(s, id, vids, limit);
    var b := Removed(a, id);
    ClaimedIsConsistent(s, id, vids);
    assert forall v :: v in s.owner <==> v in Elements(s.ring);
    assert forall v :: v in a.owner <==> v in Elements(a.ring);
    assert Others(a, id) == s.owner.Keys;
    assert b.owner == s.owner && b.capacities == s.capacities;
    FilterElements(a.ring, Others(a, id));
    FilterIncreasing(a.ring, Others(a, id));
    assert Elements(b.ring) == Elements(s.ring);
    IncreasingIsUnique(b.ring, s.ring);
  }

  /** Adding a node and then removing it restores the store exactly if and only if the node was
      fresh: a known id would lose its capacity, a taken virtual id its owner. */
  lemma AddThenRemove(s: Store, id: U64, vids: seq<U64>, limit: U64)
    requires Consistent(s)
    ensures Removed(Added(s, id, vids, limit), id) == s <==> Fresh(s, id, vids)
  {
    var a := Added(s, id, vids, limit);
    if Fresh(s, id, vids) {
      FreshIsRestored(s, id, vids, limit);
    } else if id !in s.capacities {
      var v :| v in vids && v in s.ring;
      ClaimedIsConsistent(s, id, vids);
      FilterElements(a.ring, Others(a, id));
      assert v !in Removed(a, id).ring;
    }
  }

  /** The virtual ids that a node, added as `id` with `vids`, leaves alone: not taken over by it,
      and not already its own. */
  function LeftAlone(s: Store, id: U64, vids: seq<U64>): set<U64> {
    Others(s, id) - Elements(vids)
  }

  /** Adding a node, known or not, whatever it takes over, only ever pushes replicas out at the end:
      of the virtual ids it leaves alone, the new result finds a prefix of those the old one found. A
      fresh node leaves all alone. */
  lemma AdditionIsStable(s: Store, id: U64, vids: seq<U64>, limit: U64, block: U64)
    requires Consistent(s)
    ensures var a, alone := Added(s, id, vids, limit), LeftAlone(s, id, vids);
      Filter(LookUp(a, block), alone) <= Filter(LookUp(s, block), alone)
    ensures Fresh(s, id, vids) ==> Filter(LookUp(Added(s, id, vids, limit), block), s.owner.Keys) <= LookUp(s, block)
  {
    hide LookUp;
    var a, alone := Added(s, id, vids, limit), LeftAlone(s, id, vids);
    StepIsConsistent(s, Add(id, vids, limit));
    OldRing(s, id, vids, limit);
    forall v | v in a.ring && v in alone ensures v in Open(a) <==> v in Open(s) {
      OpenAfter(s, Add(id, vids, limit), v);
    }
    ThinnedLookUp(a, s, s.owner.Keys, alone, block);
    if Fresh(s, id, vids) {
      assert alone == s.owner.Keys by {
        forall v ensures v in alone <==> v in s.owner { assert v in s.owner <==> v in Elements(s.ring); }
      }
      FoundOnRing(s, block);
      assert forall v :: v in s.ring ==> v in Elements(s.ring);
      AllLeft(LookUp(s, block), alone);
    }
  }

  /** The old ring is the new one without what was not there. */
  lemma OldRing(s: Store, id: U64, vids: seq<U64>, limit: U64)
    requires Consistent(s)
    ensures s.ring == Filter(Added(s, id, vids, limit).ring, s.owner.Keys)
  {
    hide Claimed, Filter;
    var a := Added(s, id, vids, limit);
    ClaimedIsConsistent(s, id, vids);
    FilterElements(a.ring, s.owner.Keys);
    FilterIncreasing(a.ring, s.owner.Keys);
    assert forall v :: v in s.owner <==> v in Elements(s.ring);
    assert forall v :: v in s.owner ==> v in Elements(a.ring);
    IncreasingIsUnique(Filter(a.ring, s.owner.Keys), s.ring);
  }

  /** Changing a node's capacity changes a lookup only in that node's own virtual ids. */
  lemma ResizeIsLocal(s: Store, id: U64, limit: U64, block: U64)
    requires Consistent(s)
    ensures Filter(LookUp(Resized(s, id, limit), block), Others(s, id)) == Filter(LookUp(s, block), Others(s, id))
  {
    if s.ring != [] {
      var s', w := Resized(s, id, limit), Window(s.ring, block);
      FilterTwice(w, Open(s'), Others(s, id), Open(s), Others(s, id));
    }
  }

  // ---------------------------------------------------------------------------------------------
  // The class

  class DistributedBlockStore {
    var ring: seq<U64>
    var virtualToReal: map<U64, U64>
    var nodeCapacities: map<U64, Capacity>

    function Value(): Store
      reads this
    {
      Store(ring, virtualToReal, nodeCapacities)
    }

    constructor (id: U64, virtualIds: seq<U64>, capacity: U64)
      ensures Value() == Added(EMPTY, id, virtualIds, capacity) && Consistent(Value())
    {
      ring, virtualToReal, nodeCapacities := [], map[], map[];
      new;
      assert Value() == EMPTY;
      AddNode(id, virtualIds, capacity);
    }

    method AddNode(id: U64, virtualIds: seq<U64>, capacity: U64)
      requires Consistent(Value())
      modifies this
      ensures Value() == Added(old(Value()), id, virtualIds, capacity) && Consistent(Value())
    {
      for i := 0 to |virtualIds|
        invariant Value() == Claimed(old(Value()), id, virtualIds[..i])
      {
        assert virtualIds[..i + 1][..i] == virtualIds[..i];
        var vid := virtualIds[i];
        ring := Insert(ring, vid);
        virtualToReal := virtualToReal[vid := id];
      }
      assert virtualIds[..|virtualIds|] == virtualIds;
      nodeCapacities := nodeCapacities[id := Capacity(capacity, 0)];
      StepIsConsistent(old(Value()), Add(id, virtualIds, capacity));
    }

    /** Visits every entry once, in no particular order, erasing as it goes. */
    method RemoveNode(id: U64)
      requires Consistent(Value())
      modifies this
      ensures Value() == Removed(old(Value()), id) && Consistent(Value())
    {
      hide LowerBound, Erase, Filter, Increasing;
      var todo := virtualToReal.Keys;
      while todo != {}
        invariant todo <= virtualToReal.Keys
        invariant Increasing(ring) && Elements(ring) == virtualToReal.Keys
        invariant forall v :: v in virtualToReal <==>
          v in old(virtualToReal) && (v in todo || old(virtualToReal)[v] != id)
        invariant forall v :: v in virtualToReal ==> virtualToReal[v] == old(virtualToReal)[v]
        invariant nodeCapacities == old(nodeCapacities)
      {
        var v :| v in todo;
        if virtualToReal[v] == id {
          EraseRemoves(ring, v);
          ring := Erase(ring, v);
          virtualToReal := virtualToReal - {v};
        }
        todo := todo - {v};
      }
      nodeCapacities := nodeCapacities - {id};
      StepIsConsistent(old(Value()), Remove(id));
      assert virtualToReal == Removed(old(Value()), id).owner;
      IncreasingIsUnique(ring, Removed(old(Value()), id).ring);
    }

    method UpdateNodeCapacity(id: U64, newCapacity: U64)
      requires Consistent(Value())
      modifies this`nodeCapacities
      ensures Value() == Resized(old(Value()), id, newCapacity) && Consistent(Value())
    {
      if id in nodeCapacities {
        nodeCapacities := nodeCapacities[id := nodeCapacities[id].(limit := newCapacity)];
      }
    }

    method CheckNodeOverloaded(id: U64) returns (overloaded: bool)
      ensures overloaded == Overloaded(Value(), id)
      ensures overloaded <==> id in nodeCapacities && nodeCapacities[id].limit <= nodeCapacities[id].used
    {
      if id in nodeCapacities {
        return nodeCapacities[id].used >= nodeCapacities[id].limit;
      }
      return false;
    }

    /** `it` is the iterator: a position of the ring. */
    method GetNodesForBlock(block: U64) returns (nodes: seq<U64>)
      requires Consistent(Value())
      ensures nodes == LookUp(Value(), block)
    {
      nodes := [];
      if ring == [] { return; }
      var it := LowerBound(ring, block);
      if it == |ring| { it := 0; }
      SpotsGoAround(ring, block, 0);
      hide LowerBound, Start, Spot, Consistent, Filter, Open, Window;
      ghost var s, w := Value(), Window(ring, block);
      assert |w| == REPLICAS by { WindowIsFive(ring, block); }
      NoneLeft([], Open(s));
      var i := 0;
      while i < REPLICAS && it != |ring|
        invariant 0 <= i <= REPLICAS && it < |ring|
        invariant it == Spot(ring, block, i)
        invariant nodes == Filter(w[..i], Open(s))
        decreases REPLICAS - i
      {
        OneMore(s, block, i);
        var overloaded := CheckNodeOverloaded(virtualToReal[ring[it]]);
        if !overloaded {
          nodes := nodes + [ring[it]];
        }
        it := it + 1;
        if it == |ring| { it := 0; }
        i := i + 1;
      }
      assert w[..REPLICAS] == w;
    }
  }

  /** One round of the loop. */
  lemma OneMore(s: Store, block: U64, i: nat)
    requires Consistent(s) && s.ring != [] && i < REPLICAS
    ensures var w, it := Window(s.ring, block), Spot(s.ring, block, i);
      && s.ring[it] in s.owner
      && Spot(s.ring, block, i + 1) == Next(s.ring, it)
      && Filter(w[..i + 1], Open(s))
         == Filter(w[..i], Open(s)) + (if Overloaded(s, s.owner[s.ring[it]]) then [] else [s.ring[it]])
  {
    hide Spot;
    var w := Window(s.ring, block);
    SpotsGoAround(s.ring, block, i);
    assert w[i] in Elements(s.ring);
    assert w[..i + 1] == w[..i] + [w[i]];
    FilterAppend(w[..i], [w[i]], Open(s));
    FilterOne(w[i], Open(s));
  }
}
