/** What a lookup of src/DistributedBlockStore.cpp returns, in terms of clockwise distance from the
    block alone: which virtual ids, how often, and in which order. */
module Lookups {
  import opened Rings
  import opened Arithmetic
  import opened BlockStore

  /** How far `v` lies clockwise of the block, on the circle of 64-bit numbers. */
  function Distance(block: U64, v: U64): nat {
    (v - block) % 0x1_0000_0000_0000_0000
  }

  /** The virtual ids of the ring that are strictly nearer to the block than `v`. */
  ghost function Nearer(ring: seq<U64>, block: U64, v: U64): set<U64> {
    set u | u in ring && Distance(block, u) < Distance(block, v)
  }

  ghost predicate Clockwise(block: U64, s: seq<U64>) {
    forall i, j :: 0 <= i < j < |s| ==> Distance(block, s[i]) < Distance(block, s[j])
  }

  // ---------------------------------------------------------------------------------------------
  // The ring in clockwise order

  /** The ring, read from the block on. */
  function FromBlock(ring: seq<U64>, block: U64): (c: seq<U64>)
    requires ring != []
    ensures |c| == |ring|
  {
    ring[Start(ring, block)..] + ring[..Start(ring, block)]
  }

  lemma DistanceIs(block: U64, v: U64)
    ensures Distance(block, v) == if v >= block then v - block else v - block + 0x1_0000_0000_0000_0000
  {
  }

  lemma FromBlockIsClockwise(ring: seq<U64>, block: U64)
    requires Increasing(ring) && ring != []
    ensures Clockwise(block, FromBlock(ring, block))
    ensures forall v :: v in FromBlock(ring, block) <==> v in ring
  {
    hide Distance, Increasing;
    var p, c := Start(ring, block), FromBlock(ring, block);
    forall i, j | 0 <= i < j < |c| ensures Distance(block, c[i]) < Distance(block, c[j]) {
      AcrossTheBlock(ring, block, p, i, j);
      Further(block, c[i], c[j]);
    }
    assert ring == ring[..p] + ring[p..];
  }

  /** Read from the block on, the ring rises, but for one fall from above the block to below it. */
  lemma AcrossTheBlock(ring: seq<U64>, block: U64, p: nat, i: nat, j: nat)
    requires Increasing(ring) && ring != [] && p == Start(ring, block) && i < j < |ring|
    ensures var c := ring[p..] + ring[..p];
      (c[i] < c[j] && (c[i] >= block <==> c[j] >= block)) || (c[i] >= block > c[j])
  {
    FromBound(ring, block);
  }

  lemma Further(block: U64, v: U64, w: U64)
    requires (v < w && (v >= block <==> w >= block)) || v >= block > w
    ensures Distance(block, v) < Distance(block, w)
  {
    DistanceIs(block, v);
    DistanceIs(block, w);
  }

  /** The `i`-th element in clockwise order has exactly `i` elements nearer than itself. */
  lemma NearerCount(ring: seq<U64>, block: U64, i: nat)
    requires Increasing(ring) && i < |ring|
    ensures |Nearer(ring, block, FromBlock(ring, block)[i])| == i
  {
    var c := FromBlock(ring, block);
    FromBlockIsClockwise(ring, block);
    hide FromBlock, Distance, Increasing, Distinct;
    assert Nearer(ring, block, c[i]) == Elements(c[..i]) by {
      forall u ensures u in Nearer(ring, block, c[i]) <==> u in Elements(c[..i]) {
        NearerIsBefore(ring, block, c, i, u);
      }
    }
    ClockwiseIsDistinct(block, c[..i]);
    DistinctCount(c[..i]);
  }

  lemma NearerIsBefore(ring: seq<U64>, block: U64, c: seq<U64>, i: nat, u: U64)
    requires Clockwise(block, c) && (forall v :: v in c <==> v in ring) && i < |c|
    ensures u in Nearer(ring, block, c[i]) <==> u in c[..i]
  {
    hide Distance;
    if u in Nearer(ring, block, c[i]) {
      var j :| 0 <= j < |c| && c[j] == u;
      assert j < i;
      assert c[..i][j] == u;
    }
    if u in c[..i] {
      var j :| 0 <= j < i && c[..i][j] == u;
      assert c[j] == u;
    }
  }

  lemma {:induction false} DistinctCount(s: seq<U64>)
    requires Distinct(s)
    ensures |Elements(s)| == |s|
  {
    if s != [] {
      DistinctCount(s[1..]);
      assert s == [s[0]] + s[1..];
      assert Elements(s) == {s[0]} + Elements(s[1..]);
    }
  }

  // ---------------------------------------------------------------------------------------------
  // Going round and round

  /** `k` elements, reading `c` again and again. */
  function Cycle(c: seq<U64>, k: nat): (r: seq<U64>)
    requires c != []
    ensures |r| == k
    decreases k
  {
    if k < |c| then c[..k] else c + Cycle(c, k - |c|)
  }

  lemma {:induction false} CycleAt(ring: seq<U64>, p: nat, k: nat, i: nat)
    requires p < |ring| && i < k
    ensures Cycle(ring[p..] + ring[..p], k)[i] == ring[(p + i) % |ring|]
    decreases k
  {
    var n, c := |ring|, ring[p..] + ring[..p];
    if i < n {
      assert Cycle(c, k)[i] == c[i];
      if p + i < n { SmallMod(p + i, n); } else { SmallMod(p + i - n, n); ModWrap(p + i - n, n); }
    } else {
      CycleAt(ring, p, k - n, i - n);
      ModWrap(p + i - n, n);
    }
  }

  lemma WindowIsCycle(ring: seq<U64>, block: U64)
    requires ring != []
    ensures Window(ring, block) == Cycle(FromBlock(ring, block), REPLICAS)
  {
    forall i | 0 <= i < REPLICAS ensures Window(ring, block)[i] == Cycle(FromBlock(ring, block), REPLICAS)[i] {
      CycleAt(ring, Start(ring, block), REPLICAS, i);
    }
  }

  lemma {:induction false} FilterCycle(c: seq<U64>, keep: set<U64>, k: nat)
    requires Filter(c, keep) != []
    ensures var f := Filter(Cycle(c, k), keep);
      f == Cycle(Filter(c, keep), |f|)
    decreases k
  {
    var d := Filter(c, keep);
    if k < |c| {
      FilterPrefix(c[..k], c, keep);
      var f := Filter(c[..k], keep);
      if |f| == |d| { assert Cycle(d, 0) == []; }
    } else {
      FilterCycle(c, keep, k - |c|);
      FilterAppend(c, Cycle(c, k - |c|), keep);
    }
  }

  lemma {:induction false} CycleRepeats(c: seq<U64>, k: nat, j: nat)
    requires c != [] && j < k
    ensures j < |c| ==> Cycle(c, k)[j] == c[j]
    ensures j + |c| < k ==> Cycle(c, k)[j + |c|] == Cycle(c, k)[j]
    decreases k
  {
    if j >= |c| {
      CycleRepeats(c, k - |c|, j - |c|);
    } else if j + |c| < k {
      CycleRepeats(c, k - |c|, j);
    }
  }

  lemma DivStep(k: nat, n: nat)
    requires k >= n > 0
    ensures k / n == (k - n) / n + 1 && k % n == (k - n) % n
  {
    ModWrap(k - n, n);
    var q, q' := k / n, (k - n) / n + 1;
    assert n * (q - q') == 0;
    AtLeastOnce(n, q - q');
  }

  /** How often an element is met: once in every full round, and once more if it is met in the
      last, broken one. */
  lemma {:induction false} CycleCounts(c: seq<U64>, k: nat, i: nat)
    requires Distinct(c) && i < |c|
    ensures multiset(Cycle(c, k))[c[i]] == k / |c| + if i < k % |c| then 1 else 0
    decreases k
  {
    var n := |c|;
    if k < n {
      SmallMod(k, n);
      assert k / n == 0;
      PrefixCounts(c, k, i);
    } else {
      DivStep(k, n);
      CycleCounts(c, k - n, i);
      PrefixCounts(c, n, i);
      assert c[..n] == c;
    }
  }

  lemma {:induction false} PrefixCounts(c: seq<U64>, k: nat, i: nat)
    requires Distinct(c) && i < |c| && k <= |c|
    ensures multiset(c[..k])[c[i]] == if i < k then 1 else 0
  {
    if k > 0 {
      PrefixCounts(c, k - 1, i);
      assert c[..k] == c[..k - 1] + [c[k - 1]];
    }
  }

  lemma {:induction false} FilterCounts(s: seq<U64>, keep: set<U64>, v: U64)
    ensures multiset(Filter(s, keep))[v] == if v in keep then multiset(s)[v] else 0
  {
    if s != [] {
      FilterCounts(s[1..], keep, v);
      assert s == [s[0]] + s[1..];
    }
  }

  // ---------------------------------------------------------------------------------------------
  // What a lookup returns

  /** How often a lookup returns a virtual id, on a ring of `n`: the five replicas go round the ring
      `5 / n` times, and the `5 % n` nearest are met once more. */
  ghost function Times(s: Store, block: U64, v: U64): nat
    requires s.ring != []
  {
    if v in Open(s) then
      5 / |s.ring| + (if |Nearer(s.ring, block, v)| < 5 % |s.ring| then 1 else 0)
    else 0
  }

  lemma FoundTimes(s: Store, block: U64, v: U64)
    requires Consistent(s) && s.ring != []
    ensures multiset(LookUp(s, block))[v] == Times(s, block, v)
  {
    hide Open, Increasing, FromBlock, Nearer, Clockwise, Window;
    var c := FromBlock(s.ring, block);
    FromBlockIsClockwise(s.ring, block);
    WindowIsCycle(s.ring, block);
    FilterCounts(Cycle(c, REPLICAS), Open(s), v);
    if v in Open(s) {
      OpenOnRing(s, v);
      var i :| 0 <= i < |c| && c[i] == v;
      ClockwiseIsDistinct(block, c);
      CycleCounts(c, REPLICAS, i);
      NearerCount(s.ring, block, i);
    }
  }

  lemma OpenOnRing(s: Store, v: U64)
    requires Consistent(s) && v in Open(s)
    ensures v in s.ring
  {
    assert v in Elements(s.ring);
  }

  lemma ClockwiseIsDistinct(block: U64, s: seq<U64>)
    requires Clockwise(block, s)
    ensures Distinct(s)
  {
  }

  /** The first turn of a lookup goes clockwise from the block, and every further one repeats it. */
  lemma FoundInOrder(s: Store, block: U64)
    requires Consistent(s)
    ensures var found, m := LookUp(s, block), |Open(s)|;
      && (forall i, j :: 0 <= i < j < |found| && j < m ==> Distance(block, found[i]) < Distance(block, found[j]))
      && (forall i, j :: 0 <= i < |found| && j == i + m && j < |found| ==> found[j] == found[i])
  {
    if s.ring != [] {
      hide Open, Increasing, FromBlock, Window, Distance, Filter, Distinct;
      var c := FromBlock(s.ring, block);
      var d, found := Filter(c, Open(s)), LookUp(s, block);
      FromBlockIsClockwise(s.ring, block);
      WindowIsCycle(s.ring, block);
      FilterClockwise(block, c, Open(s));
      ClockwiseIsDistinct(block, d);
      FilterElements(c, Open(s));
      assert Elements(d) == Open(s) by {
        forall v | v in Open(s) ensures v in d { OpenOnRing(s, v); }
      }
      DistinctCount(d);
      if d == [] {
        NothingOpen(s, block, c);
      } else {
        FilterCycle(c, Open(s), REPLICAS);
        forall j | 0 <= j < |found|
          ensures j < |d| ==> found[j] == d[j]
          ensures j + |d| < |found| ==> found[j + |d|] == found[j]
        {
          CycleRepeats(d, |found|, j);
        }
      }
    }
  }

  lemma NothingOpen(s: Store, block: U64, c: seq<U64>)
    requires Consistent(s) && s.ring != [] && Elements([]) == Open(s)
    ensures LookUp(s, block) == []
  {
    NoneLeft(Window(s.ring, block), Open(s));
  }

  lemma {:induction false} FilterClockwise(block: U64, c: seq<U64>, keep: set<U64>)
    requires Clockwise(block, c)
    ensures Clockwise(block, Filter(c, keep))
  {
    if c != [] {
      var rest := c[1..];
      FilterClockwise(block, rest, keep);
      FilterElements(rest, keep);
      var f := Filter(rest, keep);
      forall j | 0 <= j < |f| ensures Distance(block, c[0]) < Distance(block, f[j]) {
        assert f[j] in rest;
      }
    }
  }

  /** The heart of the lookup: of the virtual ids whose owner takes more blocks, exactly those are
      found that have fewer than five of the ring strictly nearer to the block; and on a ring of
      five or more they come once each, nearest first. */
  lemma NearestFiveAreFound(s: Store, block: U64)
    requires Consistent(s)
    ensures forall v :: v in LookUp(s, block) <==> v in Open(s) && |Nearer(s.ring, block, v)| < 5
    ensures |s.ring| >= 5 ==> Clockwise(block, LookUp(s, block))
  {
    hide LookUp, Open, Distance, Increasing;
    if s.ring == [] {
      EmptyRing(s, block);
    } else {
      var found, n := LookUp(s, block), |s.ring|;
      forall v ensures v in found <==> v in Open(s) && |Nearer(s.ring, block, v)| < 5 {
        FoundTimes(s, block, v);
        assert v in multiset(found) <==> v in found;
        if v in Open(s) {
          OpenOnRing(s, v);
          FewerThanAll(s.ring, block, v);
          RoundsOfFive(n, |Nearer(s.ring, block, v)|);
        }
      }
      if n >= 5 {
        LookUpShape(s, block);
        FoundInOrder(s, block);
        DistinctCount(found);
        SubsetCount(Elements(found), Open(s));
      }
    }
  }

  lemma EmptyRing(s: Store, block: U64)
    requires Consistent(s) && s.ring == []
    ensures LookUp(s, block) == [] && Open(s) == {}
  {
    forall v | v in Open(s) ensures false { OpenOnRing(s, v); }
  }

  lemma FewerThanAll(ring: seq<U64>, block: U64, v: U64)
    requires Increasing(ring) && v in ring
    ensures |Nearer(ring, block, v)| < |ring|
  {
    var c := FromBlock(ring, block);
    FromBlockIsClockwise(ring, block);
    var i :| 0 <= i < |c| && c[i] == v;
    NearerCount(ring, block, i);
  }

  lemma RoundsOfFive(n: nat, nearer: nat)
    requires nearer < n
    ensures 5 / n + (if nearer < 5 % n then 1 else 0) > 0 <==> nearer < 5
  {
    if n > 5 {
      SmallMod(5, n);
      assert 5 / n == 0;
    } else {
      assert n == 1 || n == 2 || n == 3 || n == 4 || n == 5;
    }
  }

  lemma SubsetCount(a: set<U64>, b: set<U64>)
    requires a <= b
    ensures |a| <= |b|
  {
    assert b == a + (b - a);
  }
}
