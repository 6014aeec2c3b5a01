/** An ordered set of virtual ids as an increasing sequence, and walks around it
    (the `std::set` and its iterators in src/DistributedBlockStore.cpp). */
module Rings {
  import opened Arithmetic

  type U64 = n: nat | n < 0x1_0000_0000_0000_0000

  ghost predicate Increasing(r: seq<U64>) {
    forall i, j :: 0 <= i < j < |r| ==> r[i] < r[j]
  }

  function Elements(r: seq<U64>): set<U64> {
    set v | v in r
  }

  /** The first position whose element is at least `x`; the length if there is none. */
  function LowerBound(r: seq<U64>, x: U64): (i: nat)
    ensures i <= |r|
    ensures forall j :: 0 <= j < i ==> r[j] < x
    ensures i < |r| ==> r[i] >= x
  {
    if r == [] || r[0] >= x then 0 else 1 + LowerBound(r[1..], x)
  }

  function Insert(r: seq<U64>, x: U64): seq<U64> {
    var i := LowerBound(r, x);
    if i < |r| && r[i] == x then r else r[..i] + [x] + r[i..]
  }

  function Erase(r: seq<U64>, x: U64): seq<U64> {
    var i := LowerBound(r, x);
    if i < |r| && r[i] == x then r[..i] + r[i + 1..] else r
  }

  lemma InsertAdds(r: seq<U64>, x: U64)
    requires Increasing(r)
    ensures Increasing(Insert(r, x)) && Elements(Insert(r, x)) == Elements(r) + {x}
  {
    hide LowerBound;
    var i := LowerBound(r, x);
    FromBound(r, x);
    if i == |r| || r[i] != x {
      var low, high := r[..i], r[i..];
      assert r == low + high;
      ElementsAppend(low, high);
      ElementsAppend(low + [x], high);
      ElementsAppend(low, [x]);
      assert Elements([x]) == {x};
      IncreasingAppend(low, [x], x);
      IncreasingAppend(low + [x], high, x + 1);
    }
  }

  lemma EraseRemoves(r: seq<U64>, x: U64)
    requires Increasing(r)
    ensures Increasing(Erase(r, x)) && Elements(Erase(r, x)) == Elements(r) - {x}
  {
    hide LowerBound;
    var i := LowerBound(r, x);
    FromBound(r, x);
    if x in r {
      assert r == r[..i] + [x] + r[i + 1..];
      CutOut(r[..i], x, r[i + 1..]);
    }
  }

  lemma CutOut(low: seq<U64>, x: U64, high: seq<U64>)
    requires Increasing(low + [x] + high)
    ensures Increasing(low + high) && Elements(low + high) == Elements(low + [x] + high) - {x}
  {
    Around(low, x, high);
    IncreasingAppend(low, high, x);
    assert Elements(low + [x] + high) == Elements(low) + {x} + Elements(high) by {
      ElementsAppend(low + [x], high);
      ElementsAppend(low, [x]);
      assert Elements([x]) == {x};
    }
    ElementsAppend(low, high);
  }

  lemma Around(low: seq<U64>, x: U64, high: seq<U64>)
    requires Increasing(low + [x] + high)
    ensures Increasing(low) && Increasing(high)
    ensures (forall i :: 0 <= i < |low| ==> low[i] < x) && (forall i :: 0 <= i < |high| ==> high[i] > x)
  {
    var r, n := low + [x] + high, |low|;
    assert r[n] == x;
    forall i | 0 <= i < |low| ensures low[i] < x { assert r[i] == low[i] && r[i] < r[n]; }
    forall i | 0 <= i < |high| ensures high[i] > x { assert r[n + 1 + i] == high[i] && r[n] < r[n + 1 + i]; }
    forall i, j | 0 <= i < j < |low| ensures low[i] < low[j] { assert r[i] == low[i] && r[j] == low[j]; }
    forall i, j | 0 <= i < j < |high| ensures high[i] < high[j] {
      assert r[n + 1 + i] == high[i] && r[n + 1 + j] == high[j];
    }
  }

  lemma FromBound(r: seq<U64>, x: U64)
    requires Increasing(r)
    ensures forall j :: LowerBound(r, x) <= j < |r| ==> r[j] >= x
    ensures forall j :: LowerBound(r, x) < j < |r| ==> r[j] > x
    ensures x in r <==> LowerBound(r, x) < |r| && r[LowerBound(r, x)] == x
  {
    var i := LowerBound(r, x);
    forall j | i < j < |r| ensures r[j] > x {
      assert r[i] < r[j];
    }
  }

  lemma IncreasingAppend(a: seq<U64>, b: seq<U64>, x: nat)
    requires Increasing(a) && Increasing(b)
    requires (forall i :: 0 <= i < |a| ==> a[i] < x) && (forall i :: 0 <= i < |b| ==> b[i] >= x)
    ensures Increasing(a + b)
  {
  }

  lemma ElementsAppend(a: seq<U64>, b: seq<U64>)
    ensures Elements(a + b) == Elements(a) + Elements(b)
  {
  }

  /** An increasing sequence is determined by its elements. */
  lemma {:induction false} IncreasingIsUnique(r: seq<U64>, s: seq<U64>)
    requires Increasing(r) && Increasing(s) && Elements(r) == Elements(s)
    ensures r == s
    decreases |r|
  {
    assert r != [] ==> r[0] in Elements(r) && r[0] in Elements(s);
    assert s != [] ==> s[0] in Elements(s) && s[0] in Elements(r);
    if r != [] {
      assert r[0] == s[0];
      forall v ensures v in Elements(r[1..]) <==> v in Elements(s[1..]) {
        RestElements(r, v);
        RestElements(s, v);
      }
      IncreasingIsUnique(r[1..], s[1..]);
      assert r == [r[0]] + r[1..] && s == [s[0]] + s[1..];
    }
  }

  lemma RestElements(r: seq<U64>, v: U64)
    requires Increasing(r) && r != []
    ensures v in Elements(r[1..]) <==> v in Elements(r) && v != r[0]
  {
    if v in r && v != r[0] {
      var i :| 0 <= i < |r| && r[i] == v;
      assert r[1..][i - 1] == v;
    }
  }

  /** Those elements of `s` that are in `keep`, in order. */
  function Filter(s: seq<U64>, keep: set<U64>): seq<U64> {
    if s == [] then [] else (if s[0] in keep then [s[0]] else []) + Filter(s[1..], keep)
  }

  lemma {:induction false} FilterAppend(a: seq<U64>, b: seq<U64>, keep: set<U64>)
    ensures Filter(a + b, keep) == Filter(a, keep) + Filter(b, keep)
  {
    if a == [] {
      assert a + b == b;
    } else {
      var h, t := if a[0] in keep then [a[0]] else [], a[1..];
      assert (a + b)[1..] == t + b;
      FilterAppend(t, b, keep);
      assert h + (Filter(t, keep) + Filter(b, keep)) == (h + Filter(t, keep)) + Filter(b, keep);
    }
  }

  lemma {:induction false} NoneLeft(s: seq<U64>, keep: set<U64>)
    requires forall v :: v in s ==> v !in keep
    ensures Filter(s, keep) == []
  {
    if s != [] {
      NoneLeft(s[1..], keep);
    }
  }

  lemma FilterOne(v: U64, keep: set<U64>)
    ensures Filter([v], keep) == if v in keep then [v] else []
  {
    assert [v][1..] == [];
  }

  lemma {:induction false} FilterElements(s: seq<U64>, keep: set<U64>)
    ensures forall v :: v in Filter(s, keep) <==> v in s && v in keep
    ensures |Filter(s, keep)| <= |s|
  {
    if s != [] {
      FilterElements(s[1..], keep);
      assert forall v :: v in s <==> v == s[0] || v in s[1..] by { assert s == [s[0]] + s[1..]; }
    }
  }

  lemma {:induction false} FilterIncreasing(r: seq<U64>, keep: set<U64>)
    requires Increasing(r)
    ensures Increasing(Filter(r, keep))
  {
    if r != [] {
      FilterIncreasing(r[1..], keep);
      FilterElements(r[1..], keep);
      var rest := Filter(r[1..], keep);
      forall i | 0 <= i < |rest| ensures r[0] < rest[i] {
        assert rest[i] in r[1..];
      }
    }
  }

  /** Filtering twice is filtering by what both keep, so the order of two filters is immaterial. */
  lemma {:induction false} FilterTwice(s: seq<U64>, a: set<U64>, b: set<U64>, c: set<U64>, d: set<U64>)
    requires forall v :: v in s ==> (v in a && v in b <==> v in c && v in d)
    ensures Filter(Filter(s, a), b) == Filter(Filter(s, c), d)
  {
    if s != [] {
      FilterTwice(s[1..], a, b, c, d);
      FilterHead(s, a, b);
      FilterHead(s, c, d);
    }
  }

  lemma {:induction false} FilterAtOnce(s: seq<U64>, a: set<U64>, b: set<U64>)
    ensures Filter(Filter(s, a), b) == Filter(s, a * b)
  {
    if s != [] {
      FilterAtOnce(s[1..], a, b);
      FilterHead(s, a, b);
    }
  }

  lemma {:induction false} AllLeft(s: seq<U64>, keep: set<U64>)
    requires forall v :: v in s ==> v in keep
    ensures Filter(s, keep) == s
  {
    if s != [] {
      AllLeft(s[1..], keep);
    }
  }

  lemma FilterHead(s: seq<U64>, a: set<U64>, b: set<U64>)
    requires s != []
    ensures Filter(Filter(s, a), b) == (if s[0] in a && s[0] in b then [s[0]] else []) + Filter(Filter(s[1..], a), b)
  {
    FilterAppend(if s[0] in a then [s[0]] else [], Filter(s[1..], a), b);
    assert [s[0]][1..] == [];
  }

  lemma FilterPrefix(s: seq<U64>, t: seq<U64>, keep: set<U64>)
    requires s <= t
    ensures Filter(s, keep) <= Filter(t, keep)
  {
    assert t == s + t[|s|..];
    FilterAppend(s, t[|s|..], keep);
  }

  // ---------------------------------------------------------------------------------------------
  // Walking around

  /** Where a lookup starts: the lower bound, or the beginning if that is past the end. */
  function Start(r: seq<U64>, block: U64): (p: nat)
    requires r != []
    ensures p < |r|
  {
    var i := LowerBound(r, block);
    if i == |r| then 0 else i
  }

  function Next(r: seq<U64>, p: nat): (q: nat)
    requires p < |r|
    ensures q < |r|
  {
    if p + 1 == |r| then 0 else p + 1
  }

  /** The `k` elements met when walking on from position `p`. */
  function Walk(r: seq<U64>, p: nat, k: nat): (w: seq<U64>)
    requires p < |r|
    ensures |w| == k
    decreases k
  {
    if k == 0 then [] else [r[p]] + Walk(r, Next(r, p), k - 1)
  }

  lemma {:induction false} WalkPrefix(r: seq<U64>, p: nat, j: nat, k: nat)
    requires p < |r| && j <= k
    ensures Walk(r, p, j) <= Walk(r, p, k)
    decreases k
  {
    if j > 0 {
      WalkPrefix(r, Next(r, p), j - 1, k - 1);
    }
  }

  /** The walk is the ring read modulo its length. */
  lemma {:induction false} WalkAt(r: seq<U64>, p: nat, k: nat, i: nat)
    requires p < |r| && i < k
    ensures Walk(r, p, k)[i] == r[(p + i) % |r|]
    decreases k
  {
    if i > 0 {
      WalkAt(r, Next(r, p), k - 1, i - 1);
      if p + 1 == |r| {
        assert (p + i) % |r| == (i - 1) % |r| by { ModWrap(i - 1, |r|); }
      }
    } else {
      SmallMod(p, |r|);
    }
  }

  lemma ModWrap(a: nat, n: nat)
    requires n > 0
    ensures (a + n) % n == a % n
  {
    var x := a + n;
    SameRemainder(n, x / n, x % n, a / n + 1, a % n);
  }

  lemma SmallMod(a: nat, n: nat)
    requires a < n
    ensures a % n == a
  {
    SameRemainder(n, a / n, a % n, 0, a);
  }

  /** Position `p` of a ring, counted among the elements kept. */
  function Among(r: seq<U64>, keep: set<U64>, p: nat): nat
    requires p <= |r|
  {
    var c, n := |Filter(r[..p], keep)|, |Filter(r, keep)|;
    if c == n then 0 else c
  }

  /** What is kept of a ring, before, at and after position `p`. */
  lemma KeptAround(r: seq<U64>, keep: set<U64>, p: nat)
    requires p < |r|
    ensures var f, low, high := Filter(r, keep), Filter(r[..p], keep), Filter(r[p + 1..], keep);
      && f == low + (if r[p] in keep then [r[p]] else []) + high
      && Filter(r[..p + 1], keep) == low + (if r[p] in keep then [r[p]] else [])
      && (p + 1 == |r| ==> high == [])
    ensures Filter(r[..0], keep) == []
  {
    hide Filter;
    assert r == r[..p + 1] + r[p + 1..] && r[..p + 1] == r[..p] + [r[p]];
    FilterAppend(r[..p + 1], r[p + 1..], keep);
    FilterAppend(r[..p], [r[p]], keep);
    FilterOne(r[p], keep);
    NoneLeft([], keep);
  }

  lemma AmongNext(r: seq<U64>, keep: set<U64>, p: nat)
    requires p < |r| && Filter(r, keep) != []
    ensures Among(r, keep, p) < |Filter(r, keep)|
    ensures r[p] in keep ==> Filter(r, keep)[Among(r, keep, p)] == r[p]
    ensures r[p] in keep ==> Among(r, keep, Next(r, p)) == Next(Filter(r, keep), Among(r, keep, p))
    ensures r[p] !in keep ==> Among(r, keep, Next(r, p)) == Among(r, keep, p)
  {
    hide Filter;
    KeptAround(r, keep, p);
  }

  /** Walking round a ring and dropping some elements is walking round what is left. */
  lemma {:induction false} FilteredWalk(r: seq<U64>, keep: set<U64>, p: nat, k: nat)
    requires p < |r| && Filter(r, keep) != []
    ensures Among(r, keep, p) < |Filter(r, keep)|
    ensures var f := Filter(Walk(r, p, k), keep);
      f == Walk(Filter(r, keep), Among(r, keep, p), |f|)
    decreases k
  {
    AmongNext(r, keep, p);
    if k > 0 {
      FilteredWalk(r, keep, Next(r, p), k - 1);
      var w := Walk(r, p, k);
      assert w[1..] == Walk(r, Next(r, p), k - 1) && w[0] == r[p];
    }
  }

  lemma {:induction false} WalkStaysIn(r: seq<U64>, p: nat, k: nat)
    requires p < |r|
    ensures forall v :: v in Walk(r, p, k) ==> v in r
    decreases k
  {
    if k > 0 {
      WalkStaysIn(r, Next(r, p), k - 1);
    }
  }

  lemma LowerBoundIs(r: seq<U64>, x: U64, c: nat)
    requires c <= |r| && (forall j :: 0 <= j < c ==> r[j] < x) && (c < |r| ==> r[c] >= x)
    ensures LowerBound(r, x) == c
  {
  }

  /** The elements kept below `block` come first. */
  lemma FilterSplits(r: seq<U64>, keep: set<U64>, block: U64)
    requires Increasing(r)
    ensures var i := LowerBound(r, block);
      LowerBound(Filter(r, keep), block) == |Filter(r[..i], keep)| <= |Filter(r, keep)|
  {
    var i := LowerBound(r, block);
    var low, high := Filter(r[..i], keep), Filter(r[i..], keep);
    assert r == r[..i] + r[i..];
    FilterAppend(r[..i], r[i..], keep);
    FilterElements(r[..i], keep);
    FilterElements(r[i..], keep);
    FromBound(r, block);
    hide LowerBound, Filter, Increasing;
    forall j | 0 <= j < |low| ensures low[j] < block {
      assert low[j] in r[..i];
    }
    forall j | 0 <= j < |high| ensures high[j] >= block {
      assert high[j] in r[i..];
    }
    assert Filter(r, keep) == low + high;
    LowerBoundIs(low + high, block, |low|);
  }

  /** The walk over what is left starts where the filtered walk does. */
  lemma StartAmong(r: seq<U64>, keep: set<U64>, block: U64)
    requires Increasing(r) && Filter(r, keep) != []
    ensures Among(r, keep, Start(r, block)) == Start(Filter(r, keep), block)
  {
    FilterSplits(r, keep, block);
    assert r[..0] == [] && r[..|r|] == r;
  }
}
