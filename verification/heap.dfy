/** The priority queue of the search, kept as a sequence, and the measure
    that shows the search loop ends: every entry weighs a power of the
    number of cities a path can visit, which shrinks as its path grows. */
module Heap {
  import opened Graph
  import opened Paths

  /** `heapq.heappop`: the index of some entry of minimal score. Ties, which
      Python's tuple comparison breaks by comparing paths, are left open. */
  method PopMin(heap: seq<Candidate>) returns (i: nat)
    requires |heap| > 0
    ensures i < |heap|
    ensures forall j :: 0 <= j < |heap| ==> heap[i].score <= heap[j].score
  {
    i := 0;
    var k := 1;
    while k < |heap|
      invariant 1 <= k <= |heap| && i < k
      invariant forall j :: 0 <= j < k ==> heap[i].score <= heap[j].score
    {
      if heap[k].score < heap[i].score {
        i := k;
      }
      k := k + 1;
    }
  }

  /** The queue without its `i`-th entry. */
  function Remove(heap: seq<Candidate>, i: nat): (rest: seq<Candidate>)
    requires i < |heap|
    ensures |rest| == |heap| - 1
    ensures multiset(rest) + multiset{heap[i]} == multiset(heap)
    ensures forall d :: d in rest ==> d in heap
    ensures forall d :: d in heap && d != heap[i] ==> d in rest
  {
    assert heap == heap[..i] + [heap[i]] + heap[i + 1..];
    heap[..i] + heap[i + 1..]
  }

  function Pow(b: nat, k: nat): (r: nat)
    ensures b >= 1 ==> r >= 1
  {
    if k == 0 then 1 else b * Pow(b, k - 1)
  }

  /** Every city id that is the target of some edge. */
  function Targets(g: Graph): set<int> {
    set a, b | a in g && b in g[a] :: b
  }

  /** The cities a path from `s` can visit. */
  function Nodes(g: Graph, s: int): set<int> {
    {s} + Targets(g)
  }

  /** An entry weighs `(n + 1)` to the number of cities its path can still
      add, with `n` the number of cities a path can visit. */
  function Weight(n: nat, c: Candidate): nat {
    Pow(n + 1, if |c.path| <= n then n - |c.path| else 0)
  }

  function HeapWeight(n: nat, heap: seq<Candidate>): nat {
    if |heap| == 0 then 0 else HeapWeight(n, heap[..|heap| - 1]) + Weight(n, heap[|heap| - 1])
  }

  lemma {:induction false} HeapWeightConcat(n: nat, a: seq<Candidate>, b: seq<Candidate>)
    ensures HeapWeight(n, a + b) == HeapWeight(n, a) + HeapWeight(n, b)
    decreases |b|
  {
    if |b| > 0 {
      var ab := a + b;
      assert ab[..|ab| - 1] == a + b[..|b| - 1];
      HeapWeightConcat(n, a, b[..|b| - 1]);
    } else {
      assert a + b == a;
    }
  }

  lemma HeapWeightRemove(n: nat, heap: seq<Candidate>, i: nat)
    requires i < |heap|
    ensures HeapWeight(n, heap) == HeapWeight(n, Remove(heap, i)) + Weight(n, heap[i])
  {
    assert heap == heap[..i] + [heap[i]] + heap[i + 1..];
    HeapWeightConcat(n, heap[..i] + [heap[i]], heap[i + 1..]);
    HeapWeightConcat(n, heap[..i], [heap[i]]);
    HeapWeightConcat(n, heap[..i], heap[i + 1..]);
    assert HeapWeight(n, [heap[i]]) == Weight(n, heap[i]) by {
      assert [heap[i]][..0] == [];
    }
  }

  /** A queue whose entries all have paths of one length `len` weighs its
      size times the weight of one entry. */
  lemma {:induction false} HeapWeightUniform(n: nat, ext: seq<Candidate>, len: nat)
    requires len <= n
    requires forall d :: d in ext ==> |d.path| == len
    ensures HeapWeight(n, ext) == |ext| * Pow(n + 1, n - len)
    decreases |ext|
  {
    if |ext| > 0 {
      var pre := ext[..|ext| - 1];
      assert forall d :: d in pre ==> d in ext;
      HeapWeightUniform(n, pre, len);
      assert ext[|ext| - 1] in ext;
      var w := Pow(n + 1, n - len);
      assert Weight(n, ext[|ext| - 1]) == w;
      assert HeapWeight(n, ext) == |pre| * w + w;
      MulSucc(|pre|, w);
    }
  }

  lemma MulSucc(a: nat, w: nat)
    ensures (a + 1) * w == a * w + w
  {
  }

  lemma PowStep(b: nat, k: nat)
    requires 1 <= k < b
    ensures k * Pow(b, k - 1) < Pow(b, k)
  {
    assert Pow(b, k) == b * Pow(b, k - 1);
    assert Pow(b, k - 1) >= 1;
  }

  /** A nonempty set has a member. */
  lemma HasMember(s: set<int>)
    requires s != {}
    ensures exists x :: x in s
  {
    if forall x :: x !in s {
      assert false;
    }
  }

  lemma SubsetCard<T>(a: set<T>, b: set<T>)
    requires a <= b
    ensures |a| <= |b|
  {
    assert b == a + (b - a);
    assert a * (b - a) == {};
  }

  /** The set of ids a path visits. */
  function Elems(p: seq<int>): set<int> {
    set x | x in p
  }

  lemma {:induction false} DistinctCard(p: seq<int>)
    requires Distinct(p)
    ensures |Elems(p)| == |p|
    decreases |p|
  {
    if |p| > 0 {
      var q := p[..|p| - 1];
      DistinctCard(q);
      assert Elems(p) == Elems(q) + {p[|p| - 1]};
      assert p[|p| - 1] !in Elems(q);
    } else {
      assert Elems(p) == {};
    }
  }

  lemma WalkInNodes(g: Graph, s: int, p: seq<int>)
    requires Walk(g, p) && p[0] == s
    ensures Elems(p) <= Nodes(g, s)
  {
    forall x | x in Elems(p) ensures x in Nodes(g, s) {
      var k :| 0 <= k < |p| && p[k] == x;
      if k > 0 {
        assert HasEdge(g, p[k - 1], p[k]);
      }
    }
  }

  /** A simple walk from `s` visits at most all reachable cities, and its
      fresh neighbours number at most the cities it has not visited. */
  lemma FreshBound(g: Graph, s: int, p: seq<int>)
    requires Walk(g, p) && Distinct(p) && p[0] == s
    ensures |p| <= |Nodes(g, s)|
    ensures |Fresh(g, p)| <= |Nodes(g, s)| - |p|
  {
    WalkInNodes(g, s, p);
    DistinctCard(p);
    SubsetCard(Elems(p), Nodes(g, s));
    var rest := Nodes(g, s) - Elems(p);
    assert |rest| == |Nodes(g, s)| - |p| by {
      assert Nodes(g, s) == Elems(p) + rest;
      assert Elems(p) * rest == {};
    }
    forall nb | nb in Fresh(g, p) ensures nb in rest {
      assert nb in Targets(g) by {
        assert Last(p) in g && nb in g[Last(p)];
      }
    }
    SubsetCard(Fresh(g, p), rest);
  }
}
