/** The loop invariant of the search and the proof that every iteration of
    the loop keeps it: the queue holds only entries for admissible paths,
    every admissible path to the destination not yet popped has a prefix
    waiting in the queue, and every one already popped that meets the
    constraints has been recorded. */
module Steps {
  import opened Wrappers
  import opened Graph
  import opened Paths
  import opened Heap
  import opened Queries

  /** Every queue entry is the entry of an admissible path. */
  ghost predicate HeapOk(g: Graph, q: Query, heap: seq<Candidate>) {
    forall d :: d in heap ==> Queued(g, q, d)
  }

  /** Under a monotone criterion, nothing in the queue scores below the last
      popped score `floor`, nothing recorded ranks above it, and the records
      are in order. */
  ghost predicate Ordered(g: Graph, q: Query, heap: seq<Candidate>, found: seq<Route>, floor: int) {
    Monotone(q.crit) && ValidGraph(g) ==>
      && (forall d {:trigger d in heap} :: d in heap ==> floor <= d.score)
      && (forall r {:trigger r in found} :: r in found ==> Key(q.crit, r) <= floor)
      && SortedByKey(q.crit, found)
  }

  /** Every goal path not popped yet has a prefix in the queue. */
  ghost predicate Covered(g: Graph, q: Query, heap: seq<Candidate>, popped: set<seq<int>>) {
    forall p :: Goal(g, q, p) && p !in popped ==> exists d {:trigger d in heap} :: d in heap && d.path <= p
  }

  /** Every goal path already popped whose route meets the constraints has
      its route recorded. */
  ghost predicate Recorded(g: Graph, q: Query, popped: set<seq<int>>, found: seq<Route>) {
    forall p :: Goal(g, q, p) && p in popped && Meets(RouteFor(g, p), q) ==> RouteFor(g, p) in found
  }

  /** When start and destination coincide, nothing has been recorded and the
      queue still holds the seed alone, or nothing at all when a negative
      `max_cost` rejected the seed. */
  ghost predicate SameCity(q: Query, heap: seq<Candidate>, found: seq<Route>) {
    q.start == q.end ==>
      && found == []
      && (heap == [Seed(q.start)] || (heap == [] && q.maxCost.Some? && q.maxCost.value < 0))
  }

  /** The loop invariant of the search. `popped` holds the paths popped so
      far and `floor` the last popped score. */
  ghost predicate Inv(g: Graph, q: Query, heap: seq<Candidate>, found: seq<Route>,
                      popped: set<seq<int>>, floor: int) {
    && HeapOk(g, q, heap)
    && Sound(g, q, found)
    && |found| <= Max0(q.topN)
    && Ordered(g, q, heap, found, floor)
    && Covered(g, q, heap, popped)
    && Recorded(g, q, popped, found)
    && SameCity(q, heap, found)
  }

  /** `popped` holds the paths popped so far and is closed under dropping
      the last city; queued paths are pairwise distinct, none popped yet,
      and each one's parent already popped (it was pushed when the parent
      was expanded). */
  ghost predicate QueueFresh(heap: seq<Candidate>, popped: set<seq<int>>) {
    && DistinctEntries(heap)
    && (forall d :: d in heap ==> d.path !in popped && (|d.path| >= 2 ==> d.path[..|d.path| - 1] in popped))
    && (forall p :: p in popped && |p| >= 2 ==> p[..|p| - 1] in popped)
  }

  /** `found` lists the routes of `fpaths`, distinct popped simple paths
      from start to destination. */
  ghost predicate FoundFrom(g: Graph, q: Query, popped: set<seq<int>>, fpaths: seq<seq<int>>, found: seq<Route>) {
    && (forall k :: 0 <= k < |fpaths| ==> fpaths[k] in popped && SimplePath(g, q.start, q.end, fpaths[k]))
    && DistinctPaths(fpaths)
    && found == RoutesOf(g, fpaths)
  }

  /** The bookkeeping that shows no path is reported twice. */
  ghost predicate Unique(g: Graph, q: Query, heap: seq<Candidate>, popped: set<seq<int>>,
                         fpaths: seq<seq<int>>, found: seq<Route>) {
    QueueFresh(heap, popped) && FoundFrom(g, q, popped, fpaths, found)
  }

  /** `heap[i]` is an entry of least score, as `heappop` returns. */
  ghost predicate IsMin(heap: seq<Candidate>, i: nat) {
    i < |heap| && forall j :: 0 <= j < |heap| ==> heap[i].score <= heap[j].score
  }

  /** A popped entry at the destination fails `max_cost` or `min_comfort`. */
  predicate Rejected(q: Query, c: Candidate) {
    || (q.maxCost.Some? && c.totalCost > q.maxCost.value)
    || (q.minComfort.Some? && |c.segments| > 0 && Mean(c.totalComfort, |c.segments|) < q.minComfort.value)
  }

  // ---------------------------------------------------------------- single facts

  lemma SeedQueued(g: Graph, q: Query)
    ensures Queued(g, q, Seed(q.start))
  {
    var p := [q.start];
    assert Walk(g, p);
    assert Segs(g, p) == [];
  }

  /** In a simple path, a prefix that ends where the path ends is the path. */
  lemma PrefixAtEnd(p: seq<int>, r: seq<int>)
    requires Distinct(p) && |r| >= 1 && r <= p && Last(r) == Last(p)
    ensures r == p
  {
  }

  lemma StepIsCandFor(g: Graph, crit: Criterion, c: Candidate, nb: int)
    requires Walk(g, c.path) && c == CandFor(g, crit, c.path)
    requires nb in Adj(g, Last(c.path))
    ensures Walk(g, c.path + [nb])
    ensures Step(g, crit, c, nb) == CandFor(g, crit, c.path + [nb])
  {
    var p := c.path + [nb];
    assert p[..|p| - 1] == c.path;
    forall k | 0 <= k < |p| - 1 ensures HasEdge(g, p[k], p[k + 1]) {
      if k < |p| - 2 {
        assert HasEdge(g, c.path[k], c.path[k + 1]);
      }
    }
  }

  /** An unpruned extension of a queued entry is itself a queued entry. */
  lemma SuccessorQueued(g: Graph, q: Query, c: Candidate, d: Candidate)
    requires Queued(g, q, c) && Successor(g, q.crit, c, d)
    requires !Pruned(d, q.maxCost, q.maxTransfers)
    ensures Queued(g, q, d)
  {
    var nb := d.path[|c.path|];
    StepIsCandFor(g, q.crit, c, nb);
    var p := c.path + [nb];
    assert d.path == p;
    assert Distinct(p);
    CandForTotals(g, q.crit, p);
    SegsSnoc(g, p);
    assert p[..|p| - 1] == c.path;
    var ss := Segs(g, p);
    assert ss[..|ss| - 1] == Segs(g, c.path);
  }

  /** With valid segments, extending an entry under a monotone criterion
      never lowers its score. */
  lemma SuccessorScore(g: Graph, q: Query, c: Candidate, d: Candidate)
    requires Queued(g, q, c) && Successor(g, q.crit, c, d)
    requires Monotone(q.crit) && ValidGraph(g)
    ensures c.score <= d.score
  {
    CandForTotals(g, q.crit, c.path);
    var nb := d.path[|c.path|];
    assert HasEdge(g, Last(c.path), nb);
    assert ValidSegment(g[Last(c.path)][nb]);
  }

  /** Under a monotone criterion the score of a prefix of valid segments is
      at most the score of the whole. */
  lemma ScoreGrows(crit: Criterion, ss: seq<Segment>, n: nat)
    requires Monotone(crit) && n <= |ss|
    requires forall k :: 0 <= k < |ss| ==> ValidSegment(ss[k])
    ensures ScoreOf(crit, ss[..n]) <= ScoreOf(crit, ss)
  {
    SumsGrow(ss, n);
  }

  /** Under a monotone criterion, the score of a prefix's entry is at most
      the key of the whole path's route. */
  lemma PrefixScore(g: Graph, crit: Criterion, r: seq<int>, p: seq<int>)
    requires Walk(g, p) && |p| >= 2 && 1 <= |r| && r <= p
    requires Monotone(crit) && ValidGraph(g)
    ensures Walk(g, r)
    ensures CandFor(g, crit, r).score <= Key(crit, RouteFor(g, p))
  {
    SegsPrefix(g, p, |r|);
    assert p[..|r|] == r;
    CandForTotals(g, crit, r);
    SegsValid(g, p);
    ScoreGrows(crit, Segs(g, p), |r| - 1);
  }

  lemma MinAmongRest(heap: seq<Candidate>, i: nat, d: Candidate)
    requires IsMin(heap, i) && d in heap
    ensures heap[i].score <= d.score
  {
    var j :| 0 <= j < |heap| && heap[j] == d;
  }

  /** A rejected entry's route fails the constraints. */
  lemma RejectFails(g: Graph, q: Query, c: Candidate)
    requires Queued(g, q, c) && Rejected(q, c) && |c.path| >= 2
    ensures !Meets(RouteFor(g, c.path), q)
  {
    CandForTotals(g, q.crit, c.path);
  }

  /** An accepted entry's record is the route of a simple path from start to
      destination that meets the constraints. */
  lemma AcceptSound(g: Graph, q: Query, c: Candidate)
    requires Queued(g, q, c) && Last(c.path) == q.end && |c.segments| >= 1 && !Rejected(q, c)
    ensures |c.path| >= 2
    ensures MakeRoute(c) == RouteFor(g, c.path)
    ensures IsRouteOf(g, q.start, q.end, MakeRoute(c))
    ensures Meets(MakeRoute(c), q)
    ensures Monotone(q.crit) ==> Key(q.crit, MakeRoute(c)) == c.score
  {
    CandForTotals(g, q.crit, c.path);
    MakeRouteIsRouteFor(g, q.crit, c.path);
    assert SimplePath(g, q.start, q.end, c.path);
    var ss := Segs(g, c.path);
    assert ss[..|ss|] == ss;
  }

  /** The city after `c`'s path on the goal path `p` is a fresh neighbour. */
  lemma NextFresh(g: Graph, q: Query, c: Candidate, p: seq<int>)
    requires Queued(g, q, c) && Goal(g, q, p) && c.path <= p && c.path != p
    ensures |c.path| < |p| && p[|c.path|] in Fresh(g, c.path)
  {
    var k := |c.path|;
    assert p[k - 1] == Last(c.path);
    assert HasEdge(g, p[k - 1], p[k]);
    forall j | 0 <= j < k ensures c.path[j] != p[k] {
      assert c.path[j] == p[j];
    }
  }

  /** Every prefix of a walk within the limits is within them too. */
  lemma PrefixWithin(g: Graph, q: Query, p: seq<int>, n: nat)
    requires Walk(g, p) && WithinLimits(Segs(g, p), q.maxCost, q.maxTransfers) && 1 <= n <= |p|
    ensures Walk(g, p[..n]) && WithinLimits(Segs(g, p[..n]), q.maxCost, q.maxTransfers)
  {
    SegsPrefix(g, p, n);
    WithinLimitsPrefix(Segs(g, p), n - 1, q.maxCost, q.maxTransfers);
  }

  /** The entry of a walk within the limits is never pruned. */
  lemma WithinUnpruned(g: Graph, q: Query, r: seq<int>)
    requires Walk(g, r) && |r| >= 2 && WithinLimits(Segs(g, r), q.maxCost, q.maxTransfers)
    ensures !Pruned(CandFor(g, q.crit, r), q.maxCost, q.maxTransfers)
  {
    CandForTotals(g, q.crit, r);
  }

  /** The step along a goal path survives the pruning, since the goal path
      itself is admissible. */
  lemma NextUnpruned(g: Graph, q: Query, c: Candidate, p: seq<int>)
    requires Queued(g, q, c) && Goal(g, q, p) && |c.path| < |p| && c.path <= p
    requires p[|c.path|] in Fresh(g, c.path)
    ensures !Pruned(Step(g, q.crit, c, p[|c.path|]), q.maxCost, q.maxTransfers)
    ensures Step(g, q.crit, c, p[|c.path|]).path <= p
  {
    var k := |c.path|;
    var nb := p[k];
    StepIsCandFor(g, q.crit, c, nb);
    var r := c.path + [nb];
    assert r == p[..k + 1];
    PrefixWithin(g, q, p, k + 1);
    WithinUnpruned(g, q, r);
    CandForTotals(g, q.crit, r);
  }

  /** The extension of `c` along the goal path `p` passes the pruning and is
      among the pushed entries. */
  lemma ExtendTowardGoal(g: Graph, q: Query, c: Candidate, p: seq<int>, ext: seq<Candidate>)
    requires Queued(g, q, c) && Goal(g, q, p) && c.path <= p && c.path != p
    requires forall nb :: nb in Fresh(g, c.path) && !Pruned(Step(g, q.crit, c, nb), q.maxCost, q.maxTransfers) ==>
               Step(g, q.crit, c, nb) in ext
    ensures exists d :: d in ext && d.path <= p
  {
    NextFresh(g, q, c, p);
    NextUnpruned(g, q, c, p);
    var d := Step(g, q.crit, c, p[|c.path|]);
    assert d in ext;
  }

  lemma MulLe(a: nat, b: nat, w: nat)
    requires a <= b
    ensures a * w <= b * w
  {
  }

  // ---------------------------------------------------------------- one conjunct at a time

  lemma HeapOkRemove(g: Graph, q: Query, heap: seq<Candidate>, i: nat)
    requires HeapOk(g, q, heap) && i < |heap|
    ensures HeapOk(g, q, Remove(heap, i))
  {
  }

  lemma HeapOkExpand(g: Graph, q: Query, heap: seq<Candidate>, i: nat, ext: seq<Candidate>)
    requires HeapOk(g, q, heap) && i < |heap|
    requires forall d :: d in ext ==> Successor(g, q.crit, heap[i], d) && !Pruned(d, q.maxCost, q.maxTransfers)
    ensures HeapOk(g, q, Remove(heap, i) + ext)
  {
    var rest := Remove(heap, i);
    assert Queued(g, q, heap[i]);
    forall d | d in rest + ext ensures Queued(g, q, d) {
      if d in ext {
        SuccessorQueued(g, q, heap[i], d);
      } else {
        assert d in rest;
      }
    }
  }

  lemma OrderedPop(g: Graph, q: Query, heap: seq<Candidate>, i: nat, found: seq<Route>, floor: int)
    requires Ordered(g, q, heap, found, floor) && IsMin(heap, i)
    ensures Ordered(g, q, Remove(heap, i), found, heap[i].score)
  {
    if Monotone(q.crit) && ValidGraph(g) {
      assert heap[i] in heap;
      forall d | d in Remove(heap, i) ensures heap[i].score <= d.score {
        MinAmongRest(heap, i, d);
      }
    }
  }

  lemma OrderedAppend(g: Graph, q: Query, heap: seq<Candidate>, found: seq<Route>, floor: int, r: Route)
    requires Ordered(g, q, heap, found, floor)
    requires Monotone(q.crit) && ValidGraph(g) ==> Key(q.crit, r) == floor
    ensures Ordered(g, q, heap, found + [r], floor)
  {
    if Monotone(q.crit) && ValidGraph(g) {
      var found' := found + [r];
      forall i, j | 0 <= i < j < |found'| ensures Key(q.crit, found'[i]) <= Key(q.crit, found'[j]) {
        assert found'[i] == found[i];
        if j < |found| {
          assert found'[j] == found[j];
        } else {
          assert found[i] in found;
        }
      }
      forall x | x in found' ensures Key(q.crit, x) <= floor {
        if x != r {
          assert x in found;
        }
      }
    }
  }

  lemma OrderedPush(g: Graph, q: Query, heap: seq<Candidate>, found: seq<Route>, floor: int, ext: seq<Candidate>)
    requires Ordered(g, q, heap, found, floor)
    requires Monotone(q.crit) && ValidGraph(g) ==> forall d :: d in ext ==> floor <= d.score
    ensures Ordered(g, q, heap + ext, found, floor)
  {
  }

  /** Popping an entry at the destination uncovers nothing but its own path. */
  lemma CoverAtEnd(g: Graph, q: Query, heap: seq<Candidate>, i: nat, popped: set<seq<int>>)
    requires Covered(g, q, heap, popped) && i < |heap|
    requires Queued(g, q, heap[i]) && Last(heap[i].path) == q.end
    ensures Covered(g, q, Remove(heap, i), popped + {heap[i].path})
  {
    var c := heap[i];
    forall p | Goal(g, q, p) && p !in popped + {c.path} ensures exists d :: d in Remove(heap, i) && d.path <= p {
      var d :| d in heap && d.path <= p;
      if d == c {
        PrefixAtEnd(p, c.path);
      }
      assert d in Remove(heap, i);
    }
  }

  /** Expanding an entry short of the destination hands every goal path it
      covered over to one of its extensions. */
  lemma CoverExpand(g: Graph, q: Query, heap: seq<Candidate>, i: nat, popped: set<seq<int>>, ext: seq<Candidate>)
    requires Covered(g, q, heap, popped) && i < |heap| && Queued(g, q, heap[i])
    requires forall nb :: nb in Fresh(g, heap[i].path) && !Pruned(Step(g, q.crit, heap[i], nb), q.maxCost, q.maxTransfers) ==>
               Step(g, q.crit, heap[i], nb) in ext
    ensures Covered(g, q, Remove(heap, i) + ext, popped + {heap[i].path})
  {
    var c := heap[i];
    var heap' := Remove(heap, i) + ext;
    forall p | Goal(g, q, p) && p !in popped + {c.path} ensures exists d :: d in heap' && d.path <= p {
      var d :| d in heap && d.path <= p;
      if d == c {
        ExtendTowardGoal(g, q, c, p, ext);
        var e :| e in ext && e.path <= p;
        assert e in heap';
      } else {
        assert d in heap';
      }
    }
  }

  lemma RecordSkip(g: Graph, q: Query, c: Candidate, popped: set<seq<int>>, found: seq<Route>)
    requires Recorded(g, q, popped, found) && Walk(g, c.path)
    requires Last(c.path) != q.end || |c.path| < 2 || !Meets(RouteFor(g, c.path), q)
    ensures Recorded(g, q, popped + {c.path}, found)
  {
  }

  lemma RecordAppend(g: Graph, q: Query, path: seq<int>, popped: set<seq<int>>, found: seq<Route>)
    requires Recorded(g, q, popped, found) && Walk(g, path) && |path| >= 2
    ensures Recorded(g, q, popped + {path}, found + [RouteFor(g, path)])
  {
    var found' := found + [RouteFor(g, path)];
    assert found'[|found|] == RouteFor(g, path);
    forall p | Goal(g, q, p) && p in popped + {path} && Meets(RouteFor(g, p), q) ensures RouteFor(g, p) in found' {
      if p != path {
        assert RouteFor(g, p) in found;
      }
    }
  }

  lemma SoundAppend(g: Graph, q: Query, found: seq<Route>, r: Route)
    requires Sound(g, q, found) && IsRouteOf(g, q.start, q.end, r) && Meets(r, q)
    ensures Sound(g, q, found + [r])
  {
  }

  /** In the same-city case the popped entry is the seed and nothing stays. */
  lemma SameCityPop(q: Query, heap: seq<Candidate>, i: nat, found: seq<Route>)
    requires SameCity(q, heap, found) && i < |heap|
    ensures q.start == q.end ==> heap[i] == Seed(q.start) && Remove(heap, i) == []
  {
  }

  /** Removing `heap[i]` from a queue of distinct paths leaves distinct
      paths, none of them that of `heap[i]`. */
  lemma DistinctRemove(heap: seq<Candidate>, i: nat)
    requires DistinctEntries(heap) && i < |heap|
    ensures DistinctEntries(Remove(heap, i))
    ensures forall d :: d in Remove(heap, i) ==> d.path != heap[i].path
  {
    var rest := Remove(heap, i);
    assert rest == heap[..i] + heap[i + 1..];
    forall d | d in rest ensures d.path != heap[i].path {
      var k :| 0 <= k < |rest| && rest[k] == d;
      if k < i {
        assert d == heap[k];
      } else {
        assert d == heap[k + 1];
      }
    }
  }

  /** An extension's path drops back to its parent's. */
  lemma SuccessorParent(g: Graph, crit: Criterion, c: Candidate, d: Candidate)
    requires Successor(g, crit, c, d)
    ensures |d.path| >= 2 && d.path[..|d.path| - 1] == c.path
  {
  }

  /** Popping `heap[i]` keeps the queue fresh: the rest holds other paths,
      none of them popped, and the popped path's parent was popped before. */
  lemma FreshPop(heap: seq<Candidate>, i: nat, popped: set<seq<int>>)
    requires QueueFresh(heap, popped) && i < |heap|
    ensures QueueFresh(Remove(heap, i), popped + {heap[i].path})
    ensures heap[i].path !in popped
  {
    assert heap[i] in heap;
    DistinctRemove(heap, i);
  }

  /** Pushing the extensions of the path just popped keeps the queue fresh:
      an extension's parent is that path, which no path still queued has as
      its parent, and no popped path extends it. */
  lemma FreshPush(rest: seq<Candidate>, popped: set<seq<int>>, c: Candidate, ext: seq<Candidate>)
    requires QueueFresh(rest, popped) && c.path in popped
    requires forall d :: d in rest ==> |d.path| >= 2 ==> d.path[..|d.path| - 1] != c.path
    requires forall e :: e in ext ==> |e.path| >= 2 && e.path[..|e.path| - 1] == c.path
    requires forall p :: p in popped && |p| >= 2 ==> p[..|p| - 1] != c.path
    requires DistinctEntries(ext)
    ensures QueueFresh(rest + ext, popped)
  {
    var heap' := rest + ext;
    forall j, k | 0 <= j < k < |heap'| ensures heap'[j].path != heap'[k].path {
      if k >= |rest| {
        assert heap'[k] == ext[k - |rest|] && heap'[k] in ext;
        if j < |rest| {
          assert heap'[j] in rest;
        } else {
          assert heap'[j] == ext[j - |rest|];
        }
      }
    }
    forall d | d in heap' ensures d.path !in popped && (|d.path| >= 2 ==> d.path[..|d.path| - 1] in popped) {
      if d in ext {
        assert d.path[..|d.path| - 1] == c.path;
      }
    }
  }

  /** After popping `c`, no queued or popped path has `c`'s path as its
      parent yet: such a path would have been pushed by expanding `c`. */
  lemma NoChildYet(rest: seq<Candidate>, popped: set<seq<int>>, c: Candidate)
    requires c.path !in popped
    requires forall d :: d in rest ==> (|d.path| >= 2 ==> d.path[..|d.path| - 1] in popped)
    requires forall p :: p in popped && |p| >= 2 ==> p[..|p| - 1] in popped
    ensures forall d :: d in rest ==> |d.path| >= 2 ==> d.path[..|d.path| - 1] != c.path
    ensures forall p :: p in popped + {c.path} && |p| >= 2 ==> p[..|p| - 1] != c.path
  {
  }

  /** The recorded paths do not depend on the queue and survive any growth
      of `popped`. */
  lemma FoundGrow(g: Graph, q: Query, popped: set<seq<int>>, p: seq<int>, fpaths: seq<seq<int>>, found: seq<Route>)
    requires FoundFrom(g, q, popped, fpaths, found)
    ensures FoundFrom(g, q, popped + {p}, fpaths, found)
  {
  }

  /** Recording the route of a path never popped before keeps the recorded
      paths distinct. */
  lemma FoundAppend(g: Graph, q: Query, popped: set<seq<int>>, fpaths: seq<seq<int>>, found: seq<Route>, p: seq<int>)
    requires FoundFrom(g, q, popped, fpaths, found) && p !in popped && SimplePath(g, q.start, q.end, p)
    ensures FoundFrom(g, q, popped + {p}, fpaths + [p], found + [RouteFor(g, p)])
  {
    var fp := fpaths + [p];
    forall k | 0 <= k < |fpaths| ensures fpaths[k] != p {
      assert fpaths[k] in popped;
    }
    assert fp[..|fpaths|] == fpaths;
  }

  /** Before the loop: only the seed is queued and nothing is popped. */
  lemma UniqueInit(g: Graph, q: Query)
    ensures Unique(g, q, [Seed(q.start)], {}, [], [])
  {
  }

  /** A popped entry that is skipped keeps every path unique. */
  lemma UniqueReject(g: Graph, q: Query, heap: seq<Candidate>, i: nat, popped: set<seq<int>>,
                     fpaths: seq<seq<int>>, found: seq<Route>)
    requires Unique(g, q, heap, popped, fpaths, found) && i < |heap|
    ensures Unique(g, q, Remove(heap, i), popped + {heap[i].path}, fpaths, found)
  {
    FreshPop(heap, i, popped);
    FoundGrow(g, q, popped, heap[i].path, fpaths, found);
  }

  /** Recording the route of a popped destination entry adds a path never
      popped before, so the recorded paths stay distinct. */
  lemma UniqueAccept(g: Graph, q: Query, heap: seq<Candidate>, i: nat, popped: set<seq<int>>,
                     fpaths: seq<seq<int>>, found: seq<Route>)
    requires Unique(g, q, heap, popped, fpaths, found) && i < |heap|
    requires Queued(g, q, heap[i]) && Last(heap[i].path) == q.end && |heap[i].segments| >= 1
    ensures Unique(g, q, Remove(heap, i), popped + {heap[i].path}, fpaths + [heap[i].path],
                   found + [MakeRoute(heap[i])])
  {
    var c := heap[i];
    FreshPop(heap, i, popped);
    CandForTotals(g, q.crit, c.path);
    MakeRouteIsRouteFor(g, q.crit, c.path);
    FoundAppend(g, q, popped, fpaths, found, c.path);
  }

  /** Replacing a popped entry by its distinct extensions keeps every path
      unique. */
  lemma UniqueExpand(g: Graph, q: Query, heap: seq<Candidate>, i: nat, popped: set<seq<int>>,
                     fpaths: seq<seq<int>>, found: seq<Route>, ext: seq<Candidate>)
    requires Unique(g, q, heap, popped, fpaths, found) && i < |heap|
    requires forall d :: d in ext ==> Successor(g, q.crit, heap[i], d)
    requires DistinctEntries(ext)
    ensures Unique(g, q, Remove(heap, i) + ext, popped + {heap[i].path}, fpaths, found)
  {
    var c := heap[i];
    var rest := Remove(heap, i);
    FreshPop(heap, i, popped);
    forall d | d in rest ensures |d.path| >= 2 ==> d.path[..|d.path| - 1] in popped {
      assert d in heap;
    }
    NoChildYet(rest, popped, c);
    forall e | e in ext ensures |e.path| >= 2 && e.path[..|e.path| - 1] == c.path {
      SuccessorParent(g, q.crit, c, e);
    }
    FreshPush(rest, popped + {c.path}, c, ext);
    FoundGrow(g, q, popped, c.path, fpaths, found);
  }

  /** The recorded list comes from distinct simple paths. */
  lemma UniqueDistinct(g: Graph, q: Query, heap: seq<Candidate>, popped: set<seq<int>>,
                       fpaths: seq<seq<int>>, found: seq<Route>)
    requires Unique(g, q, heap, popped, fpaths, found)
    ensures FromDistinctPaths(g, q, found)
  {
    assert multiset(found) == multiset(RoutesOf(g, fpaths));
  }

  // ---------------------------------------------------------------- iterations

  lemma InitInv(g: Graph, q: Query)
    ensures Inv(g, q, [Seed(q.start)], [], {}, 0)
  {
    SeedQueued(g, q);
    forall p | Goal(g, q, p) ensures exists d :: d in [Seed(q.start)] && d.path <= p {
      assert Seed(q.start) in [Seed(q.start)];
      assert [q.start] <= p;
    }
  }

  /** A popped entry at the destination rejected by `max_cost` or
      `min_comfort` leaves the invariant in force. */
  lemma StepReject(g: Graph, q: Query, heap: seq<Candidate>, i: nat, found: seq<Route>,
                   popped: set<seq<int>>, floor: int)
    requires Inv(g, q, heap, found, popped, floor) && IsMin(heap, i)
    requires |heap[i].path| >= 1 && Last(heap[i].path) == q.end && Rejected(q, heap[i])
    ensures Inv(g, q, Remove(heap, i), found, popped + {heap[i].path}, heap[i].score)
  {
    var c := heap[i];
    assert Queued(g, q, c);
    HeapOkRemove(g, q, heap, i);
    OrderedPop(g, q, heap, i, found, floor);
    CoverAtEnd(g, q, heap, i, popped);
    if |c.path| >= 2 {
      RejectFails(g, q, c);
    }
    RecordSkip(g, q, c, popped, found);
    SameCityPop(q, heap, i, found);
  }

  /** A popped entry at the destination that passes both checks is reported,
      and the invariant stays in force. */
  lemma StepAccept(g: Graph, q: Query, heap: seq<Candidate>, i: nat, found: seq<Route>,
                   popped: set<seq<int>>, floor: int)
    requires Inv(g, q, heap, found, popped, floor) && IsMin(heap, i)
    requires |heap[i].path| >= 1 && Last(heap[i].path) == q.end && !Rejected(q, heap[i])
    requires |heap[i].segments| >= 1 && |found| < q.topN
    ensures Inv(g, q, Remove(heap, i), found + [MakeRoute(heap[i])], popped + {heap[i].path}, heap[i].score)
  {
    var c := heap[i];
    assert Queued(g, q, c);
    AcceptSound(g, q, c);
    HeapOkRemove(g, q, heap, i);
    OrderedPop(g, q, heap, i, found, floor);
    OrderedAppend(g, q, Remove(heap, i), found, c.score, MakeRoute(c));
    CoverAtEnd(g, q, heap, i, popped);
    RecordAppend(g, q, c.path, popped, found);
    SoundAppend(g, q, found, MakeRoute(c));
    SameCityPop(q, heap, i, found);
  }

  /** Expanding a popped entry that is not at the destination keeps the
      invariant: the extension toward every admissible goal path is pushed. */
  lemma StepExpand(g: Graph, q: Query, heap: seq<Candidate>, i: nat, found: seq<Route>,
                   popped: set<seq<int>>, floor: int, ext: seq<Candidate>)
    requires Inv(g, q, heap, found, popped, floor) && IsMin(heap, i)
    requires |heap[i].path| >= 1 && Last(heap[i].path) != q.end
    requires forall d :: d in ext ==> Successor(g, q.crit, heap[i], d) && !Pruned(d, q.maxCost, q.maxTransfers)
    requires forall nb :: nb in Fresh(g, heap[i].path) && !Pruned(Step(g, q.crit, heap[i], nb), q.maxCost, q.maxTransfers) ==>
               Step(g, q.crit, heap[i], nb) in ext
    ensures Inv(g, q, Remove(heap, i) + ext, found, popped + {heap[i].path}, heap[i].score)
  {
    var c := heap[i];
    assert Queued(g, q, c);
    HeapOkExpand(g, q, heap, i, ext);
    OrderedPop(g, q, heap, i, found, floor);
    if Monotone(q.crit) && ValidGraph(g) {
      forall d | d in ext ensures c.score <= d.score {
        SuccessorScore(g, q, c, d);
      }
    }
    OrderedPush(g, q, Remove(heap, i), found, c.score, ext);
    CoverExpand(g, q, heap, i, popped, ext);
    RecordSkip(g, q, c, popped, found);
    SameCityPop(q, heap, i, found);
  }

  /** Each iteration lowers the queue's weight. */
  lemma StepWeight(g: Graph, q: Query, n: nat, heap: seq<Candidate>, i: nat, ext: seq<Candidate>)
    requires n == |Nodes(g, q.start)|
    requires i < |heap| && Queued(g, q, heap[i])
    requires |ext| <= |Fresh(g, heap[i].path)|
    requires forall d :: d in ext ==> |d.path| == |heap[i].path| + 1
    ensures HeapWeight(n, Remove(heap, i) + ext) < HeapWeight(n, heap)
  {
    var c := heap[i];
    HeapWeightRemove(n, heap, i);
    HeapWeightConcat(n, Remove(heap, i), ext);
    FreshBound(g, q.start, c.path);
    var k := n - |c.path|;
    if |ext| > 0 {
      HeapWeightUniform(n, ext, |c.path| + 1);
      var w := Pow(n + 1, k - 1);
      MulLe(|ext|, k, w);
      PowStep(n + 1, k);
    } else {
      assert HeapWeight(n, ext) == 0;
    }
  }

  /** When the loop stops, the recorded list answers the query. */
  lemma Conclude(g: Graph, q: Query, heap: seq<Candidate>, found: seq<Route>,
                 popped: set<seq<int>>, floor: int)
    requires Inv(g, q, heap, found, popped, floor)
    requires !(|heap| > 0 && |found| < q.topN)
    ensures Exhaustive(g, q, found)
    ensures Best(g, q, found)
  {
    if Monotone(q.crit) && ValidGraph(g) {
      forall p | Goal(g, q, p) && Meets(RouteFor(g, p), q) && RouteFor(g, p) !in found
        ensures forall r :: r in found ==> Key(q.crit, r) <= Key(q.crit, RouteFor(g, p))
      {
        var d :| d in heap && d.path <= p;
        assert Queued(g, q, d);
        PrefixScore(g, q.crit, d.path, p);
      }
    }
  }
}
