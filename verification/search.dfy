/** The best-first enumeration of simple paths between two cities
    (`_sync_find_routes`): a priority queue seeded with the start city,
    popped in score order, with completed paths checked against the
    constraints and incomplete ones extended to every unvisited neighbour. */
module Search {
  import opened Wrappers
  import opened Graph
  import opened Paths
  import opened Heap
  import opened Queries
  import opened Steps
  import opened Ranking

  // ---------------------------------------------------------------- operations

  /** Every entry pushed so far extends `c` to a fresh neighbour and
      survives the pruning. */
  ghost predicate AllSucc(g: Graph, crit: Criterion, c: Candidate, maxCost: Option<int>, maxTransfers: Option<int>,
                          ext: seq<Candidate>) {
    forall d :: d in ext ==> Successor(g, crit, c, d) && !Pruned(d, maxCost, maxTransfers)
  }

  /** Every visited neighbour that is fresh and survives the pruning has
      had its extension pushed. */
  ghost predicate AllPushed(g: Graph, crit: Criterion, c: Candidate, maxCost: Option<int>, maxTransfers: Option<int>,
                            done: set<int>, ext: seq<Candidate>)
    requires |c.path| >= 1
  {
    forall nb :: nb in done && nb in Fresh(g, c.path) && !Pruned(Step(g, crit, c, nb), maxCost, maxTransfers) ==>
      Step(g, crit, c, nb) in ext
  }

  lemma PushKeeps(g: Graph, crit: Criterion, c: Candidate, maxCost: Option<int>, maxTransfers: Option<int>,
                  done: set<int>, ext: seq<Candidate>, nb: int)
    requires |c.path| >= 1 && nb in Fresh(g, c.path) && !Pruned(Step(g, crit, c, nb), maxCost, maxTransfers)
    requires AllSucc(g, crit, c, maxCost, maxTransfers, ext)
    requires AllPushed(g, crit, c, maxCost, maxTransfers, done, ext)
    ensures AllSucc(g, crit, c, maxCost, maxTransfers, ext + [Step(g, crit, c, nb)])
    ensures AllPushed(g, crit, c, maxCost, maxTransfers, done + {nb}, ext + [Step(g, crit, c, nb)])
  {
    var d := Step(g, crit, c, nb);
    assert d.path[|c.path|] == nb;
    assert Successor(g, crit, c, d);
  }

  lemma SkipKeeps(g: Graph, crit: Criterion, c: Candidate, maxCost: Option<int>, maxTransfers: Option<int>,
                  done: set<int>, ext: seq<Candidate>, nb: int)
    requires |c.path| >= 1 && !(nb in Fresh(g, c.path) && !Pruned(Step(g, crit, c, nb), maxCost, maxTransfers))
    requires AllPushed(g, crit, c, maxCost, maxTransfers, done, ext)
    ensures AllPushed(g, crit, c, maxCost, maxTransfers, done + {nb}, ext)
  {
  }

  /** Every pushed entry steps to a neighbour already visited. */
  ghost predicate NextIn(c: Candidate, ext: seq<Candidate>, done: set<int>) {
    forall d :: d in ext ==> |d.path| > |c.path| && d.path[|c.path|] in done
  }

  /** Pushing the step to a neighbour not visited before keeps the pushed
      paths distinct. */
  lemma PushDistinct(c: Candidate, ext: seq<Candidate>, done: set<int>, nb: int, d: Candidate)
    requires NextIn(c, ext, done) && DistinctEntries(ext) && nb !in done
    requires |d.path| > |c.path| && d.path[|c.path|] == nb
    ensures NextIn(c, ext + [d], done + {nb}) && DistinctEntries(ext + [d])
  {
    forall i | 0 <= i < |ext| ensures ext[i].path != d.path {
      assert ext[i] in ext;
    }
  }

  lemma SkipDistinct(c: Candidate, ext: seq<Candidate>, done: set<int>, nb: int)
    requires NextIn(c, ext, done)
    ensures NextIn(c, ext, done + {nb})
  {
  }

  lemma CountPush(unseen: set<int>, todo: set<int>, nb: int, k: nat)
    requires nb in todo && nb in unseen && k <= |unseen - todo|
    ensures k + 1 <= |unseen - (todo - {nb})|
  {
    assert unseen - (todo - {nb}) == (unseen - todo) + {nb};
  }

  lemma CountSkip(unseen: set<int>, todo: set<int>, nb: int, k: nat)
    requires k <= |unseen - todo|
    ensures k <= |unseen - (todo - {nb})|
  {
    SubsetCard(unseen - todo, unseen - (todo - {nb}));
  }

  /** One turn of the neighbour loop: skips a neighbour already on the
      path, then one whose extension exceeds `max_cost` or `max_transfers`,
      and pushes the extension of any other. */
  method Visit(g: Graph, c: Candidate, crit: Criterion, maxCost: Option<int>, maxTransfers: Option<int>,
               nb: int, ext: seq<Candidate>) returns (ext': seq<Candidate>)
    requires |c.path| >= 1 && nb in Adj(g, Last(c.path))
    ensures if nb in Fresh(g, c.path) && !Pruned(Step(g, crit, c, nb), maxCost, maxTransfers)
            then ext' == ext + [Step(g, crit, c, nb)]
            else ext' == ext
  {
    ext' := ext;
    if nb in c.path {
      return;
    }
    var d := Extend(c, nb, Adj(g, c.path[|c.path| - 1])[nb], crit);
    if maxCost.Some? && d.totalCost > maxCost.value {
      return;
    }
    if maxTransfers.Some? && d.transfers > maxTransfers.value {
      return;
    }
    ext' := ext + [d];
  }

  /** The neighbour loop's invariant: `todo` is what is left of `keys`,
      and the entries pushed for the visited neighbours are the distinct,
      unpruned extensions of `c` to exactly its fresh visited neighbours. */
  ghost predicate Scanned(g: Graph, crit: Criterion, c: Candidate, maxCost: Option<int>, maxTransfers: Option<int>,
                          keys: set<int>, todo: set<int>, ext: seq<Candidate>)
    requires |c.path| >= 1
  {
    && todo <= keys
    && |ext| <= |Fresh(g, c.path) - todo|
    && AllSucc(g, crit, c, maxCost, maxTransfers, ext)
    && AllPushed(g, crit, c, maxCost, maxTransfers, keys - todo, ext)
    && NextIn(c, ext, keys - todo)
    && DistinctEntries(ext)
  }

  /** Before the neighbour loop nothing is visited and nothing pushed. */
  lemma ScanStart(g: Graph, crit: Criterion, c: Candidate, maxCost: Option<int>, maxTransfers: Option<int>,
                  keys: set<int>)
    requires |c.path| >= 1
    ensures Scanned(g, crit, c, maxCost, maxTransfers, keys, keys, [])
  {
    var none: seq<Candidate> := [];
    assert keys - keys == {};
    assert AllSucc(g, crit, c, maxCost, maxTransfers, none);
    assert AllPushed(g, crit, c, maxCost, maxTransfers, {}, none);
    assert NextIn(c, none, {}) && DistinctEntries(none);
  }

  /** One turn of the neighbour loop keeps `Scanned`. */
  lemma ScanStep(g: Graph, crit: Criterion, c: Candidate, maxCost: Option<int>, maxTransfers: Option<int>,
                 keys: set<int>, todo: set<int>, nb: int, ext: seq<Candidate>, ext': seq<Candidate>)
    requires |c.path| >= 1 && nb in todo
    requires Scanned(g, crit, c, maxCost, maxTransfers, keys, todo, ext)
    requires if nb in Fresh(g, c.path) && !Pruned(Step(g, crit, c, nb), maxCost, maxTransfers)
             then ext' == ext + [Step(g, crit, c, nb)]
             else ext' == ext
    ensures Scanned(g, crit, c, maxCost, maxTransfers, keys, todo - {nb}, ext')
  {
    var done := keys - todo;
    assert keys - (todo - {nb}) == done + {nb};
    if nb in Fresh(g, c.path) && !Pruned(Step(g, crit, c, nb), maxCost, maxTransfers) {
      CountPush(Fresh(g, c.path), todo, nb, |ext|);
      PushKeeps(g, crit, c, maxCost, maxTransfers, done, ext, nb);
      PushDistinct(c, ext, done, nb, Step(g, crit, c, nb));
    } else {
      CountSkip(Fresh(g, c.path), todo, nb, |ext|);
      SkipKeeps(g, crit, c, maxCost, maxTransfers, done, ext, nb);
      SkipDistinct(c, ext, done, nb);
    }
  }

  /** A finished neighbour loop has pushed the distinct, unpruned
      extensions of `c` to exactly its fresh neighbours. */
  lemma ScanDone(g: Graph, crit: Criterion, c: Candidate, maxCost: Option<int>, maxTransfers: Option<int>,
                 ext: seq<Candidate>)
    requires |c.path| >= 1
    requires Scanned(g, crit, c, maxCost, maxTransfers, Adj(g, Last(c.path)).Keys, {}, ext)
    ensures |ext| <= |Fresh(g, c.path)|
    ensures forall d :: d in ext ==> Successor(g, crit, c, d) && !Pruned(d, maxCost, maxTransfers)
    ensures forall nb :: nb in Fresh(g, c.path) && !Pruned(Step(g, crit, c, nb), maxCost, maxTransfers) ==>
              Step(g, crit, c, nb) in ext
    ensures DistinctEntries(ext)
  {
    assert Fresh(g, c.path) - {} == Fresh(g, c.path);
    assert Adj(g, Last(c.path)).Keys - {} == Adj(g, Last(c.path)).Keys;
  }

  /** Pushes, for every neighbour of the entry's last city not on its path,
      the extended entry unless it breaks `max_cost` or `max_transfers`;
      one pass over the neighbours pushes each of them at most once. */
  method Expand(g: Graph, c: Candidate, crit: Criterion, maxCost: Option<int>, maxTransfers: Option<int>)
    returns (ext: seq<Candidate>)
    requires |c.path| >= 1
    ensures |ext| <= |Fresh(g, c.path)|
    ensures forall d :: d in ext ==> Successor(g, crit, c, d) && !Pruned(d, maxCost, maxTransfers)
    ensures forall nb :: nb in Fresh(g, c.path) && !Pruned(Step(g, crit, c, nb), maxCost, maxTransfers) ==>
              Step(g, crit, c, nb) in ext
    ensures DistinctEntries(ext)
  {
    var nbrs := Adj(g, Last(c.path));
    var todo := nbrs.Keys;
    ext := [];
    ScanStart(g, crit, c, maxCost, maxTransfers, todo);
    while todo != {}
      invariant Scanned(g, crit, c, maxCost, maxTransfers, nbrs.Keys, todo, ext)
      decreases todo
    {
      HasMember(todo);
      var nb :| nb in todo;
      var ext' := Visit(g, c, crit, maxCost, maxTransfers, nb, ext);
      ScanStep(g, crit, c, maxCost, maxTransfers, nbrs.Keys, todo, nb, ext, ext');
      todo := todo - {nb};
      ext := ext';
    }
    ScanDone(g, crit, c, maxCost, maxTransfers, ext);
  }

  /** The comfort re-sort and the `top_n` cut keep every promise the
      recorded list makes, and put a comfort list in order. */
  lemma Deliver(g: Graph, q: Query, found: seq<Route>)
    requires |found| <= Max0(q.topN) && Sound(g, q, found)
    requires Monotone(q.crit) && ValidGraph(g) ==> SortedByKey(q.crit, found)
    requires Exhaustive(g, q, found) && Best(g, q, found)
    ensures Answers(g, q, TakePrefix(Arrange(q.crit, found), q.topN))
  {
    var routes := Arrange(q.crit, found);
    assert |routes| == |found| by {
      assert |multiset(routes)| == |multiset(found)|;
    }
    assert TakePrefix(routes, q.topN) == routes;
    forall r ensures r in routes <==> r in found {
      assert r in routes <==> r in multiset(routes);
      assert r in found <==> r in multiset(found);
    }
  }

  /** The comfort re-sort and the `top_n` cut keep the routes those of
      distinct paths. */
  lemma DeliverDistinct(g: Graph, q: Query, found: seq<Route>)
    requires |found| <= Max0(q.topN) && FromDistinctPaths(g, q, found)
    ensures FromDistinctPaths(g, q, TakePrefix(Arrange(q.crit, found), q.topN))
  {
    var routes := Arrange(q.crit, found);
    var ps :| && (forall k :: 0 <= k < |ps| ==> SimplePath(g, q.start, q.end, ps[k]))
              && DistinctPaths(ps)
              && multiset(found) == multiset(RoutesOf(g, ps));
    assert |routes| == |found| by {
      assert |multiset(routes)| == |multiset(found)|;
    }
    assert TakePrefix(routes, q.topN) == routes;
    assert multiset(routes) == multiset(RoutesOf(g, ps));
  }

  /** The search proper (`_sync_find_routes` after the graph check and the
      name lookups). */
  method Search(g: Graph, q: Query) returns (res: Result<seq<Route>, SearchError>)
    ensures res.Failure? ==> res.error != GraphNotLoaded
    ensures res.Failure? <==>
              q.start == q.end && q.topN > 0 && !(q.maxCost.Some? && q.maxCost.value < 0)
    ensures res.Failure? ==> (res.error == DivisionByZero <==> q.minComfort.Some?)
    ensures res.Success? ==> Answers(g, q, res.value)
    ensures res.Success? ==> FromDistinctPaths(g, q, res.value)
  {
    var heap := [Seed(q.start)];
    var found: seq<Route> := [];
    ghost var popped: set<seq<int>> := {};
    ghost var fpaths: seq<seq<int>> := [];
    ghost var floor := 0;
    ghost var n := |Nodes(g, q.start)|;
    InitInv(g, q);
    UniqueInit(g, q);
    while |heap| > 0 && |found| < q.topN
      invariant Inv(g, q, heap, found, popped, floor)
      invariant Unique(g, q, heap, popped, fpaths, found)
      decreases HeapWeight(n, heap)
    {
      var i := PopMin(heap);
      var c := heap[i];
      assert Queued(g, q, c);
      HeapWeightRemove(n, heap, i);
      if c.path[|c.path| - 1] == q.end {
        if q.maxCost.Some? && c.totalCost > q.maxCost.value {
          StepReject(g, q, heap, i, found, popped, floor);
          UniqueReject(g, q, heap, i, popped, fpaths, found);
          heap, popped, floor := Remove(heap, i), popped + {c.path}, c.score;
        } else if q.minComfort.Some? && |c.segments| == 0 {
          CandForTotals(g, q.crit, c.path);
          return Failure(DivisionByZero);
        } else if q.minComfort.Some? && Mean(c.totalComfort, |c.segments|) < q.minComfort.value {
          StepReject(g, q, heap, i, found, popped, floor);
          UniqueReject(g, q, heap, i, popped, fpaths, found);
          heap, popped, floor := Remove(heap, i), popped + {c.path}, c.score;
        } else if |c.segments| == 0 {
          CandForTotals(g, q.crit, c.path);
          return Failure(EmptyPathIndex);
        } else {
          StepAccept(g, q, heap, i, found, popped, floor);
          UniqueAccept(g, q, heap, i, popped, fpaths, found);
          heap, found, popped, floor := Remove(heap, i), found + [MakeRoute(c)], popped + {c.path}, c.score;
          fpaths := fpaths + [c.path];
        }
      } else {
        var ext := Expand(g, c, q.crit, q.maxCost, q.maxTransfers);
        StepExpand(g, q, heap, i, found, popped, floor, ext);
        StepWeight(g, q, n, heap, i, ext);
        UniqueExpand(g, q, heap, i, popped, fpaths, found, ext);
        heap, popped, floor := Remove(heap, i) + ext, popped + {c.path}, c.score;
      }
    }
    Conclude(g, q, heap, found, popped, floor);
    UniqueDistinct(g, q, heap, popped, fpaths, found);
    Deliver(g, q, found);
    DeliverDistinct(g, q, found);
    res := Success(TakePrefix(Arrange(q.crit, found), q.topN));
  }

  /** The limit on transfers in force: a limit given is kept as it is; with
      none given, the criterion `'comfort'` gets 7 and the others stay
      unlimited. */
  function EffectiveMaxTransfers(crit: Criterion, maxTransfers: Option<int>): (r: Option<int>)
    ensures maxTransfers.Some? ==> r == maxTransfers
    ensures maxTransfers.None? ==> (r.Some? <==> crit == ByComfort) && (r.Some? ==> r.value == 7)
  {
    if crit == ByComfort && maxTransfers.None? then Some(7) else maxTransfers
  }

  /** The query a call stands for once both names have resolved. */
  function QueryOf(snap: Snapshot, startCity: string, endCity: string, criterion: string, topN: int,
                   maxCost: Option<int>, minComfort: Option<real>, maxTransfers: Option<int>): Query
    requires startCity in snap.cities && endCity in snap.cities
  {
    var crit := CriterionOf(criterion);
    Query(snap.cities[startCity], snap.cities[endCity], crit, topN,
          maxCost, minComfort, EffectiveMaxTransfers(crit, maxTransfers))
  }

  /** `_sync_find_routes` on a snapshot: refuses an empty graph, returns no
      route when either name is unknown (or maps to id 0), otherwise runs the
      search with the comfort default for `max_transfers`. */
  method FindRoutes(snap: Snapshot, startCity: string, endCity: string, criterion: string, topN: int,
                    maxCost: Option<int>, minComfort: Option<real>, maxTransfers: Option<int>)
    returns (res: Result<seq<Route>, SearchError>)
    ensures res == Failure(GraphNotLoaded) <==> |snap.graph| == 0
    ensures |snap.graph| > 0 &&
            !(Resolved(Lookup(snap.cities, startCity)) && Resolved(Lookup(snap.cities, endCity))) ==>
              res == Success([])
    ensures |snap.graph| > 0 && Resolved(Lookup(snap.cities, startCity)) && Resolved(Lookup(snap.cities, endCity)) ==>
              var q := QueryOf(snap, startCity, endCity, criterion, topN, maxCost, minComfort, maxTransfers);
              && (res.Success? ==> Answers(snap.graph, q, res.value) && FromDistinctPaths(snap.graph, q, res.value))
              && (res.Failure? <==> q.start == q.end && topN > 0 && !(maxCost.Some? && maxCost.value < 0))
    ensures res.Failure? && |snap.graph| > 0 ==> (res.error == DivisionByZero <==> minComfort.Some?)
    ensures res.Success? && criterion == "comfort" && maxTransfers.None? ==>
              forall r :: r in res.value ==> r.transfers <= 7
  {
    if |snap.graph| == 0 {
      return Failure(GraphNotLoaded);
    }
    var startId := Lookup(snap.cities, startCity);
    var endId := Lookup(snap.cities, endCity);
    if !Resolved(startId) || !Resolved(endId) {
      return Success([]);
    }
    var q := QueryOf(snap, startCity, endCity, criterion, topN, maxCost, minComfort, maxTransfers);
    res := Search(snap.graph, q);
  }
}
