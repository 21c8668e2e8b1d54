/** What a search is asked and what its answer promises: the query with
    both city names resolved, the paths the pruning lets through, and the
    properties of a reported list. */
module Queries {
  import opened Wrappers
  import opened Graph
  import opened Paths

  /** The arguments of one search with both city names resolved to ids;
      `maxTransfers` is the limit in force (after the comfort default). */
  datatype Query = Query(start: int, end: int, crit: Criterion, topN: int,
                         maxCost: Option<int>, minComfort: Option<real>, maxTransfers: Option<int>)

  /** What the search raises instead of returning a list. */
  datatype SearchError =
    | GraphNotLoaded   // RuntimeError('Graph not loaded') on an empty graph
    | DivisionByZero   // total_comfort / len(segments) on a path with no segment
    | EmptyPathIndex   // segments[-1] on a path with no segment

  function Max0(n: int): nat {
    if n > 0 then n else 0
  }

  /** Every nonempty prefix of the segments stays within the cost ceiling,
      and a path of `n` segments makes `n - 1` transfers within the limit:
      no push along the way was pruned. */
  ghost predicate WithinLimits(ss: seq<Segment>, maxCost: Option<int>, maxTransfers: Option<int>)
    decreases |ss|
  {
    |ss| > 0 ==>
      && WithinLimits(ss[..|ss| - 1], maxCost, maxTransfers)
      && (maxCost.Some? ==> SumCost(ss) <= maxCost.value)
      && (maxTransfers.Some? ==> |ss| - 1 <= maxTransfers.value)
  }

  /** The limits hold of every prefix of segments they hold of. */
  lemma {:induction false} WithinLimitsPrefix(ss: seq<Segment>, n: nat, maxCost: Option<int>, maxTransfers: Option<int>)
    requires WithinLimits(ss, maxCost, maxTransfers) && n <= |ss|
    ensures WithinLimits(ss[..n], maxCost, maxTransfers)
    decreases |ss|
  {
    if n < |ss| {
      WithinLimitsPrefix(ss[..|ss| - 1], n, maxCost, maxTransfers);
      assert ss[..|ss| - 1][..n] == ss[..n];
    } else {
      assert ss[..n] == ss;
    }
  }

  /** A simple walk from the start city that the pruning never cuts off. */
  ghost predicate Admissible(g: Graph, q: Query, p: seq<int>) {
    Walk(g, p) && Distinct(p) && p[0] == q.start && WithinLimits(Segs(g, p), q.maxCost, q.maxTransfers)
  }

  /** What every queue entry is: the entry built for an admissible path. */
  ghost predicate Queued(g: Graph, q: Query, d: Candidate) {
    Admissible(g, q, d.path) && d == CandFor(g, q.crit, d.path)
  }

  /** An admissible path that reaches the destination. */
  ghost predicate Goal(g: Graph, q: Query, p: seq<int>) {
    Admissible(g, q, p) && |p| >= 2 && Last(p) == q.end
  }

  /** The route respects the cost ceiling, the comfort floor and the
      transfer limit, each only when it is set. */
  predicate Meets(r: Route, q: Query) {
    && (q.maxCost.Some? ==> r.totalCost <= q.maxCost.value)
    && (q.minComfort.Some? ==> r.avgComfort >= q.minComfort.value)
    && (q.maxTransfers.Some? ==> r.transfers <= q.maxTransfers.value)
  }

  /** `r` is the record of some simple path from `s` to `e`. */
  ghost predicate IsRouteOf(g: Graph, s: int, e: int, r: Route) {
    exists p :: SimplePath(g, s, e, p) && r == RouteFor(g, p)
  }

  /** The quantity a monotone criterion ranks by. */
  function Key(crit: Criterion, r: Route): int {
    if crit.ByCost? then r.totalCost else r.totalTime
  }

  ghost predicate SortedByKey(crit: Criterion, rs: seq<Route>) {
    forall i, j :: 0 <= i < j < |rs| ==> Key(crit, rs[i]) <= Key(crit, rs[j])
  }

  ghost predicate SortedByComfort(rs: seq<Route>) {
    forall i, j :: 0 <= i < j < |rs| ==> rs[i].avgComfort >= rs[j].avgComfort
  }

  /** Every reported route is a simple path from start to destination that
      meets the constraints. */
  ghost predicate Sound(g: Graph, q: Query, routes: seq<Route>) {
    forall r :: r in routes ==> IsRouteOf(g, q.start, q.end, r) && Meets(r, q)
  }

  /** Cost and time results come out in non-decreasing order of their
      criterion (when segment figures are valid); comfort results in
      non-increasing average comfort. */
  ghost predicate Ranked(g: Graph, q: Query, routes: seq<Route>) {
    && (Monotone(q.crit) && ValidGraph(g) ==> SortedByKey(q.crit, routes))
    && (q.crit == ByComfort ==> SortedByComfort(routes))
  }

  /** Fewer than `top_n` results means every acceptable route was found. */
  ghost predicate Exhaustive(g: Graph, q: Query, routes: seq<Route>) {
    |routes| < q.topN ==>
      forall p :: Goal(g, q, p) && Meets(RouteFor(g, p), q) ==> RouteFor(g, p) in routes
  }

  /** For cost and time, an acceptable route left out ranks no better than
      any reported one. */
  ghost predicate Best(g: Graph, q: Query, routes: seq<Route>) {
    Monotone(q.crit) && ValidGraph(g) ==>
      forall p :: Goal(g, q, p) && Meets(RouteFor(g, p), q) ==>
        || RouteFor(g, p) in routes
        || forall r :: r in routes ==> Key(q.crit, r) <= Key(q.crit, RouteFor(g, p))
  }

  /** No path occurs twice. */
  ghost predicate DistinctPaths(ps: seq<seq<int>>) {
    forall i, j :: 0 <= i < j < |ps| ==> ps[i] != ps[j]
  }

  /** The routes of the walks `ps`, in order. */
  function RoutesOf(g: Graph, ps: seq<seq<int>>): (rs: seq<Route>)
    requires forall k :: 0 <= k < |ps| ==> Walk(g, ps[k]) && |ps[k]| >= 2
    ensures |rs| == |ps|
    ensures forall k :: 0 <= k < |ps| ==> rs[k] == RouteFor(g, ps[k])
    decreases |ps|
  {
    if |ps| == 0 then [] else RoutesOf(g, ps[..|ps| - 1]) + [RouteFor(g, ps[|ps| - 1])]
  }

  /** The routes, in some order, are those of pairwise distinct simple paths
      from start to destination: each path is reported at most once. */
  ghost predicate FromDistinctPaths(g: Graph, q: Query, routes: seq<Route>) {
    exists ps ::
      && (forall k :: 0 <= k < |ps| ==> SimplePath(g, q.start, q.end, ps[k]))
      && DistinctPaths(ps)
      && multiset(routes) == multiset(RoutesOf(g, ps))
  }

  /** What a successful search promises about its list besides coming from
      distinct paths (`FromDistinctPaths`, stated on its own). */
  ghost predicate Answers(g: Graph, q: Query, routes: seq<Route>) {
    && |routes| <= Max0(q.topN)
    && Sound(g, q, routes)
    && Ranked(g, q, routes)
    && Exhaustive(g, q, routes)
    && Best(g, q, routes)
  }

  /** Valid segments whose totals meet the cost ceiling and transfer limit
      meet them on every prefix too: costs only grow along a path. */
  lemma {:induction false} WithinOfTotals(ss: seq<Segment>, maxCost: Option<int>, maxTransfers: Option<int>)
    requires forall k :: 0 <= k < |ss| ==> ValidSegment(ss[k])
    requires maxCost.Some? ==> SumCost(ss) <= maxCost.value
    requires maxTransfers.Some? ==> |ss| - 1 <= maxTransfers.value
    ensures WithinLimits(ss, maxCost, maxTransfers)
    decreases |ss|
  {
    if |ss| > 0 {
      var t := ss[..|ss| - 1];
      SumsGrow(ss, |ss| - 1);
      WithinOfTotals(t, maxCost, maxTransfers);
    }
  }

  /** On valid segment figures, a simple path from start to destination
      whose route meets the constraints is one the pruning lets through, so
      it is a goal path. */
  lemma GoalOfMeets(g: Graph, q: Query, p: seq<int>)
    requires ValidGraph(g) && SimplePath(g, q.start, q.end, p) && Meets(RouteFor(g, p), q)
    ensures Goal(g, q, p)
  {
    SegsValid(g, p);
    WithinOfTotals(Segs(g, p), q.maxCost, q.maxTransfers);
  }

  /** On valid segment figures, a successful answer shorter than `top_n`
      holds the route of every simple path from start to destination that
      meets the constraints, and for cost and time every such route left
      out ranks no better than any reported one. */
  lemma AnswersCover(g: Graph, q: Query, routes: seq<Route>)
    requires Answers(g, q, routes) && ValidGraph(g)
    ensures |routes| < q.topN ==>
              forall p :: SimplePath(g, q.start, q.end, p) && Meets(RouteFor(g, p), q) ==> RouteFor(g, p) in routes
    ensures Monotone(q.crit) ==>
              forall p :: SimplePath(g, q.start, q.end, p) && Meets(RouteFor(g, p), q) && RouteFor(g, p) !in routes ==>
                forall r :: r in routes ==> Key(q.crit, r) <= Key(q.crit, RouteFor(g, p))
  {
    forall p | SimplePath(g, q.start, q.end, p) && Meets(RouteFor(g, p), q)
      ensures Goal(g, q, p)
    {
      GoalOfMeets(g, q, p);
    }
  }

  /** With room for at least one route and `p` a cheapest acceptable simple
      path (by a monotone criterion, on valid segment figures), the answer is
      not empty and its first route ranks exactly as well as `p`. */
  lemma FirstIsOptimal(g: Graph, q: Query, routes: seq<Route>, p: seq<int>)
    requires Answers(g, q, routes) && q.topN >= 1 && Monotone(q.crit) && ValidGraph(g)
    requires SimplePath(g, q.start, q.end, p) && Meets(RouteFor(g, p), q)
    requires forall p' :: SimplePath(g, q.start, q.end, p') && Meets(RouteFor(g, p'), q) ==>
               Key(q.crit, RouteFor(g, p)) <= Key(q.crit, RouteFor(g, p'))
    ensures |routes| >= 1 && Key(q.crit, routes[0]) == Key(q.crit, RouteFor(g, p))
  {
    GoalOfMeets(g, q, p);
    var best := RouteFor(g, p);
    if |routes| < q.topN {
      assert best in routes;
    }
    assert routes[0] in routes;
    var p0 :| SimplePath(g, q.start, q.end, p0) && routes[0] == RouteFor(g, p0);
    assert Key(q.crit, best) <= Key(q.crit, routes[0]);
    if best in routes {
      var k :| 0 <= k < |routes| && routes[k] == best;
      if k > 0 {
        assert Key(q.crit, routes[0]) <= Key(q.crit, routes[k]);
      }
    } else {
      assert Key(q.crit, routes[0]) <= Key(q.crit, best);
    }
  }
}
