/** Paths through the snapshot's graph and the search candidates that carry
    them: the running totals the search keeps for a partial path, and the
    route record it reports for a completed one. */
module Paths {
  import opened Wrappers
  import opened Graph

  /** No city id occurs twice. */
  ghost predicate Distinct(p: seq<int>) {
    forall i, j :: 0 <= i < j < |p| ==> p[i] != p[j]
  }

  /** A nonempty sequence of ids in which each consecutive pair is an edge. */
  ghost predicate Walk(g: Graph, p: seq<int>) {
    |p| >= 1 && forall k :: 0 <= k < |p| - 1 ==> HasEdge(g, p[k], p[k + 1])
  }

  /** A simple path from `s` to `e` with at least one segment. */
  ghost predicate SimplePath(g: Graph, s: int, e: int, p: seq<int>) {
    Walk(g, p) && Distinct(p) && |p| >= 2 && p[0] == s && p[|p| - 1] == e
  }

  /** The segment stored for the edge from `a` to `b`. */
  function Edge(g: Graph, a: int, b: int): Segment
    requires HasEdge(g, a, b)
  {
    g[a][b]
  }

  /** The segments a walk traverses, in order. */
  function Segs(g: Graph, p: seq<int>): (ss: seq<Segment>)
    requires Walk(g, p)
    ensures |ss| == |p| - 1
    ensures forall k :: 0 <= k < |ss| ==> ss[k] == Edge(g, p[k], p[k + 1])
    decreases |p|
  {
    if |p| == 1 then []
    else
      assert HasEdge(g, p[|p| - 2], p[|p| - 1]);
      assert Walk(g, p[..|p| - 1]) by {
        var q := p[..|p| - 1];
        forall k | 0 <= k < |q| - 1 ensures HasEdge(g, q[k], q[k + 1]) {
          assert q[k] == p[k] && q[k + 1] == p[k + 1];
        }
      }
      Segs(g, p[..|p| - 1]) + [Edge(g, p[|p| - 2], p[|p| - 1])]
  }

  lemma SegsPrefix(g: Graph, p: seq<int>, n: nat)
    requires Walk(g, p) && 1 <= n <= |p|
    ensures Walk(g, p[..n])
    ensures Segs(g, p[..n]) == Segs(g, p)[..n - 1]
  {
    var q := p[..n];
    forall k | 0 <= k < |q| - 1 ensures HasEdge(g, q[k], q[k + 1]) {
      assert q[k] == p[k] && q[k + 1] == p[k + 1];
    }
    var a := Segs(g, q);
    var b := Segs(g, p)[..n - 1];
    assert |a| == |b|;
    forall k | 0 <= k < |a| ensures a[k] == b[k] {
      assert q[k] == p[k] && q[k + 1] == p[k + 1];
    }
  }

  lemma SegsSnoc(g: Graph, p: seq<int>)
    requires Walk(g, p) && |p| >= 2
    ensures Walk(g, p[..|p| - 1])
    ensures HasEdge(g, p[|p| - 2], p[|p| - 1])
    ensures Segs(g, p) == Segs(g, p[..|p| - 1]) + [Edge(g, p[|p| - 2], p[|p| - 1])]
  {
    SegsPrefix(g, p, |p| - 1);
    assert HasEdge(g, p[|p| - 2], p[|p| - 1]);
  }

  function SumCost(ss: seq<Segment>): int {
    if |ss| == 0 then 0 else SumCost(ss[..|ss| - 1]) + ss[|ss| - 1].cost
  }

  function SumTime(ss: seq<Segment>): int {
    if |ss| == 0 then 0 else SumTime(ss[..|ss| - 1]) + ss[|ss| - 1].time
  }

  function SumComfort(ss: seq<Segment>): int {
    if |ss| == 0 then 0 else SumComfort(ss[..|ss| - 1]) + ss[|ss| - 1].comfort
  }

  /** Extending a walk's segments never lowers the cost sum when costs are
      non-negative, nor the time sum when times are. */
  lemma {:induction false} SumsGrow(ss: seq<Segment>, n: nat)
    requires n <= |ss|
    requires forall k :: 0 <= k < |ss| ==> ValidSegment(ss[k])
    ensures SumCost(ss[..n]) <= SumCost(ss)
    ensures SumTime(ss[..n]) <= SumTime(ss)
    decreases |ss| - n
  {
    if n < |ss| {
      SumsGrow(ss, n + 1);
      var t := ss[..n + 1];
      assert t[..|t| - 1] == ss[..n];
      if n + 1 == |ss| {
        assert t == ss;
      }
    } else {
      assert ss[..n] == ss;
    }
  }

  /** The comfort-criterion priority of a path with segments `ss`: minus the
      comfort of every segment, each reduced by 5 for every transfer made
      before it (the k-th segment, counted from 0, follows k transfers). */
  function ComfortScore(ss: seq<Segment>): int {
    if |ss| == 0 then 0
    else ComfortScore(ss[..|ss| - 1]) - (ss[|ss| - 1].comfort - 5 * (|ss| - 1))
  }

  /** The ranking criterion. `_sync_find_routes` compares the criterion string with
      `'cost'` and `'time_min'` when scoring and with `'comfort'` when
      defaulting the transfer limit and re-sorting, so a name that matches
      none of them is scored like comfort but never re-sorted. */
  datatype Criterion = ByCost | ByTime | ByComfort | ByOther(name: string)

  function CriterionOf(name: string): (r: Criterion)
    ensures r == ByCost <==> name == "cost"
    ensures r == ByTime <==> name == "time_min"
    ensures r == ByComfort <==> name == "comfort"
    ensures r.ByOther? <==> name !in {"cost", "time_min", "comfort"}
    ensures Monotone(r) <==> name == "cost" || name == "time_min"
  {
    if name == "cost" then ByCost
    else if name == "time_min" then ByTime
    else if name == "comfort" then ByComfort
    else ByOther(name)
  }

  /** The priority the search gives a path with segments `ss`, by criterion:
      the cost sum, the time sum, or otherwise the comfort score. */
  function ScoreOf(crit: Criterion, ss: seq<Segment>): int {
    match crit
    case ByCost => SumCost(ss)
    case ByTime => SumTime(ss)
    case _ => ComfortScore(ss)
  }

  /** Criteria whose priority is a running sum that cannot decrease along a
      walk over valid segments. */
  predicate Monotone(crit: Criterion) {
    crit.ByCost? || crit.ByTime?
  }

  /** A heap entry: `(score, path, segments, total_cost, total_comfort, transfers)`. */
  datatype Candidate = Candidate(score: int, path: seq<int>, segments: seq<Segment>,
                                 totalCost: int, totalComfort: int, transfers: int)

  /** The entry the heap is seeded with. */
  function Seed(start: int): Candidate {
    Candidate(0, [start], [], 0, 0, 0)
  }

  /** The entry pushed for the step from `c` to neighbour `nb` over `seg`.
      Running totals that agree with the sums over the segments so far still
      agree after the step, and the score stays the criterion's priority. */
  function Extend(c: Candidate, nb: int, seg: Segment, crit: Criterion): (d: Candidate)
    ensures Tracks(crit, c, c.path, c.segments) ==> Tracks(crit, d, c.path + [nb], c.segments + [seg])
  {
    SumsSnoc(c.segments, seg);
    var newCost := c.totalCost + seg.cost;
    var newComfort := c.totalComfort + seg.comfort;
    var newTransfers := if |c.segments| > 0 then c.transfers + 1 else 0;
    var newScore :=
      match crit
      case ByCost => newCost
      case ByTime => c.score + seg.time
      case _ => c.score - (seg.comfort - newTransfers * 5);
    Candidate(newScore, c.path + [nb], c.segments + [seg], newCost, newComfort, newTransfers)
  }

  /** The entry the search holds for walk `p` once it has been built from the
      seed by successive extensions. */
  function CandFor(g: Graph, crit: Criterion, p: seq<int>): Candidate
    requires Walk(g, p)
    decreases |p|
  {
    if |p| == 1 then Seed(p[0])
    else
      SegsSnoc(g, p);
      Extend(CandFor(g, crit, p[..|p| - 1]), p[|p| - 1], Edge(g, p[|p| - 2], p[|p| - 1]), crit)
  }

  /** `c` is the entry for path `p` over segments `ss`: its running totals
      are the sums over `ss`, `transfers` is one less than the number of
      segments (0 before the first), and its score is the criterion's
      priority of `ss`. */
  predicate Tracks(crit: Criterion, c: Candidate, p: seq<int>, ss: seq<Segment>) {
    && c.path == p
    && c.segments == ss
    && c.totalCost == SumCost(ss)
    && c.totalComfort == SumComfort(ss)
    && c.transfers == (if |ss| >= 1 then |ss| - 1 else 0)
    && c.score == ScoreOf(crit, ss)
  }

  /** The entry the search builds for a walk tracks the walk's segments. */
  lemma {:induction false} CandForTotals(g: Graph, crit: Criterion, p: seq<int>)
    requires Walk(g, p)
    ensures Tracks(crit, CandFor(g, crit, p), p, Segs(g, p))
    decreases |p|
  {
    if |p| >= 2 {
      var q, nb, seg := CandForSnoc(g, crit, p);
      CandForTotals(g, crit, q);
    }
  }

  /** The entry of a walk of two or more cities is the extension of the
      entry of the walk without its last city. */
  lemma CandForSnoc(g: Graph, crit: Criterion, p: seq<int>) returns (q: seq<int>, nb: int, seg: Segment)
    requires Walk(g, p) && |p| >= 2
    ensures Walk(g, q) && |q| == |p| - 1 && p == q + [nb]
    ensures Segs(g, p) == Segs(g, q) + [seg]
    ensures CandFor(g, crit, p) == Extend(CandFor(g, crit, q), nb, seg, crit)
  {
    q, nb := p[..|p| - 1], p[|p| - 1];
    SegsSnoc(g, p);
    seg := Edge(g, p[|p| - 2], p[|p| - 1]);
    assert q + [nb] == p;
  }

  /** Appending a segment adds its figures to every sum, and its comfort,
      less 5 for each transfer before it, to the comfort score. */
  lemma SumsSnoc(ss: seq<Segment>, seg: Segment)
    ensures SumCost(ss + [seg]) == SumCost(ss) + seg.cost
    ensures SumTime(ss + [seg]) == SumTime(ss) + seg.time
    ensures SumComfort(ss + [seg]) == SumComfort(ss) + seg.comfort
    ensures ComfortScore(ss + [seg]) == ComfortScore(ss) - (seg.comfort - 5 * |ss|)
  {
    assert (ss + [seg])[..|ss|] == ss;
  }

  /** Every segment of a walk through a valid graph is valid. */
  lemma SegsValid(g: Graph, p: seq<int>)
    requires Walk(g, p) && ValidGraph(g)
    ensures forall k :: 0 <= k < |Segs(g, p)| ==> ValidSegment(Segs(g, p)[k])
  {
    var ss := Segs(g, p);
    forall k | 0 <= k < |ss| ensures ValidSegment(ss[k]) {
      assert HasEdge(g, p[k], p[k + 1]);
    }
  }

  /** The last city of a nonempty path. */
  function Last(p: seq<int>): int
    requires |p| >= 1
  {
    p[|p| - 1]
  }

  /** Neighbours of the path's last city that the path has not visited
      (the route search skips a neighbour already in `path`). */
  function Fresh(g: Graph, p: seq<int>): set<int>
    requires |p| >= 1
  {
    set nb | nb in Adj(g, Last(p)) && nb !in p
  }

  /** The entry pushed when `c` is extended to its neighbour `nb`. */
  function Step(g: Graph, crit: Criterion, c: Candidate, nb: int): Candidate
    requires |c.path| >= 1 && nb in Adj(g, Last(c.path))
  {
    Extend(c, nb, Adj(g, Last(c.path))[nb], crit)
  }

  /** `d` is the extension of `c` to one of its fresh neighbours. */
  ghost predicate Successor(g: Graph, crit: Criterion, c: Candidate, d: Candidate) {
    && |c.path| >= 1
    && |d.path| == |c.path| + 1
    && d.path[|c.path|] in Fresh(g, c.path)
    && d == Step(g, crit, c, d.path[|c.path|])
  }

  /** No two entries carry the same path. */
  ghost predicate DistinctEntries(cs: seq<Candidate>) {
    forall i, j :: 0 <= i < j < |cs| ==> cs[i].path != cs[j].path
  }

  /** The early exits taken before a push: the extended cost exceeds
      `max_cost`, or the extended transfer count exceeds `max_transfers`. */
  predicate Pruned(d: Candidate, maxCost: Option<int>, maxTransfers: Option<int>) {
    || (maxCost.Some? && d.totalCost > maxCost.value)
    || (maxTransfers.Some? && d.transfers > maxTransfers.value)
  }

  /** The route record: city names along the path, transport types,
      segments, totals, average comfort and transfer count. */
  datatype Route = Route(path: seq<string>, transport: seq<string>, segments: seq<Segment>,
                         totalCost: int, totalTime: int, avgComfort: real, transfers: int)

  /** The departure city of every segment, in order. */
  function FromCities(ss: seq<Segment>): (names: seq<string>)
    ensures |names| == |ss|
    ensures forall k :: 0 <= k < |ss| ==> names[k] == ss[k].fromCity
  {
    if |ss| == 0 then [] else FromCities(ss[..|ss| - 1]) + [ss[|ss| - 1].fromCity]
  }

  /** The transport type of every segment, in order. */
  function Transports(ss: seq<Segment>): (kinds: seq<string>)
    ensures |kinds| == |ss|
    ensures forall k :: 0 <= k < |ss| ==> kinds[k] == ss[k].transport
  {
    if |ss| == 0 then [] else Transports(ss[..|ss| - 1]) + [ss[|ss| - 1].transport]
  }

  function Mean(total: int, n: int): real
    requires n > 0
  {
    (total as real) / (n as real)
  }

  /** The record the search appends for a completed entry: names and
      transports read off the segments, the running cost and comfort totals,
      the time summed afresh. */
  function MakeRoute(c: Candidate): (r: Route)
    requires |c.segments| >= 1
    ensures r.segments == c.segments
    ensures |r.path| == |r.segments| + 1 && |r.transport| == |r.segments| && r.transfers == |r.segments| - 1
    ensures forall k :: 0 <= k < |r.segments| ==>
              r.path[k] == r.segments[k].fromCity && r.transport[k] == r.segments[k].transport
    ensures r.path[|r.segments|] == r.segments[|r.segments| - 1].toCity
  {
    var ss := c.segments;
    Route(FromCities(ss) + [ss[|ss| - 1].toCity], Transports(ss), ss,
          c.totalCost, SumTime(ss), Mean(c.totalComfort, |ss|), |ss| - 1)
  }

  /** The route a path with at least one segment stands for: its totals and
      mean comfort taken over its segments. */
  function RouteFor(g: Graph, p: seq<int>): Route
    requires Walk(g, p) && |p| >= 2
  {
    var ss := Segs(g, p);
    Route(FromCities(ss) + [ss[|ss| - 1].toCity], Transports(ss), ss,
          SumCost(ss), SumTime(ss), Mean(SumComfort(ss), |ss|), |ss| - 1)
  }

  /** The record the search builds from its running totals is the route of
      the path. */
  lemma MakeRouteIsRouteFor(g: Graph, crit: Criterion, p: seq<int>)
    requires Walk(g, p) && |p| >= 2
    ensures MakeRoute(CandFor(g, crit, p)) == RouteFor(g, p)
  {
    CandForTotals(g, crit, p);
  }

  /** The shape of every reported route: one more city than segments, one
      transport per segment, `transfers` one less than the segment count,
      and the names along the path read off the segments. */
  lemma RouteForShape(g: Graph, p: seq<int>)
    requires Walk(g, p) && |p| >= 2
    ensures var r := RouteFor(g, p);
      && |r.path| == |r.segments| + 1 == |p|
      && |r.transport| == |r.segments|
      && r.transfers == |r.segments| - 1
      && (forall k :: 0 <= k < |r.segments| ==>
            r.path[k] == r.segments[k].fromCity && r.transport[k] == r.segments[k].transport)
      && r.path[|p| - 1] == r.segments[|p| - 2].toCity
  {
  }
}
