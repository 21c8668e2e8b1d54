/** The three-city network of the search's own tests: Moscow (1), SPb (2)
    and Kazan (3), with a train Moscow-SPb, a bus SPb-Kazan and a plane
    Moscow-Kazan. Comfort is kept on the 0-100 scale, so 0.8, 0.7 and 0.9
    become 80, 70 and 90; no test reads it. */
module Fixture {
  import opened Wrappers
  import opened Graph
  import opened Paths
  import opened Queries
  import opened Search

  const Rows: seq<RouteRow> := [
    RouteRow(1, 2, 100, 60, 80, "Moscow", "SPb", "train"),
    RouteRow(2, 3, 150, 90, 70, "SPb", "Kazan", "bus"),
    RouteRow(1, 3, 200, 120, 90, "Moscow", "Kazan", "plane")
  ]

  const Cities: seq<CityRow> := [CityRow(1, "Moscow"), CityRow(2, "SPb"), CityRow(3, "Kazan")]

  const Train := Segment(100, 60, 80, "Moscow", "SPb", "train")
  const Bus := Segment(150, 90, 70, "SPb", "Kazan", "bus")
  const Plane := Segment(200, 120, 90, "Moscow", "Kazan", "plane")

  /** The adjacency map the three rows produce. */
  const G: Graph := map[1 := map[2 := Train, 3 := Plane], 2 := map[3 := Bus]]

  /** The city index the three city rows produce. */
  const Index: CityIndex := map["Moscow" := 1, "SPb" := 2, "Kazan" := 3]

  /** The three route rows fold into the expected adjacency map, whose
      figures meet the database's constraints. */
  lemma GraphLoaded()
    ensures BuildGraph(Rows) == G
    ensures ValidGraph(G) && |G| > 0
  {
    var r1 := Rows[..1];
    var g1 := BuildGraph(r1);
    assert |r1| == 1 && r1[..0] == [] && r1[0] == Rows[0];
    assert BuildGraph(r1[..0]) == map[];
    assert g1 == AddRow(map[], Rows[0]);
    assert SegmentOf(Rows[0]) == Train;
    assert g1 == map[1 := map[2 := Train]];
    assert Rows[..2][..1] == Rows[..1];
    var g2 := BuildGraph(Rows[..2]);
    assert g2 == AddRow(g1, Rows[1]);
    assert g2 == map[1 := map[2 := Train], 2 := map[3 := Bus]];
    assert Rows[..3] == Rows;
    assert BuildGraph(Rows) == AddRow(g2, Rows[2]);
  }

  /** The three city rows fold into the expected index. */
  lemma IndexLoaded()
    ensures BuildCityIndex(Cities) == Index
  {
    assert Cities[..1][..0] == [];
    assert BuildCityIndex(Cities[..1]) == map["Moscow" := 1];
    assert Cities[..2][..1] == Cities[..1];
    assert BuildCityIndex(Cities[..2]) == map["Moscow" := 1, "SPb" := 2];
    assert Cities[..3] == Cities;
  }

  /** Loading the fixture gives the expected snapshot. */
  lemma Loaded()
    ensures Load(Rows, Cities) == Snapshot(G, Index)
    ensures ValidGraph(G) && |G| > 0
  {
    GraphLoaded();
    IndexLoaded();
  }

  /** The names the tests use resolve to their ids; "Unknown" does not. */
  lemma Names()
    ensures Lookup(Index, "Moscow") == Some(1) && Lookup(Index, "SPb") == Some(2)
    ensures Lookup(Index, "Kazan") == Some(3) && Lookup(Index, "Unknown") == None
    ensures CriterionOf("cost") == ByCost && CriterionOf("time_min") == ByTime
  {
  }

  /** Every edge of the fixture leads to a city of higher id, so a walk
      climbs by at least one id per step and never passes Kazan. */
  lemma {:induction false} Climbs(p: seq<int>)
    requires Walk(G, p)
    ensures forall k :: 0 <= k < |p| ==> p[0] + k <= p[k]
    ensures |p| >= 2 ==> p[|p| - 1] <= 3
    decreases |p|
  {
    if |p| >= 2 {
      var q := p[..|p| - 1];
      assert Walk(G, q) by {
        forall k | 0 <= k < |q| - 1 ensures HasEdge(G, q[k], q[k + 1]) {
          assert q[k] == p[k] && q[k + 1] == p[k + 1];
        }
      }
      Climbs(q);
      assert HasEdge(G, p[|p| - 2], p[|p| - 1]);
      forall k | 0 <= k < |p| ensures p[0] + k <= p[k] {
        if k < |p| - 1 {
          assert p[k] == q[k];
        }
      }
    }
  }

  /** Kazan is reached from Moscow by the plane alone or by train and bus. */
  lemma MoscowToKazan(p: seq<int>)
    requires SimplePath(G, 1, 3, p)
    ensures p == [1, 3] || p == [1, 2, 3]
  {
    Climbs(p);
    assert |p| <= 3;
    if |p| == 3 {
      assert HasEdge(G, p[0], p[1]) && p[1] != p[2];
    }
  }

  /** Routes from distinct Moscow-to-Kazan paths number at most two, so a
      search between them reports each of its two routes at most once. */
  lemma MoscowKazanAtMostTwo(q: Query, routes: seq<Route>)
    requires q.start == 1 && q.end == 3 && FromDistinctPaths(G, q, routes)
    ensures |routes| <= 2
  {
    var ps :| && (forall k :: 0 <= k < |ps| ==> SimplePath(G, q.start, q.end, ps[k]))
              && DistinctPaths(ps)
              && multiset(routes) == multiset(RoutesOf(G, ps));
    assert |routes| == |multiset(RoutesOf(G, ps))| == |ps|;
    if |ps| >= 3 {
      MoscowToKazan(ps[0]);
      MoscowToKazan(ps[1]);
      MoscowToKazan(ps[2]);
      assert false;
    }
  }

  /** SPb is reached from Moscow only by the train. */
  lemma MoscowToSPb(p: seq<int>)
    requires SimplePath(G, 1, 2, p)
    ensures p == [1, 2]
  {
    Climbs(p);
  }

  /** Kazan is reached from SPb only by the bus. */
  lemma SPbToKazan(p: seq<int>)
    requires SimplePath(G, 2, 3, p)
    ensures p == [2, 3]
  {
    Climbs(p);
  }

  /** A one-hop route carries the figures of its edge. */
  lemma OneHop(a: int, b: int)
    requires HasEdge(G, a, b)
    ensures Walk(G, [a, b]) && Distinct([a, b])
    ensures RouteFor(G, [a, b]).totalCost == G[a][b].cost && RouteFor(G, [a, b]).totalTime == G[a][b].time
  {
    var ss := Segs(G, [a, b]);
    assert ss == [G[a][b]];
    assert ss[..0] == [];
    assert SumCost(ss) == G[a][b].cost;
    assert SumTime(ss) == G[a][b].time;
    assert RouteFor(G, [a, b]).totalCost == SumCost(ss);
  }

  /** Train and bus together cost 250 and take 150 minutes. */
  lemma TrainThenBus()
    ensures Walk(G, [1, 2, 3])
    ensures RouteFor(G, [1, 2, 3]).totalCost == 250 && RouteFor(G, [1, 2, 3]).totalTime == 150
  {
    var ss := Segs(G, [1, 2, 3]);
    assert ss == [Train, Bus];
    var t := ss[..1];
    assert t == [Train] && t[..0] == [];
    assert SumCost(t) == SumCost([]) + Train.cost;
    assert SumTime(t) == SumTime([]) + Train.time;
    assert SumCost(ss) == 250 && SumTime(ss) == 150;
    assert RouteFor(G, [1, 2, 3]).totalCost == SumCost(ss);
  }

  /** The plane is the cheapest and the fastest way from Moscow to Kazan. */
  lemma BestMoscowKazan(crit: Criterion)
    requires Monotone(crit)
    ensures Walk(G, [1, 3]) && Distinct([1, 3])
    ensures Key(ByCost, RouteFor(G, [1, 3])) == 200 && Key(ByTime, RouteFor(G, [1, 3])) == 120
    ensures forall p' :: SimplePath(G, 1, 3, p') ==> Key(crit, RouteFor(G, [1, 3])) <= Key(crit, RouteFor(G, p'))
  {
    assert HasEdge(G, 1, 3) && G[1][3] == Plane;
    OneHop(1, 3);
    forall p' | SimplePath(G, 1, 3, p') ensures Key(crit, RouteFor(G, [1, 3])) <= Key(crit, RouteFor(G, p')) {
      MoscowToKazan(p');
      TrainThenBus();
    }
  }

  /** The train is the cheapest way from Moscow to SPb. */
  lemma BestMoscowSPb()
    ensures Walk(G, [1, 2]) && Distinct([1, 2])
    ensures Key(ByCost, RouteFor(G, [1, 2])) == 100
    ensures forall p' :: SimplePath(G, 1, 2, p') ==> Key(ByCost, RouteFor(G, [1, 2])) <= Key(ByCost, RouteFor(G, p'))
  {
    assert HasEdge(G, 1, 2) && G[1][2] == Train;
    OneHop(1, 2);
    forall p' | SimplePath(G, 1, 2, p') ensures Key(ByCost, RouteFor(G, [1, 2])) <= Key(ByCost, RouteFor(G, p')) {
      MoscowToSPb(p');
    }
  }

  /** The bus is the cheapest way from SPb to Kazan. */
  lemma BestSPbKazan()
    ensures Walk(G, [2, 3]) && Distinct([2, 3])
    ensures Key(ByCost, RouteFor(G, [2, 3])) == 150
    ensures forall p' :: SimplePath(G, 2, 3, p') ==> Key(ByCost, RouteFor(G, [2, 3])) <= Key(ByCost, RouteFor(G, p'))
  {
    assert HasEdge(G, 2, 3) && G[2][3] == Bus;
    OneHop(2, 3);
    forall p' | SimplePath(G, 2, 3, p') ensures Key(ByCost, RouteFor(G, [2, 3])) <= Key(ByCost, RouteFor(G, p')) {
      SPbToKazan(p');
    }
  }

  /** An answer shorter than `top_n` holds the route of any given simple
      path that meets the constraints. */
  lemma CoverOne(q: Query, routes: seq<Route>, p: seq<int>)
    requires Exhaustive(G, q, routes) && |routes| < q.topN
    requires SimplePath(G, q.start, q.end, p) && Meets(RouteFor(G, p), q)
    ensures RouteFor(G, p) in routes
  {
    Loaded();
    GoalOfMeets(G, q, p);
  }

  /** A list holding two different routes has at least two entries. */
  lemma TwoMembers(routes: seq<Route>, a: Route, b: Route)
    requires a in routes && b in routes && a != b
    ensures |routes| >= 2
  {
    var i :| 0 <= i < |routes| && routes[i] == a;
    var j :| 0 <= j < |routes| && routes[j] == b;
    assert i != j;
  }

  /** The plane and the train with the bus are different routes. */
  lemma PlaneNotTrainBus()
    ensures Walk(G, [1, 3]) && Walk(G, [1, 2, 3])
    ensures RouteFor(G, [1, 3]) != RouteFor(G, [1, 2, 3])
  {
    BestMoscowKazan(ByCost);
    TrainThenBus();
  }

  /** A default-argument answer from Moscow to Kazan shorter than `top_n`
      holds both routes there are. */
  lemma BothIn(crit: Criterion, routes: seq<Route>)
    requires Exhaustive(G, Query(1, 3, crit, 5, None, None, None), routes) && |routes| < 5
    ensures Walk(G, [1, 3]) && Walk(G, [1, 2, 3])
    ensures RouteFor(G, [1, 3]) in routes && RouteFor(G, [1, 2, 3]) in routes
  {
    var q := Query(1, 3, crit, 5, None, None, None);
    PlaneNotTrainBus();
    assert SimplePath(G, 1, 3, [1, 3]) && SimplePath(G, 1, 3, [1, 2, 3]);
    CoverOne(q, routes, [1, 3]);
    CoverOne(q, routes, [1, 2, 3]);
  }

  /** A default-argument answer from Moscow to Kazan drawn from distinct
      paths holds exactly the two routes there are: the plane and the train
      with the bus. */
  lemma BothMoscowKazan(crit: Criterion, routes: seq<Route>)
    requires Answers(G, Query(1, 3, crit, 5, None, None, None), routes)
    requires FromDistinctPaths(G, Query(1, 3, crit, 5, None, None, None), routes)
    ensures |routes| == 2
  {
    MoscowKazanAtMostTwo(Query(1, 3, crit, 5, None, None, None), routes);
    BothIn(crit, routes);
    PlaneNotTrainBus();
    TwoMembers(routes, RouteFor(G, [1, 3]), RouteFor(G, [1, 2, 3]));
  }

  /** A search of the fixture with the default arguments between two
      distinct cities succeeds, and its first route reaches the optimum. */
  lemma FirstOf(s: int, e: int, crit: Criterion, res: Result<seq<Route>, SearchError>, p: seq<int>)
    requires Monotone(crit) && s != e && Walk(G, p) && Distinct(p) && |p| >= 2 && p[0] == s && Last(p) == e
    requires forall p' :: SimplePath(G, s, e, p') ==> Key(crit, RouteFor(G, p)) <= Key(crit, RouteFor(G, p'))
    requires res.Success? && Answers(G, Query(s, e, crit, 5, None, None, None), res.value)
    ensures res.Success? && |res.value| >= 1 && Key(crit, res.value[0]) == Key(crit, RouteFor(G, p))
  {
    var q := Query(s, e, crit, 5, None, None, None);
    Loaded();
    FirstIsOptimal(G, q, res.value, p);
  }

  /** `find_routes(a, b, criterion)` on the loaded fixture with every other
      argument left at its default, between two distinct known cities. */
  method DefaultSearch(a: string, b: string, criterion: string, s: int, e: int, crit: Criterion)
    returns (res: Result<seq<Route>, SearchError>)
    requires Lookup(Index, a) == Some(s) && Lookup(Index, b) == Some(e) && s != 0 && e != 0 && s != e
    requires CriterionOf(criterion) == crit && Monotone(crit)
    ensures res.Success? && Answers(G, Query(s, e, crit, 5, None, None, None), res.value)
    ensures res.Success? && FromDistinctPaths(G, Query(s, e, crit, 5, None, None, None), res.value)
  {
    Loaded();
    res := FindRoutes(Load(Rows, Cities), a, b, criterion, 5, None, None, None);
  }

  /** `find_routes('Moscow', 'Kazan', 'cost')` puts the plane, at 200, first,
      and reports the two routes there are, once each. */
  method CheapestMoscowKazan() returns (res: Result<seq<Route>, SearchError>)
    ensures res.Success? && |res.value| >= 1 && res.value[0].totalCost == 200
    ensures res.Success? && |res.value| == 2
  {
    Names();
    res := DefaultSearch("Moscow", "Kazan", "cost", 1, 3, ByCost);
    BestMoscowKazan(ByCost);
    FirstOf(1, 3, ByCost, res, [1, 3]);
    BothMoscowKazan(ByCost, res.value);
  }

  /** `find_routes('Moscow', 'Kazan', 'time_min')` puts the plane, at 120
      minutes, first, and reports the two routes there are, once each. */
  method FastestMoscowKazan() returns (res: Result<seq<Route>, SearchError>)
    ensures res.Success? && |res.value| >= 1 && res.value[0].totalTime == 120
    ensures res.Success? && |res.value| == 2
  {
    Names();
    res := DefaultSearch("Moscow", "Kazan", "time_min", 1, 3, ByTime);
    BestMoscowKazan(ByTime);
    FirstOf(1, 3, ByTime, res, [1, 3]);
    BothMoscowKazan(ByTime, res.value);
  }

  /** `find_routes('Moscow', 'SPb', 'cost')` starts with the train at 100. */
  method CheapestMoscowSPb() returns (res: Result<seq<Route>, SearchError>)
    ensures res.Success? && |res.value| >= 1 && res.value[0].totalCost == 100
  {
    Names();
    res := DefaultSearch("Moscow", "SPb", "cost", 1, 2, ByCost);
    BestMoscowSPb();
    FirstOf(1, 2, ByCost, res, [1, 2]);
  }

  /** `find_routes('SPb', 'Kazan', 'cost')` starts with the bus at 150. */
  method CheapestSPbKazan() returns (res: Result<seq<Route>, SearchError>)
    ensures res.Success? && |res.value| >= 1 && res.value[0].totalCost == 150
  {
    Names();
    res := DefaultSearch("SPb", "Kazan", "cost", 2, 3, ByCost);
    BestSPbKazan();
    FirstOf(2, 3, ByCost, res, [2, 3]);
  }

  /** An unknown city name gives an empty list. */
  method UnknownCity() returns (res: Result<seq<Route>, SearchError>)
    ensures res == Success([])
  {
    Loaded();
    Names();
    res := FindRoutes(Load(Rows, Cities), "Unknown", "Kazan", "cost", 5, None, None, None);
  }
}
