/** The in-memory snapshot the route search reads: the adjacency map built
    from the joined route rows and the name-to-id index built from the city
    rows. Both are left folds in which a later row overwrites an earlier one. */
module Graph {
  import opened Wrappers

  /** One row of the joined routes query: the edge's endpoint ids, its
      figures, both city names and the transport type. */
  datatype RouteRow = RouteRow(fromId: int, toId: int, cost: int, time: int, comfort: int,
                               fromCity: string, toCity: string, transport: string)

  /** The record stored for an edge in the adjacency map. */
  datatype Segment = Segment(cost: int, time: int, comfort: int,
                             fromCity: string, toCity: string, transport: string)

  /** One row of the cities query. */
  datatype CityRow = CityRow(id: int, name: string)

  /** `graph[from_id][to_id]` is the segment from `from_id` to `to_id`. */
  type Graph = map<int, map<int, Segment>>

  /** City name to city id. */
  type CityIndex = map<string, int>

  /** The pair of structures published together and read by every search. */
  datatype Snapshot = Snapshot(graph: Graph, cities: CityIndex)

  function SegmentOf(row: RouteRow): Segment {
    Segment(row.cost, row.time, row.comfort, row.fromCity, row.toCity, row.transport)
  }

  /** The neighbours of `v`; a city with no outgoing edge has none (the
      route search's `defaultdict(dict)` yields an empty dict for it). */
  function Adj(g: Graph, v: int): map<int, Segment> {
    if v in g then g[v] else map[]
  }

  predicate HasEdge(g: Graph, a: int, b: int) {
    a in g && b in g[a]
  }

  /** The database's CHECK constraints on a route: cost >= 0, time > 0,
      comfort between 0 and 100. */
  predicate ValidSegment(s: Segment) {
    s.cost >= 0 && s.time > 0 && 0 <= s.comfort <= 100
  }

  ghost predicate ValidGraph(g: Graph) {
    forall a, b :: HasEdge(g, a, b) ==> ValidSegment(g[a][b])
  }

  /** `graph[from_id][to_id] = {...}` for one row. */
  function AddRow(g: Graph, row: RouteRow): Graph {
    g[row.fromId := Adj(g, row.fromId)[row.toId := SegmentOf(row)]]
  }

  /** The fold over the route rows in query order. */
  function BuildGraph(rows: seq<RouteRow>): (g: Graph)
    ensures forall i :: 0 <= i < |rows| ==> HasEdge(g, rows[i].fromId, rows[i].toId)
    ensures |rows| > 0 ==> var last := rows[|rows| - 1];
              HasEdge(g, last.fromId, last.toId) && g[last.fromId][last.toId] == SegmentOf(last)
    decreases |rows|
  {
    if |rows| == 0 then map[] else AddRow(BuildGraph(rows[..|rows| - 1]), rows[|rows| - 1])
  }

  predicate SamePair(a: RouteRow, b: RouteRow) {
    a.fromId == b.fromId && a.toId == b.toId
  }

  /** `rows[i]` is the last row, in input order, with its (from, to) pair. */
  ghost predicate LastOfPair(rows: seq<RouteRow>, i: int) {
    0 <= i < |rows| && forall j :: i < j < |rows| ==> !SamePair(rows[j], rows[i])
  }

  /** Building the adjacency map keeps, for every (from, to) pair, the last
      row carrying it, and creates no entry that no row asked for. */
  lemma {:induction false} BuildGraphLastWins(rows: seq<RouteRow>)
    ensures forall i :: LastOfPair(rows, i) ==>
              HasEdge(BuildGraph(rows), rows[i].fromId, rows[i].toId) &&
              BuildGraph(rows)[rows[i].fromId][rows[i].toId] == SegmentOf(rows[i])
    ensures forall f, t :: HasEdge(BuildGraph(rows), f, t) ==>
              exists i :: 0 <= i < |rows| && rows[i].fromId == f && rows[i].toId == t
    ensures forall f :: f in BuildGraph(rows) ==> |BuildGraph(rows)[f]| > 0
    decreases |rows|
  {
    if |rows| > 0 {
      var pre := rows[..|rows| - 1];
      var last := rows[|rows| - 1];
      BuildGraphLastWins(pre);
      var g0 := BuildGraph(pre);
      var g := BuildGraph(rows);
      assert g == AddRow(g0, last);
      forall i | LastOfPair(rows, i)
        ensures HasEdge(g, rows[i].fromId, rows[i].toId) && g[rows[i].fromId][rows[i].toId] == SegmentOf(rows[i])
      {
        if i < |rows| - 1 {
          assert !SamePair(last, rows[i]);
          assert LastOfPair(pre, i) by {
            forall j | i < j < |pre| ensures !SamePair(pre[j], pre[i]) {
              assert pre[j] == rows[j];
            }
          }
        }
      }
      forall f, t | HasEdge(g, f, t)
        ensures exists i :: 0 <= i < |rows| && rows[i].fromId == f && rows[i].toId == t
      {
        if f == last.fromId && t == last.toId {
          assert rows[|rows| - 1] == last;
        } else {
          assert HasEdge(g0, f, t);
          var i :| 0 <= i < |pre| && pre[i].fromId == f && pre[i].toId == t;
          assert rows[i] == pre[i];
        }
      }
      forall f | f in g ensures |g[f]| > 0 {
        if f == last.fromId {
          assert last.toId in g[f];
        } else {
          assert f in g0;
        }
      }
    }
  }

  /** The loaded graph is empty exactly when the routes query returned no
      row, which is when the search refuses to run. */
  lemma BuildGraphEmpty(rows: seq<RouteRow>)
    ensures |BuildGraph(rows)| == 0 <==> |rows| == 0
  {
    if |rows| > 0 {
      var last := rows[|rows| - 1];
      assert last.fromId in BuildGraph(rows);
    }
  }

  /** `city_cache[row['name']] = row['id']` for one row. */
  function AddCity(idx: CityIndex, row: CityRow): CityIndex {
    idx[row.name := row.id]
  }

  /** The fold over the city rows in query order. */
  function BuildCityIndex(rows: seq<CityRow>): (idx: CityIndex)
    ensures forall i :: 0 <= i < |rows| ==> rows[i].name in idx
    ensures |rows| > 0 ==> idx[rows[|rows| - 1].name] == rows[|rows| - 1].id
    decreases |rows|
  {
    if |rows| == 0 then map[] else AddCity(BuildCityIndex(rows[..|rows| - 1]), rows[|rows| - 1])
  }

  /** `rows[i]` is the last row, in input order, with its name. */
  ghost predicate LastOfName(rows: seq<CityRow>, i: int) {
    0 <= i < |rows| && forall j :: i < j < |rows| ==> rows[j].name != rows[i].name
  }

  /** The city index maps every loaded name to the id of its last row and
      holds no other name. */
  lemma {:induction false} BuildCityIndexLastWins(rows: seq<CityRow>)
    ensures forall i :: LastOfName(rows, i) ==>
              rows[i].name in BuildCityIndex(rows) && BuildCityIndex(rows)[rows[i].name] == rows[i].id
    ensures forall n :: n in BuildCityIndex(rows) ==> exists i :: 0 <= i < |rows| && rows[i].name == n
    decreases |rows|
  {
    if |rows| > 0 {
      var pre := rows[..|rows| - 1];
      var last := rows[|rows| - 1];
      BuildCityIndexLastWins(pre);
      var idx := BuildCityIndex(rows);
      forall i | LastOfName(rows, i)
        ensures rows[i].name in idx && idx[rows[i].name] == rows[i].id
      {
        if i < |rows| - 1 {
          assert last.name != rows[i].name;
          assert LastOfName(pre, i) by {
            forall j | i < j < |pre| ensures pre[j].name != pre[i].name {
              assert pre[j] == rows[j];
            }
          }
        }
      }
      forall n | n in idx ensures exists i :: 0 <= i < |rows| && rows[i].name == n {
        if n == last.name {
          assert rows[|rows| - 1] == last;
        } else {
          var i :| 0 <= i < |pre| && pre[i].name == n;
          assert rows[i] == pre[i];
        }
      }
    }
  }

  /** Loads a snapshot from the two query results. */
  function Load(routeRows: seq<RouteRow>, cityRows: seq<CityRow>): Snapshot {
    Snapshot(BuildGraph(routeRows), BuildCityIndex(cityRows))
  }

  /** `CITY_CACHE.get(name)`. */
  function Lookup(idx: CityIndex, name: string): (r: Option<int>)
    ensures r.Some? <==> name in idx
    ensures r.Some? ==> r.value == idx[name]
  {
    if name in idx then Some(idx[name]) else None
  }

  /** `_sync_find_routes` tests `not start_id`: a missing name and the id 0
      both count as unresolved. */
  predicate Resolved(id: Option<int>) {
    id.Some? && id.value != 0
  }

  /** A name resolves exactly when the index holds it with a nonzero id. */
  lemma ResolvedLookup(idx: CityIndex, name: string)
    ensures Resolved(Lookup(idx, name)) <==> name in idx && idx[name] != 0
  {
  }
}
