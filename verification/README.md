# Route search: a verified model

This project models the route-search engine of a small travel planner and
the duration formatter of its route cards.

The engine keeps an in-memory snapshot of the transport network. The
snapshot has two parts:

- an adjacency map `graph[from_id][to_id]`, which holds one segment per
  ordered pair of cities: cost, time, comfort, both city names and the
  transport type;
- a name-to-id city index.

Both parts are left folds over database rows, and a later row overwrites an
earlier one.

`_sync_find_routes` runs a best-first enumeration of simple paths from the
start city. It orders a priority queue by one of three scores:

- `'cost'`: the cost sum;
- `'time_min'`: the time sum;
- any other name: a comfort score, penalised per transfer and negated.

It has these further behaviours:

- Extensions are pruned by `max_cost` and `max_transfers`. For `'comfort'`,
  the transfer limit defaults to 7.
- `min_comfort` is checked once a path reaches the destination.
- The search stops after `top_n` accepted routes.
- For `'comfort'`, the results are re-sorted by average comfort.

The frontend's `formatTime` renders a duration in minutes as
`"<h> ч <m> мин"`. The hours part is dropped below one hour.

## Modules

- `wrappers.dfy` (`Wrappers`): `Option` and `Result`.
- `graph.dfy` (`Graph`): the row records, the two folds, the snapshot,
  the name lookup, and `Resolved`. `Resolved` is the negation of the
  `not start_id` test in `_sync_find_routes`, so id 0 counts as unresolved.
- `paths.dfy` (`Paths`), the paths through the graph and their bookkeeping:
  - walks and simple paths, and the segments along a walk;
  - the cost, time and comfort sums;
  - the three scores;
  - the queue entry (`Candidate`) with its incremental update `Extend`;
  - `CandFor(g, crit, p)`, the entry the search builds along path `p`;
  - the route record, `MakeRoute` from an entry and `RouteFor` from a path.
- `heap.dfy` (`Heap`):
  - `heappop`, abstracted as "remove some entry of minimal score";
  - the termination measure. An entry whose path has length `k` weighs
    `(N+1)^(N-k)`, where `N` counts the start city together with every city
    that some edge enters: every city a path can visit.
- `queries.dfy` (`Queries`): the resolved query, the search errors, and what
  an answer promises:
  - *sound*: every route is a simple path from start to end that meets the
    constraints;
  - *ranked*: by key for cost and time, by average comfort for `'comfort'`;
  - *exhaustive*: fewer than `top_n` routes means every acceptable route is
    present;
  - *best*: no acceptable route left out ranks better than a reported one;
  - *distinct* (`FromDistinctPaths`): the routes are, up to order, those of
    pairwise distinct simple paths, so no path is reported twice. `Answers`
    holds the first four; the search promises this one beside it.
- `steps.dfy` (`Steps`): the loop invariant of the search and one lemma per
  branch of the loop body. A second invariant (`Unique`) tracks the popped
  paths: no path is queued twice or queued again once popped, so each
  accepted path is new.
- `ranking.dfy` (`Ranking`): the final comfort sort, an insertion sort on
  sequences, and Python's `found_routes[:top_n]` slice.
- `search.dfy` (`Search`):
  - the neighbour loop (`Visit`, `Expand`, with its invariant `Scanned`);
  - the search loop (`Search`);
  - the entry point `FindRoutes`, with the empty-graph check, the name
    lookups and the comfort default.
- `timefmt.dfy` (`TimeFormat`): `formatTime`, the decimal rendering of
  integers, and a reader that parses the output back.
- `fixture.dfy` (`Fixture`): the three-city network of the search's tests.
  It proves the expected first results from the contracts of `FindRoutes`.

The search is sound, exhaustive and ordered for the cost and time criteria
when segment figures meet the database's CHECK constraints
(backend/scripts/db_script.py:29-31). Under those constraints no prefix
scores more than the full path. The comfort score has no such property, so
for `'comfort'` only soundness, exhaustiveness when fewer than `top_n` routes
are found, and the final ordering are stated.

When start and end are the same city, `_sync_find_routes` crashes:

- with `min_comfort` set, it divides by `len(segments) == 0` at routes.py:108;
- otherwise it indexes `segments[-1]` at routes.py:113.

The model returns `Failure(DivisionByZero)` or `Failure(EmptyPathIndex)` in
these cases, exactly when `top_n > 0` and no negative `max_cost` rejects the
one-city path first. An empty graph gives `Failure(GraphNotLoaded)`.

`formatTime` follows JavaScript: `Math.floor` for the hours and the
truncating `%` for the minutes. For a negative duration the hours part is
therefore never shown, and the minutes carry a minus sign, so -90 shows as
"-30 мин". The minutes lie in 0..59 only for non-negative durations.

## Model

| member | source | states |
|---|---|---|
| Graph.BuildGraph | backend/app/functions/routes/routes.py:43-53 | every row's (from, to) pair is an edge of the loaded graph, and the last row's pair holds exactly that row's segment |
| Graph.BuildGraphLastWins | backend/app/functions/routes/routes.py:43-53 | for every (from, to) pair the map holds the segment of the last row carrying that pair; every edge comes from some row; no city has an empty neighbour map |
| Graph.BuildGraphEmpty | backend/app/functions/routes/routes.py:84-85 | the loaded graph is empty exactly when there was no route row, the case in which the search refuses to run |
| Graph.BuildCityIndex | backend/app/functions/routes/routes.py:67-68 | every row's name is in the index, and the last row's name maps to that row's id |
| Graph.BuildCityIndexLastWins | backend/app/functions/routes/routes.py:67-68 | every loaded name maps to the id of its last row, and the index holds no other name |
| Graph.ResolvedLookup | backend/app/functions/routes/routes.py:87-91 | a name counts as resolved exactly when the index holds it with an id other than 0; a missing name or id 0 is unresolved |
| Paths.Extend | backend/app/functions/routes/routes.py:127-156 | one step keeps the running totals in line with the segments: cost and comfort sums, one transfer fewer than segments, and the criterion's score of the longer segment list |
| Paths.CriterionOf | backend/app/functions/routes/routes.py:93-159 | `'cost'`, `'time_min'` and `'comfort'` each select their own criterion and every other name falls to the comfort-like score; only `'cost'` and `'time_min'` are the monotone criteria, whose score never falls along a path of valid segments |
| Paths.CandForTotals | backend/app/functions/routes/routes.py:127-154 | the entry the search builds along any walk carries that path and its segments, the cost and comfort sums of the segments, one transfer fewer than segments, and the criterion's score of those segments |
| Paths.MakeRoute | backend/app/functions/routes/routes.py:111-120 | the recorded route keeps the entry's segments, lists the from-city of each segment and then the last segment's to-city, one transport per segment, and one transfer fewer than segments |
| Paths.MakeRouteIsRouteFor | backend/app/functions/routes/routes.py:111-120 | the route recorded from a queue entry is determined by its path alone, with its total cost, time sum and mean comfort |
| Paths.RouteForShape | backend/app/functions/routes/routes.py:113-119 | a route has one more city name than segments, one transport per segment, transfers one less than the segments, and the names along the path read off the segments |
| Heap.PopMin | backend/app/functions/routes/routes.py:101 | the popped index holds an entry whose score is no larger than any other entry's |
| Heap.Remove | backend/app/functions/routes/routes.py:101 | what is left is the queue with exactly that one entry taken out |
| Queries.WithinLimitsPrefix | backend/app/functions/routes/routes.py:132-136 | a path that passed the cost and transfer pruning at every push passes it at every prefix |
| Queries.WithinOfTotals | backend/app/functions/routes/routes.py:127-136 | on valid segment figures, segments whose total cost and transfer count meet the limits pass the pruning at every prefix |
| Queries.GoalOfMeets | backend/app/functions/routes/routes.py:104-136 | on valid segment figures, every simple path from start to destination whose route meets the constraints is one the pruning lets through to the destination check |
| Queries.AnswersCover | backend/app/functions/routes/routes.py:100-161 | on valid segment figures, an answer shorter than `top_n` contains the route of every simple path from start to destination that meets the constraints, and for cost and time every such route left out ranks no better than any reported one |
| Queries.FirstIsOptimal | backend/app/functions/routes/routes.py:138-141 | with `top_n >= 1` and a simple path from start to destination that is cheapest by cost or time among those meeting the constraints, an answer is nonempty and its first route has exactly that path's key |
| Steps.SuccessorQueued | backend/app/functions/routes/routes.py:123-156 | a pushed extension of a queued entry is again the entry of a simple, unpruned walk from the start |
| Steps.PrefixScore | backend/app/functions/routes/routes.py:138-141 | for cost and time, on valid segment figures, the score of every prefix of a path is at most the full route's key |
| Steps.AcceptSound | backend/app/functions/routes/routes.py:104-120 | an accepted entry yields the route of a simple path from start to end that meets every set constraint, and for cost and time its key equals the entry's score |
| Steps.RejectFails | backend/app/functions/routes/routes.py:106-109 | an entry skipped at the destination has a route that fails the cost ceiling or the comfort floor |
| Steps.ExtendTowardGoal | backend/app/functions/routes/routes.py:123-156 | expanding a proper prefix of an acceptable path pushes an entry that is still a prefix of it |
| Steps.InitInv | backend/app/functions/routes/routes.py:96-98 | the queue holding only the start city satisfies the search invariant |
| Steps.StepReject | backend/app/functions/routes/routes.py:104-109 | skipping a popped destination entry that fails a constraint keeps the invariant |
| Steps.StepAccept | backend/app/functions/routes/routes.py:110-121 | appending the route of a popped destination entry keeps the invariant: the list stays sound and ordered |
| Steps.StepExpand | backend/app/functions/routes/routes.py:123-156 | replacing a popped entry by its unpruned extensions keeps the invariant, so every acceptable path not yet seen keeps a prefix in the queue |
| Steps.StepWeight | backend/app/functions/routes/routes.py:100-156 | each iteration strictly lowers the queue's weight, so the search terminates |
| Steps.UniqueReject | backend/app/functions/routes/routes.py:104-109 | skipping a popped destination entry keeps queued paths distinct and never popped before |
| Steps.UniqueAccept | backend/app/functions/routes/routes.py:110-121 | the accepted path was never popped before, so the recorded routes stay those of pairwise distinct simple paths |
| Steps.UniqueExpand | backend/app/functions/routes/routes.py:123-156 | the pushed extensions of the popped path are distinct, differ from every path still queued and were never popped, so no path is queued twice |
| Steps.Conclude | backend/app/functions/routes/routes.py:100 | when the queue is empty or `top_n` routes are found, the list is exhaustive and no acceptable route left out ranks better |
| Ranking.InsertByComfort | backend/app/functions/routes/routes.py:159 | inserting into a list sorted by non-increasing average comfort gives a sorted permutation of the list plus the route |
| Ranking.SortByComfort | backend/app/functions/routes/routes.py:158-159 | the result is a permutation of the input sorted by non-increasing average comfort |
| Ranking.Arrange | backend/app/functions/routes/routes.py:158-159 | for `'comfort'` the routes are permuted into comfort order, and for any other criterion they stay in the order found |
| Ranking.TakePrefix | backend/app/functions/routes/routes.py:161 | the slice is a prefix, the whole list when `top_n` reaches its length, exactly `top_n` routes otherwise, and a negative `top_n` drops that many from the end |
| Search.Visit | backend/app/functions/routes/routes.py:124-156 | a neighbour is pushed, with the entry one step further, exactly when it is not on the path and neither limit prunes it |
| Search.Expand | backend/app/functions/routes/routes.py:123-156 | the pushed entries are unpruned one-step extensions with pairwise distinct paths, so each neighbour is pushed at most once, and every unseen neighbour that passes the limits is pushed |
| Search.Deliver | backend/app/functions/routes/routes.py:158-161 | the comfort sort and the `top_n` slice keep every promise of `Answers` that the list found makes, and put a comfort list in order |
| Search.DeliverDistinct | backend/app/functions/routes/routes.py:158-161 | the comfort sort and the `top_n` slice keep the routes those of pairwise distinct simple paths |
| Search.Search | backend/app/functions/routes/routes.py:96-161 | the search fails exactly when start equals end, `top_n > 0` and no negative cost ceiling applies; it divides by zero exactly when `min_comfort` is set; otherwise its list is sound, ranked, exhaustive and best, with at most `top_n` routes, each from a different simple path |
| Search.EffectiveMaxTransfers | backend/app/functions/routes/routes.py:93-94 | a transfer limit given is kept unchanged; with none given, `'comfort'` gets 7 and every other criterion stays unlimited |
| Search.FindRoutes | backend/app/functions/routes/routes.py:81-95 | an empty graph is an error; an unknown name or id 0 gives no route; otherwise the answer is that of the resolved query (routes of distinct simple paths, sound, ranked, exhaustive and best), failing exactly as the search does, with a division by zero exactly when `min_comfort` is set; under `'comfort'` without a limit no route has more than 7 transfers |
| TimeFormat.FormatTime | frontend/src/components/CardsList.jsx:46-50 | the text always ends in " мин", and it opens with a minus sign exactly for a negative duration that is not a whole number of hours, otherwise with a digit |
| TimeFormat.SplitTime | frontend/src/components/CardsList.jsx:47-48 | for a non-negative duration the hours and minutes recombine to it with minutes in 0..59; the hours are positive exactly from 60 minutes on |
| TimeFormat.DigitsRoundTrip | frontend/src/components/CardsList.jsx:49 | the decimal numeral a template literal shows reads back as the same number |
| TimeFormat.FormatLong | frontend/src/components/CardsList.jsx:47-49 | from one hour on, the output is the hours numeral, " ч ", the minutes numeral and " мин" |
| TimeFormat.FormatShort | frontend/src/components/CardsList.jsx:49 | below one hour the output is exactly the minutes numeral followed by " мин" |
| TimeFormat.FormatNegative | frontend/src/components/CardsList.jsx:47-49 | a negative duration shows no hours and a negative truncated remainder, or "0 мин" when it is a whole number of hours |
| TimeFormat.FormatRoundTrip | frontend/src/components/CardsList.jsx:46-50 | for every non-negative duration the output parses back to the same number of minutes |
| Fixture.GraphLoaded | backend/app/tests/test_algo.py:37-44 | the three fixture rows load into the train, bus and plane edges, all with valid figures |
| Fixture.IndexLoaded | backend/app/tests/test_algo.py:32-35 | the three fixture cities load into the index Moscow 1, SPb 2, Kazan 3 |
| Fixture.MoscowKazanAtMostTwo | backend/app/tests/test_algo.py:39-43 | an answer from Moscow to Kazan holds at most two routes: the plane and the train with the bus, each at most once |
| Fixture.MoscowToKazan | backend/app/tests/test_algo.py:39-43 | the only simple paths from Moscow to Kazan are the plane and the train followed by the bus |
| Fixture.CheapestMoscowKazan | backend/app/tests/test_algo.py:53-55 | searching Moscow to Kazan by cost succeeds with a list whose first route costs 200 and which holds exactly the two routes there are, once each |
| Fixture.FastestMoscowKazan | backend/app/tests/test_algo.py:57-58 | searching Moscow to Kazan by time succeeds with a first route of 120 minutes and exactly two routes |
| Fixture.BothMoscowKazan | backend/app/tests/test_algo.py:39-58 | an answer from Moscow to Kazan with the default arguments that comes from distinct paths holds exactly two routes: none is missing, and none is there twice |
| Fixture.UnknownCity | backend/app/tests/test_algo.py:61-62 | an unknown start city gives the empty list |
| Fixture.CheapestMoscowSPb | backend/app/tests/test_algo.py:65-73 | searching Moscow to SPb by cost gives a first route costing 100 |
| Fixture.CheapestSPbKazan | backend/app/tests/test_algo.py:65-73 | searching SPb to Kazan by cost gives a first route costing 150 |

## Left out

- Database access (`routes.py:22-41`, `routes.py:58-65`): the SQL queries and the JOIN with the city names are I/O. The folds take the already-joined rows as a sequence.
- Locks and loading (`routes.py:11-20`, `routes.py:73-79`): `initialize`, `reload_graph_async` and the asyncio locks are concurrency plumbing. A search reads one `Snapshot`. The `cache_clear()` call at routes.py:78 names a method that a plain coroutine does not have; the reload path is not part of this model.
- `find_routes_async` (`routes.py:163-179`): the thread-pool hand-off is not modelled. Its defaults, `top_n = 5` and no limits, are the ones the fixture methods pass.
- The HTTP layer (`backend/main.py`) and the city listing functions are not part of this model.
- The route cards' rendering other than `formatTime` is not part of this model.
- Floating point: segment cost, time and comfort are integers, and the average comfort is an exact `real`. `max_cost` is an integer ceiling and `min_comfort` a real floor. The fixture's comfort values 0.8, 0.7 and 0.9 are scaled to 80, 70 and 90, which no test reads.
- Heap.PopMin: Python breaks score ties by comparing the rest of the tuple (the path lists); the model lets it pick any entry of minimal score, so the order among equal scores is left open.
- Neighbour order: the model visits neighbours in an unspecified order, as a Python dict's insertion order depends on the load. This changes only the queue's internal order, which is already left open.
- Snapshot side effect: `GRAPH[last_node]` on a `defaultdict` inserts an empty neighbour map for a city with no outgoing edge. This does not change any search result, so `Adj` simply returns the empty map.
- Search.Search: ordering and best-first optimality are stated only for the cost and time criteria on segments that meet the CHECK constraints. Negative figures void them, and the comfort score is not monotone along a path.
- Ranking.SortByComfort: does not state that the sort is stable, as Python's `list.sort` is. The function itself keeps routes of equal average comfort in input order, but its contract leaves their order open.
- TimeFormat.FormatTime: takes whole minutes only, as unbounded integers. `formatTime`'s `minutes` is a JavaScript number: a non-integer keeps a fraction through `%`, integers past 2^53 lose precision, and from 1e21 on a template literal prints exponent form.
