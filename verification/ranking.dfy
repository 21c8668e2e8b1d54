/** The final ordering of the comfort criterion and the `top_n` cut. */
module Ranking {
  import opened Paths
  import opened Queries

  /** No route in `rs` has a higher average comfort than `h`. */
  ghost predicate NoneAbove(h: Route, rs: seq<Route>) {
    forall x :: x in rs ==> x.avgComfort <= h.avgComfort
  }

  lemma InsertFront(r: Route, rs: seq<Route>)
    requires |rs| == 0 || r.avgComfort >= rs[0].avgComfort
    ensures SortedByComfort(rs) ==> SortedByComfort([r] + rs)
  {
    if !SortedByComfort(rs) {
      return;
    }
    var out := [r] + rs;
    forall i, j | 0 <= i < j < |out| ensures out[i].avgComfort >= out[j].avgComfort {
      if i == 0 {
        assert out[j] == rs[j - 1];
        if j > 1 {
          assert rs[0].avgComfort >= rs[j - 1].avgComfort;
        }
      } else {
        assert out[i] == rs[i - 1] && out[j] == rs[j - 1];
      }
    }
  }

  lemma InsertBehind(r: Route, rs: seq<Route>, tail: seq<Route>)
    requires |rs| >= 1 && r.avgComfort < rs[0].avgComfort
    requires multiset(tail) == multiset(rs[1..]) + multiset{r}
    requires SortedByComfort(rs[1..]) ==> SortedByComfort(tail)
    ensures SortedByComfort(rs) ==> SortedByComfort([rs[0]] + tail)
  {
    if !SortedByComfort(rs) {
      return;
    }
    SortedTail(rs);
    var h := rs[0];
    forall x | x in tail ensures x.avgComfort <= h.avgComfort {
      assert x in multiset(tail);
      if x != r {
        assert x in multiset(rs[1..]);
      }
    }
    var out := [h] + tail;
    forall i, j | 0 <= i < j < |out| ensures out[i].avgComfort >= out[j].avgComfort {
      assert out[j] == tail[j - 1];
      if i > 0 {
        assert out[i] == tail[i - 1];
      } else {
        assert tail[j - 1] in tail;
      }
    }
  }

  lemma SortedTail(rs: seq<Route>)
    requires |rs| >= 1 && SortedByComfort(rs)
    ensures SortedByComfort(rs[1..]) && NoneAbove(rs[0], rs[1..])
  {
    forall x | x in rs[1..] ensures x.avgComfort <= rs[0].avgComfort {
      var k :| 0 <= k < |rs[1..]| && rs[1..][k] == x;
      assert x == rs[k + 1];
    }
  }

  /** Python's stable sort with key `-avg_comfort`, one route at a time: `r`
      goes before the first route whose average comfort does not exceed
      its own. */
  function InsertByComfort(r: Route, rs: seq<Route>): (out: seq<Route>)
    ensures multiset(out) == multiset(rs) + multiset{r}
    ensures SortedByComfort(rs) ==> SortedByComfort(out)
  {
    if |rs| == 0 || r.avgComfort >= rs[0].avgComfort then
      InsertFront(r, rs);
      [r] + rs
    else
      assert rs == [rs[0]] + rs[1..];
      var tail := InsertByComfort(r, rs[1..]);
      InsertBehind(r, rs, tail);
      [rs[0]] + tail
  }

  /** `found_routes.sort(key=lambda x: -x['avg_comfort'])`: a permutation of
      its input in non-increasing order of average comfort. */
  function SortByComfort(rs: seq<Route>): (out: seq<Route>)
    ensures multiset(out) == multiset(rs)
    ensures SortedByComfort(out)
  {
    if |rs| == 0 then []
    else
      assert rs == [rs[0]] + rs[1..];
      InsertByComfort(rs[0], SortByComfort(rs[1..]))
  }

  /** The order the search reports in: re-sorted by comfort for the
      criterion `'comfort'`, as recorded otherwise. */
  function Arrange(crit: Criterion, rs: seq<Route>): (out: seq<Route>)
    ensures multiset(out) == multiset(rs)
    ensures crit == ByComfort ==> SortedByComfort(out)
    ensures crit != ByComfort ==> out == rs
  {
    if crit == ByComfort then SortByComfort(rs) else rs
  }

  /** `routes[:top_n]` with Python's slice semantics: a prefix of the list,
      the whole list when `top_n` reaches its length, and exactly `top_n`
      routes otherwise; a negative `top_n` drops that many from the end. */
  function TakePrefix(rs: seq<Route>, n: int): (out: seq<Route>)
    ensures out <= rs
    ensures n >= |rs| ==> out == rs
    ensures 0 <= n ==> |out| == if n < |rs| then n else |rs|
    ensures n < 0 ==> |out| == Max0(|rs| + n)
  {
    if n >= |rs| then rs
    else if n >= 0 then rs[..n]
    else rs[..Max0(|rs| + n)]
  }
}
