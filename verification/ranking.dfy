/** Ranking of one cycle's live markets: Python's stable `sort(key=score, reverse=True)`
    followed by the slice `[:MAX_ALERTS_PER_CYCLE]`. */
module Ranking {
  import opened Model

  /** One `(score, market)` pair of the `live_markets` list. */
  datatype Scored = Scored(score: real, market: Market)

  predicate SortedDesc(l: seq<Scored>) {
    forall i, j :: 0 <= i < j < |l| ==> l[i].score >= l[j].score
  }

  /** The entries of `l` whose score is `v`, in their order in `l`. */
  function WithScore(l: seq<Scored>, v: real): seq<Scored>
    decreases |l|
  {
    if l == [] then [] else Only(l[0], v) + WithScore(l[1..], v)
  }

  function Only(x: Scored, v: real): seq<Scored> {
    if x.score == v then [x] else []
  }

  lemma {:induction false} WithScoreAppend(a: seq<Scored>, b: seq<Scored>, v: real)
    ensures WithScore(a + b, v) == WithScore(a, v) + WithScore(b, v)
    decreases |a|
  {
    if a == [] {
      assert a + b == b;
    } else {
      assert (a + b)[1..] == a[1..] + b;
      WithScoreAppend(a[1..], b, v);
    }
  }

  /** Inserts `x` ahead of the first entry that does not score strictly higher: `x` was
      processed before every entry of `s`, so it goes before those of equal score. */
  function Insert(x: Scored, s: seq<Scored>): (r: seq<Scored>)
    ensures |r| == |s| + 1
    ensures multiset(r) == multiset(s) + multiset{x}
    decreases |s|
  {
    if s == [] || s[0].score <= x.score then [x] + s
    else
      assert s == [s[0]] + s[1..];
      [s[0]] + Insert(x, s[1..])
  }

  lemma ConsSorted(y: Scored, r: seq<Scored>)
    requires SortedDesc(r)
    requires forall e :: e in r ==> e.score <= y.score
    ensures SortedDesc([y] + r)
  {
    forall i, j | 0 <= i < j < |[y] + r| ensures ([y] + r)[i].score >= ([y] + r)[j].score {
      if i > 0 {
        assert ([y] + r)[i] == r[i - 1];
      }
      assert ([y] + r)[j] == r[j - 1];
    }
  }

  lemma {:induction false} InsertSorted(x: Scored, s: seq<Scored>)
    requires SortedDesc(s)
    ensures SortedDesc(Insert(x, s))
    decreases |s|
  {
    if s == [] || s[0].score <= x.score {
      ConsSorted(x, s);
    } else {
      var rest := s[1..];
      var r := Insert(x, rest);
      InsertSorted(x, rest);
      forall e | e in r ensures e.score <= s[0].score {
        assert e in multiset(r);
        if e != x {
          assert e in multiset(rest);
          var k :| 0 <= k < |rest| && rest[k] == e;
          assert s[k + 1] == e;
        }
      }
      ConsSorted(s[0], r);
    }
  }

  /** Inserting keeps every per-score filter, with `x` ahead of the entries of its own
      score: it only moves past entries that score strictly higher. */
  lemma {:induction false} InsertStable(x: Scored, s: seq<Scored>, v: real)
    ensures WithScore(Insert(x, s), v) == Only(x, v) + WithScore(s, v)
    decreases |s|
  {
    if s == [] || s[0].score <= x.score {
      assert ([x] + s)[1..] == s;
    } else {
      InsertStable(x, s[1..], v);
      PassHigher(s[0], x, Insert(x, s[1..]), s[1..], v);
    }
  }

  /** Stepping past a strictly higher entry `y` commutes with the filter. */
  lemma PassHigher(y: Scored, x: Scored, r: seq<Scored>, rest: seq<Scored>, v: real)
    requires y.score > x.score
    requires WithScore(r, v) == Only(x, v) + WithScore(rest, v)
    ensures WithScore([y] + r, v) == Only(x, v) + WithScore([y] + rest, v)
  {
    assert ([y] + r)[1..] == r;
    assert ([y] + rest)[1..] == rest;
    assert Only(x, v) == [] || Only(y, v) == [];
  }

  /** Python's stable sort by descending score. */
  function SortDesc(l: seq<Scored>): (r: seq<Scored>)
    ensures |r| == |l|
    ensures multiset(r) == multiset(l)
    decreases |l|
  {
    if l == [] then []
    else
      assert l == [l[0]] + l[1..];
      Insert(l[0], SortDesc(l[1..]))
  }

  /** The sort orders by non-increasing score and, for every score, keeps the entries
      with that score in their original order: it is the stable descending sort. */
  lemma {:induction false} SortDescStable(l: seq<Scored>)
    ensures SortedDesc(SortDesc(l))
    ensures forall v :: WithScore(SortDesc(l), v) == WithScore(l, v)
    decreases |l|
  {
    if l != [] {
      SortDescStable(l[1..]);
      InsertSorted(l[0], SortDesc(l[1..]));
      forall v ensures WithScore(SortDesc(l), v) == WithScore(l, v) {
        InsertStable(l[0], SortDesc(l[1..]), v);
      }
    }
  }

  /** Python's slice `l[:n]`, negative `n` counting from the end. */
  function Take(l: seq<Scored>, n: int): (r: seq<Scored>)
    ensures n >= 0 ==> |r| == if n < |l| then n else |l|
    ensures n < 0 ==> |r| == if -n < |l| then |l| + n else 0
    ensures r == l[..|r|]
  {
    if n >= 0 then l[..if n < |l| then n else |l|]
    else l[..if -n < |l| then |l| + n else 0]
  }

  /** `live_markets.sort(...)` then `[:MAX_ALERTS_PER_CYCLE]`. */
  function Select(cfg: Config, live: seq<Scored>): seq<Scored> {
    Take(SortDesc(live), cfg.maxAlertsPerCycle)
  }

  lemma {:induction false} WithScorePrefix(l: seq<Scored>, k: nat, v: real)
    requires k <= |l|
    ensures WithScore(l[..k], v) <= WithScore(l, v)
  {
    assert l == l[..k] + l[k..];
    WithScoreAppend(l[..k], l[k..], v);
  }

  /** The selection is sorted by non-increasing score and holds as many entries as the
      limit allows. */
  lemma SelectSortedAndBounded(cfg: Config, live: seq<Scored>)
    ensures SortedDesc(Select(cfg, live))
    ensures cfg.maxAlertsPerCycle >= 0 ==>
      |Select(cfg, live)| == if cfg.maxAlertsPerCycle < |live| then cfg.maxAlertsPerCycle else |live|
  {
    SortDescStable(live);
  }

  /** The selection is a prefix of the stable descending order: it holds only live entries
      (as a sub-multiset) and each selected entry scores at least as high as every live
      entry left out. */
  lemma {:induction false} SelectIsTopPrefix(cfg: Config, live: seq<Scored>)
    ensures multiset(Select(cfg, live)) <= multiset(live)
    ensures forall x, y :: x in Select(cfg, live) && y in multiset(live) - multiset(Select(cfg, live)) ==>
      x.score >= y.score
  {
    var sorted := SortDesc(live);
    var sel := Select(cfg, live);
    var k := |sel|;
    SortDescStable(live);
    var rest := sorted[k..];
    assert sorted == sel + rest;
    assert multiset(live) == multiset(sel) + multiset(rest);
    assert multiset(live) - multiset(sel) == multiset(rest);
    SortedSplitDominates(sorted, k);
  }

  /** In a list sorted by non-increasing score, every entry before position `k` scores at
      least as high as every entry from `k` on. */
  lemma SortedSplitDominates(sorted: seq<Scored>, k: nat)
    requires SortedDesc(sorted) && k <= |sorted|
    ensures forall x, y :: x in sorted[..k] && y in sorted[k..] ==> x.score >= y.score
  {
    forall x, y | x in sorted[..k] && y in sorted[k..] ensures x.score >= y.score {
      var i :| 0 <= i < k && sorted[..k][i] == x;
      var j :| 0 <= j < |sorted| - k && sorted[k..][j] == y;
      assert sorted[i] == x && sorted[k + j] == y;
    }
  }

  /** Equal scores keep processing order: for every score, the selected entries with that
      score are the first live entries with it, in the order they were processed. */
  lemma {:induction false} SelectKeepsProcessingOrder(cfg: Config, live: seq<Scored>, v: real)
    ensures WithScore(Select(cfg, live), v) <= WithScore(live, v)
  {
    var sorted := SortDesc(live);
    SortDescStable(live);
    WithScorePrefix(sorted, |Select(cfg, live)|, v);
  }
}
