/** The ranking step of retrieval, `np.argsort(scores)[::-1][:top_k]`: the
    indices of the `top_k` highest scores, highest first. */
module Ranking {
  import opened Strings

  /** Document `i` ranks before document `j`: it scores higher, or it scores
      the same and comes later in the corpus, which is where reversing an
      ascending sort that keeps equal scores in corpus order puts it. */
  predicate Before(s: seq<real>, i: nat, j: nat)
    requires i < |s| && j < |s|
  {
    s[i] > s[j] || (s[i] == s[j] && i > j)
  }

  /** Every element of `xs` is a document index. */
  predicate InRange(s: seq<real>, xs: seq<nat>) {
    forall p :: 0 <= p < |xs| ==> xs[p] < |s|
  }

  /** `xs` lists document indices strictly in ranking order (so without
      repetition). */
  predicate Sorted(s: seq<real>, xs: seq<nat>)
    requires InRange(s, xs)
  {
    forall p, q :: 0 <= p < q < |xs| ==> Before(s, xs[p], xs[q])
  }

  /** `idx` answers a top-`k` query over the scores `s`: it holds `min(k, n)`
      distinct document indices in ranking order, and every document left out
      ranks after every document returned. */
  ghost predicate IsRanking(s: seq<real>, k: nat, idx: seq<nat>) {
    && |idx| == (if k <= |s| then k else |s|)
    && InRange(s, idx)
    && Sorted(s, idx)
    && (forall j, p :: 0 <= j < |s| && j !in idx && 0 <= p < |idx| ==> Before(s, idx[p], j))
  }

  /** Inserts document `i` into a ranked list. */
  function Insert(s: seq<real>, xs: seq<nat>, i: nat): (r: seq<nat>)
    requires i < |s| && InRange(s, xs)
    ensures InRange(s, r) && |r| == |xs| + 1
    ensures forall x :: x in r <==> x in xs || x == i
  {
    if |xs| == 0 then [i]
    else if Before(s, i, xs[0]) then [i] + xs
    else [xs[0]] + Insert(s, xs[1..], i)
  }

  /** Inserting a document not yet listed keeps the list ranked. */
  lemma {:induction false} InsertSorted(s: seq<real>, xs: seq<nat>, i: nat)
    requires i < |s| && InRange(s, xs) && Sorted(s, xs) && i !in xs
    ensures Sorted(s, Insert(s, xs, i))
  {
    if |xs| > 0 && !Before(s, i, xs[0]) {
      InsertSorted(s, xs[1..], i);
      var r := Insert(s, xs, i);
      var tail := Insert(s, xs[1..], i);
      assert r == [xs[0]] + tail;
      forall q | 0 < q < |r| ensures Before(s, r[0], r[q]) {
        assert r[q] in tail;
      }
    }
  }

  /** The documents `0 .. n-1`, ranked by insertion. */
  function SortDesc(s: seq<real>, n: nat): (r: seq<nat>)
    requires n <= |s|
    ensures InRange(s, r) && |r| == n
    ensures forall x :: x in r <==> 0 <= x < n
  {
    if n == 0 then [] else Insert(s, SortDesc(s, n - 1), n - 1)
  }

  lemma {:induction false} SortDescSorted(s: seq<real>, n: nat)
    requires n <= |s|
    ensures Sorted(s, SortDesc(s, n))
  {
    if n > 0 {
      SortDescSorted(s, n - 1);
      InsertSorted(s, SortDesc(s, n - 1), n - 1);
    }
  }

  /** The reference answer: rank every document, then keep the first `k`. */
  function TopK(s: seq<real>, k: nat): (r: seq<nat>)
    ensures InRange(s, r)
  {
    Take(SortDesc(s, |s|), k)
  }

  /** The reference answer is an answer. */
  lemma RankingIsRanking(s: seq<real>, k: nat)
    ensures IsRanking(s, k, TopK(s, k))
  {
    var all := SortDesc(s, |s|);
    SortDescSorted(s, |s|);
    var r := TopK(s, k);
    assert r == all[..|r|];
    forall j, p | 0 <= j < |s| && j !in r && 0 <= p < |r| ensures Before(s, r[p], j) {
      assert j in all;
      var q :| 0 <= q < |all| && all[q] == j;
      assert q >= |r|;
    }
  }

  /** Two answers that agree on their first `p` positions agree on the next. */
  lemma NextAgrees(s: seq<real>, k: nat, a: seq<nat>, b: seq<nat>, p: nat)
    requires IsRanking(s, k, a) && IsRanking(s, k, b)
    requires p < |a| && a[..p] == b[..p]
    ensures a[p] == b[p]
  {
    var x, y := a[p], b[p];
    if x != y {
      assert forall r :: 0 <= r < p ==> b[r] != y;
      assert forall r :: 0 <= r < p ==> a[r] != x;
      assert Before(s, x, y) by {
        if y in a {
          var q :| 0 <= q < |a| && a[q] == y;
          assert q != p;
        }
      }
      assert Before(s, y, x) by {
        if x in b {
          var q :| 0 <= q < |b| && b[q] == x;
          assert q != p;
        }
      }
      assert false;
    }
  }

  lemma {:induction false} PrefixAgrees(s: seq<real>, k: nat, a: seq<nat>, b: seq<nat>, p: nat)
    requires IsRanking(s, k, a) && IsRanking(s, k, b)
    requires p <= |a|
    ensures a[..p] == b[..p]
  {
    if p > 0 {
      PrefixAgrees(s, k, a, b, p - 1);
      NextAgrees(s, k, a, b, p - 1);
      assert a[..p] == a[..p - 1] + [a[p - 1]];
      assert b[..p] == b[..p - 1] + [b[p - 1]];
    }
  }

  /** A top-`k` query has exactly one answer, so ranking is deterministic. */
  lemma RankingUnique(s: seq<real>, k: nat, a: seq<nat>, b: seq<nat>)
    requires IsRanking(s, k, a) && IsRanking(s, k, b)
    ensures a == b
  {
    PrefixAgrees(s, k, a, b, |a|);
    assert a == a[..|a|] && b == b[..|b|];
  }

  /** The answer read in terms of scores alone: `min(k, n)` distinct
      documents, scores never increasing, and no document left out scores
      higher than a returned one. */
  lemma RankingByScore(s: seq<real>, k: nat)
    ensures var r := TopK(s, k);
      && |r| == (if k <= |s| then k else |s|)
      && (forall p, q :: 0 <= p < q < |r| ==> r[p] != r[q] && s[r[p]] >= s[r[q]])
      && (forall j, p :: 0 <= j < |s| && j !in r && 0 <= p < |r| ==> s[j] <= s[r[p]])
  {
    RankingIsRanking(s, k);
  }

  /** A document that scores strictly higher than a returned one is returned
      too, and ahead of it. */
  lemma HigherRanksAhead(s: seq<real>, k: nat, a: nat, q: nat)
    requires q < |TopK(s, k)| && a < |s|
    requires s[a] > s[TopK(s, k)[q]]
    ensures exists p :: 0 <= p < q && TopK(s, k)[p] == a
  {
    var r := TopK(s, k);
    RankingIsRanking(s, k);
    assert !Before(s, r[q], a);
    assert a in r;
    assert forall p' :: q <= p' < |r| ==> s[r[p']] <= s[r[q]];
    var p :| 0 <= p < |r| && r[p] == a;
  }

  /** Scores that compare the same way give the same ranking. */
  lemma SameOrderSameRanking(s: seq<real>, t: seq<real>, k: nat)
    requires |s| == |t|
    requires forall i, j :: 0 <= i < |s| && 0 <= j < |s| ==> (s[i] <= s[j] <==> t[i] <= t[j])
    ensures TopK(s, k) == TopK(t, k)
  {
    var r := TopK(s, k);
    assert forall i, j :: 0 <= i < |s| && 0 <= j < |s| ==> (Before(s, i, j) <==> Before(t, i, j));
    RankingIsRanking(s, k);
    RankingIsRanking(t, k);
    assert IsRanking(t, k, r);
    RankingUnique(t, k, r, TopK(t, k));
  }

  /** The state of the selection loop: `idx` is the ranked answer so far,
      `rest` the documents not yet chosen, each listed once, and every chosen
      document ranks before every remaining one. */
  ghost predicate Selecting(s: seq<real>, idx: seq<nat>, rest: seq<nat>) {
    && |idx| + |rest| == |s|
    && InRange(s, idx) && InRange(s, rest)
    && (forall q, q' :: 0 <= q < q' < |rest| ==> rest[q] != rest[q'])
    && (forall j :: 0 <= j < |s| ==> (j in rest <==> j !in idx))
    && Sorted(s, idx)
    && (forall p, q :: 0 <= p < |idx| && 0 <= q < |rest| ==> Before(s, idx[p], rest[q]))
  }

  /** `rest[b]` ranks before every other remaining document. */
  predicate BestAt(s: seq<real>, rest: seq<nat>, b: nat)
    requires InRange(s, rest)
  {
    b < |rest| && forall q :: 0 <= q < |rest| && q != b ==> Before(s, rest[b], rest[q])
  }

  /** Finds the remaining document that ranks first. */
  method BestRemaining(s: seq<real>, rest: seq<nat>) returns (b: nat)
    requires InRange(s, rest) && |rest| > 0
    requires forall q, q' :: 0 <= q < q' < |rest| ==> rest[q] != rest[q']
    ensures BestAt(s, rest, b)
  {
    b := 0;
    for q := 1 to |rest|
      invariant b < q
      invariant forall q' :: 0 <= q' < q && q' != b ==> Before(s, rest[b], rest[q'])
    {
      if Before(s, rest[q], rest[b]) {
        b := q;
      }
    }
  }

  /** Removing position `b` from a list without repetition keeps the other
      elements, in order and without repetition. */
  lemma RemoveAt(rest: seq<nat>, b: nat)
    requires b < |rest|
    requires forall q, q' :: 0 <= q < q' < |rest| ==> rest[q] != rest[q']
    ensures var rest' := rest[..b] + rest[b + 1..];
      && |rest'| == |rest| - 1
      && (forall q :: 0 <= q < |rest'| ==> rest'[q] == (if q < b then rest[q] else rest[q + 1]))
      && (forall q, q' :: 0 <= q < q' < |rest'| ==> rest'[q] != rest'[q'])
      && (forall j :: j in rest' <==> j in rest && j != rest[b])
  {
    var rest' := rest[..b] + rest[b + 1..];
    assert forall q :: 0 <= q < |rest'| ==> rest'[q] == (if q < b then rest[q] else rest[q + 1]);
    forall j ensures j in rest' <==> j in rest && j != rest[b] {
      if j in rest && j != rest[b] {
        var q :| 0 <= q < |rest| && rest[q] == j;
        assert rest'[if q < b then q else q - 1] == j;
      }
    }
  }

  /** Moving the best remaining document to the answer keeps the loop state. */
  lemma SelectStep(s: seq<real>, idx: seq<nat>, rest: seq<nat>, b: nat)
    requires Selecting(s, idx, rest) && BestAt(s, rest, b)
    ensures Selecting(s, idx + [rest[b]], rest[..b] + rest[b + 1..])
  {
    var best := rest[b];
    var idx' := idx + [best];
    var rest' := rest[..b] + rest[b + 1..];
    RemoveAt(rest, b);
    assert InRange(s, rest');
    assert best !in idx;
    assert forall j :: 0 <= j < |s| ==> (j in rest' <==> j !in idx');
    assert forall p :: 0 <= p < |idx| ==> Before(s, idx[p], best);
    assert Sorted(s, idx');
    forall p, q | 0 <= p < |idx'| && 0 <= q < |rest'|
      ensures Before(s, idx'[p], rest'[q])
    {
      var i := if q < b then q else q + 1;
      assert rest'[q] == rest[i] && i != b;
    }
  }

  /** Selection of the top `k` documents: `min(k, n)` rounds, each moving the
      best remaining document to the answer. */
  method TopIndices(s: seq<real>, k: nat) returns (idx: seq<nat>)
    ensures IsRanking(s, k, idx)
    ensures idx == TopK(s, k)
  {
    var n := |s|;
    var m := if k <= n then k else n;
    idx := [];
    var rest: seq<nat> := seq(n, i requires 0 <= i < n => i);
    forall j | 0 <= j < n ensures rest[j] == j && j in rest {
      assert rest[j] == j;
    }
    while |idx| < m
      invariant |idx| <= m
      invariant Selecting(s, idx, rest)
      decreases m - |idx|
    {
      var b := BestRemaining(s, rest);
      SelectStep(s, idx, rest, b);
      idx, rest := idx + [rest[b]], rest[..b] + rest[b + 1..];
    }
    RankingIsRanking(s, k);
    RankingUnique(s, k, idx, TopK(s, k));
  }
}
