/** `SemanticStore.search`: a two-stage query. Stage one pulls the nearest rows by bare
    similarity, which an index can serve; stage two re-ranks that pool by importance. Both
    stages are declarative queries that leave ties open, so a search is a relation between
    a table and its possible answers. */
module SemanticSearch {
  import opened Options

  /** A stored memory, with its similarity to the query at hand. */
  datatype Row = Row(
    id: int, user: int, kind: string, importance: real, decayAfter: Option<real>, embedded: bool, similarity: real)

  datatype Query = Query(
    user: int, k: nat, fanout: int, minImportance: real, minSimilarity: real, kinds: Option<set<string>>, now: real)

  /** `max(k * max(fanout, 1), k)` */
  function CandidateLimit(q: Query): (n: nat)
    ensures n >= q.k
  {
    var f := if q.fanout > 1 then q.fanout else 1;
    LimitLarge(q.k, f);
    q.k * f
  }

  lemma LimitLarge(k: nat, f: nat)
    requires f >= 1
    ensures k * f >= k
  {
  }

  /** The conditions of stage one. An empty set of kinds is no restriction. */
  predicate Selected(r: Row, q: Query) {
    && r.user == q.user && r.embedded && r.importance >= q.minImportance
    && (r.decayAfter.None? || r.decayAfter.value > q.now)
    && (q.kinds.None? || q.kinds.value == {} || r.kind in q.kinds.value)
  }

  function Weighted(x: real, w: real): real {
    x * w
  }

  function Rank(r: Row): real {
    Weighted(r.similarity, 0.5 + 0.5 * r.importance)
  }

  function Similarity(r: Row): real {
    r.similarity
  }

  /** `top` is a possible result of ORDER BY key DESC LIMIT n. */
  ghost predicate IsTop(top: set<Row>, rows: set<Row>, n: nat, key: Row -> real) {
    && top <= rows
    && |top| == (if n < |rows| then n else |rows|)
    && forall t, u :: t in top && u in rows && u !in top ==> key(t) >= key(u)
  }

  ghost predicate Descending(answer: seq<Row>) {
    && (forall i, j :: 0 <= i < j < |answer| ==> Rank(answer[i]) >= Rank(answer[j]))
    && (forall i, j :: 0 <= i < j < |answer| ==> answer[i] != answer[j])
  }

  function Candidates(table: set<Row>, q: Query): set<Row> {
    set r | r in table && Selected(r, q)
  }

  function AboveFloor(rows: set<Row>, q: Query): set<Row> {
    set r | r in rows && r.similarity >= q.minSimilarity
  }

  function Rows(answer: seq<Row>): set<Row> {
    set r | r in answer
  }

  /** `answer` is a possible result of the two-stage search through the pool `pool`. */
  ghost predicate Answers(table: set<Row>, q: Query, pool: set<Row>, answer: seq<Row>) {
    && IsTop(pool, Candidates(table, q), CandidateLimit(q), Similarity)
    && IsTop(Rows(answer), AboveFloor(pool, q), q.k, Rank)
    && Descending(answer)
  }

  /** `answer` is a possible result of ranking every selected row above the floor. */
  ghost predicate Exact(table: set<Row>, q: Query, answer: seq<Row>) {
    IsTop(Rows(answer), AboveFloor(Candidates(table, q), q), q.k, Rank) && Descending(answer)
  }

  /** Importances lie between 0 and 1. The floor may be anything, negative floors included. */
  ghost predicate Normal(table: set<Row>) {
    forall r :: r in table ==> 0.0 <= r.importance <= 1.0
  }

  function Max0(x: real): real {
    if x > 0.0 then x else 0.0
  }

  /** The highest rank that a row no more similar than `s` can have. */
  function Highest(q: Query, s: real): real {
    if s >= 0.0 then s else Weighted(s, 0.5 + 0.5 * Max0(q.minImportance))
  }

  lemma RankBounds(r: Row)
    requires 0.0 <= r.importance <= 1.0
    ensures r.similarity >= 0.0 ==> 0.5 * r.similarity <= Rank(r) <= r.similarity
    ensures r.similarity < 0.0 ==> r.similarity <= Rank(r) <= 0.5 * r.similarity
  {
    hide Weighted;
    var w := 0.5 + 0.5 * r.importance;
    WeightIsMonotone(r.similarity, 0.5, w);
    WeightIsMonotone(r.similarity, w, 1.0);
    WeightedOnce(r.similarity);
  }

  lemma WeightedOnce(x: real)
    ensures Weighted(x, 1.0) == x && Weighted(x, 0.5) == 0.5 * x
  {
  }

  lemma WeightIsMonotone(x: real, a: real, b: real)
    requires a <= b
    ensures x >= 0.0 ==> Weighted(x, a) <= Weighted(x, b)
    ensures x <= 0.0 ==> Weighted(x, a) >= Weighted(x, b)
  {
    var d := b - a;
    assert x * b == x * a + x * d;
    assert x >= 0.0 ==> x * d >= 0.0;
    assert x <= 0.0 ==> x * d <= 0.0;
  }

  lemma SimilarityIsMonotone(x: real, y: real, w: real)
    requires x <= y && w >= 0.0
    ensures Weighted(x, w) <= Weighted(y, w)
  {
    var d := y - x;
    assert y * w == x * w + d * w;
    assert d * w >= 0.0;
  }

  lemma RankAtMost(q: Query, m: Row, s: real)
    requires 0.0 <= m.importance <= 1.0 && m.importance >= q.minImportance && m.similarity <= s
    ensures Rank(m) <= Highest(q, s)
  {
    hide Weighted;
    RankBounds(m);
    if s < 0.0 {
      var w, low := 0.5 + 0.5 * m.importance, 0.5 + 0.5 * Max0(q.minImportance);
      WeightIsMonotone(m.similarity, low, w);
      SimilarityIsMonotone(m.similarity, s, low);
    }
  }

  /** Every returned memory ranks at least half as high as any memory of non-negative rank
      that is left out, and against one of negative rank, no lower than twice that rank. */
  lemma QualityBound(table: set<Row>, q: Query, pool: set<Row>, answer: seq<Row>, r: Row, m: Row)
    requires Answers(table, q, pool, answer) && Normal(table)
    requires r in answer && m in AboveFloor(Candidates(table, q), q) && m !in answer
    ensures Rank(r) >= if Rank(m) >= 0.0 then 0.5 * Rank(m) else 2.0 * Rank(m)
  {
    hide Rank;
    assert r in Rows(answer) && m !in Rows(answer);
    RankBounds(r);
    RankBounds(m);
    if m !in pool { assert Similarity(r) >= Similarity(m); }
  }

  /** No row less similar than `c` can be missing from the answer. */
  ghost predicate Decides(q: Query, answer: seq<Row>, c: Row) {
    c.similarity < q.minSimilarity || forall r :: r in answer ==> Rank(r) >= Highest(q, c.similarity)
  }

  /** What a caller can see from the pool and the answer: everything eligible was in the
      pool, or the least similar row of the pool is below the floor, or no row that is less
      similar still can rank above the worst row returned. */
  ghost predicate Conclusive(q: Query, pool: set<Row>, answer: seq<Row>) {
    || q.k == 0 || |pool| < CandidateLimit(q)
    || exists c :: c in pool && Decides(q, answer, c)
  }

  /** Then the answer is exact: nothing was lost by looking at the pool only. */
  lemma ExactWhen(table: set<Row>, q: Query, pool: set<Row>, answer: seq<Row>)
    requires Answers(table, q, pool, answer) && Normal(table) && Conclusive(q, pool, answer)
    ensures Exact(table, q, answer)
  {
    hide Rank, Highest;
    var all := Candidates(table, q);
    var top, x := Rows(answer), AboveFloor(all, q);
    if |pool| < CandidateLimit(q) {
      SameSize(pool, all);
    } else {
      forall r, m | r in top && m in x && m !in top ensures Rank(r) >= Rank(m) {
        if m !in pool && q.k > 0 {
          var c :| c in pool && Decides(q, answer, c);
          assert Similarity(c) >= Similarity(m);
          RankAtMost(q, m, c.similarity);
        }
      }
      PoolSuffices(table, q, pool);
    }
  }

  /** And only then: an inconclusive pool and answer also arise from a table on which the
      answer is not exact. So the guard is the best that can be told from what is returned. */
  lemma ConclusiveIff(table: set<Row>, q: Query, pool: set<Row>, answer: seq<Row>)
    requires Answers(table, q, pool, answer) && Normal(table)
    ensures Conclusive(q, pool, answer) <==>
            forall other: set<Row> :: Answers(other, q, pool, answer) && Normal(other) ==> Exact(other, q, answer)
  {
    hide Answers, Normal, Exact, Conclusive;
    if Conclusive(q, pool, answer) {
      forall other: set<Row> | Answers(other, q, pool, answer) && Normal(other) ensures Exact(other, q, answer) {
        ExactWhen(other, q, pool, answer);
      }
    } else {
      var other := Hiding(table, q, pool, answer);
    }
  }

  /** The table: the pool, and one row as similar as the least similar of the pool, with the
      importance that ranks it highest. */
  lemma Hiding(table: set<Row>, q: Query, pool: set<Row>, answer: seq<Row>) returns (other: set<Row>)
    requires Answers(table, q, pool, answer) && Normal(table) && !Conclusive(q, pool, answer)
    ensures Answers(other, q, pool, answer) && Normal(other) && !Exact(other, q, answer)
  {
    hide Rank, Descending, IsTop, CandidateLimit, Highest;
    PoolFull(table, q, pool);
    var c := Least(pool);
    var id := FreshId(pool);
    var m := c.(id := id, importance := if c.similarity >= 0.0 then 1.0 else Max0(q.minImportance));
    other := pool + {m};
    assert Candidates(other, q) == other;
    StillTop(pool, m, CandidateLimit(q));
    RankHighest(q, m);
    assert c.similarity >= q.minSimilarity;
    var r :| r in answer && Rank(r) < Highest(q, c.similarity);
    AnswersFromPool(pool, q, answer);
    Outranked(Rows(answer), AboveFloor(other, q), q.k, Rank, r, m);
  }

  lemma PoolFull(table: set<Row>, q: Query, pool: set<Row>)
    requires IsTop(pool, Candidates(table, q), CandidateLimit(q), Similarity) && |pool| >= CandidateLimit(q) && q.k > 0
    ensures |pool| == CandidateLimit(q) && pool != {} && pool <= Candidates(table, q)
  {
  }

  lemma AnswersFromPool(pool: set<Row>, q: Query, answer: seq<Row>)
    requires IsTop(Rows(answer), AboveFloor(pool, q), q.k, Rank)
    ensures Rows(answer) <= pool
  {
  }

  lemma StillTop(pool: set<Row>, m: Row, n: nat)
    requires |pool| == n && m !in pool && forall t :: t in pool ==> t.similarity >= m.similarity
    ensures IsTop(pool, pool + {m}, n, Similarity)
  {
  }

  lemma Outranked(top: set<Row>, rows: set<Row>, n: nat, key: Row -> real, r: Row, m: Row)
    requires r in top && m in rows && m !in top && key(r) < key(m)
    ensures !IsTop(top, rows, n, key)
  {
  }

  lemma RankHighest(q: Query, m: Row)
    requires m.importance == if m.similarity >= 0.0 then 1.0 else Max0(q.minImportance)
    ensures Rank(m) == Highest(q, m.similarity)
  {
    hide Weighted;
    WeightedOnce(m.similarity);
  }

  lemma {:induction false} Least(rows: set<Row>) returns (c: Row)
    requires rows != {}
    ensures c in rows && forall r :: r in rows ==> c.similarity <= r.similarity
  {
    c :| c in rows;
    if rows != {c} {
      var d := Least(rows - {c});
      if d.similarity < c.similarity { c := d; }
    }
  }

  lemma {:induction false} FreshId(rows: set<Row>) returns (id: int)
    ensures forall r :: r in rows ==> r.id < id
  {
    if rows == {} {
      id := 0;
    } else {
      var x :| x in rows;
      id := FreshId(rows - {x});
      if id <= x.id { id := x.id + 1; }
    }
  }

  /** The pool has enough rows above the floor, or all there are. */
  lemma PoolSuffices(table: set<Row>, q: Query, pool: set<Row>)
    requires IsTop(pool, Candidates(table, q), CandidateLimit(q), Similarity) && |pool| == CandidateLimit(q)
    ensures var c, x := AboveFloor(pool, q), AboveFloor(Candidates(table, q), q);
            c <= x && |c| <= |x| && (|c| < q.k ==> c == x)
  {
    var c, x := AboveFloor(pool, q), AboveFloor(Candidates(table, q), q);
    SubsetSize(c, x);
    if |c| < q.k {
      assert c != pool;
      var low :| low in pool && low !in c;
      assert forall m :: m in Candidates(table, q) && m !in pool ==> Similarity(low) >= Similarity(m);
      assert c == x;
    }
  }

  // ----- what a search returns, case by case -----

  /** The rows a query may return: the asking user's, embedded, important enough, not expired,
      and of the kinds asked for, unless none are named. */
  predicate Eligible(r: Row, q: Query) {
    && r.user == q.user && r.embedded && !(r.importance < q.minImportance)
    && (match r.decayAfter case None => true case Some(t) => q.now < t)
    && (match q.kinds case None => true case Some(ks) => ks != {} ==> r.kind in ks)
  }

  function Score(r: Row): real {
    r.similarity * (1.0 + r.importance) / 2.0
  }

  lemma ScoreIs(r: Row)
    ensures Rank(r) == Score(r)
  {
  }

  lemma CandidatesAre(table: set<Row>, q: Query)
    ensures forall r :: r in Candidates(table, q) <==> r in table && Eligible(r, q)
  {
  }

  /** The pool holds the nearest `max(k * max(fanout, 1), k)` eligible rows; the answer at most
      `k` of those that reach the floor, best first, and those left in the pool rank no higher. */
  lemma AnswersAre(table: set<Row>, q: Query, pool: set<Row>, answer: seq<Row>)
    requires Answers(table, q, pool, answer)
    ensures |answer| <= q.k && |pool| <= q.k * (if q.fanout < 1 then 1 else q.fanout)
    ensures forall r :: r in pool ==> r in table && Eligible(r, q)
    ensures forall r :: r in answer ==> r in pool && r.similarity >= q.minSimilarity
    ensures forall i, j :: 0 <= i < j < |answer| ==> Score(answer[i]) >= Score(answer[j])
    ensures forall r, s :: r in table && Eligible(r, q) && r !in pool && s in pool ==> s.similarity >= r.similarity
    ensures forall r, s :: r in pool && r.similarity >= q.minSimilarity && r !in answer && s in answer ==>
              Score(s) >= Score(r)
    ensures |pool| < q.k * (if q.fanout < 1 then 1 else q.fanout) ==> forall r :: r in table && Eligible(r, q) ==>
            r in pool
    ensures |answer| < q.k ==> forall r :: r in pool && r.similarity >= q.minSimilarity ==> r in answer
  {
    hide Eligible, Score, Rank, Selected;
    CandidatesAre(table, q);
    forall r ensures Rank(r) == Score(r) { ScoreIs(r); }
    assert forall r :: r in answer <==> r in Rows(answer);
    AnswerSize(answer);
    forall r, s | r in table && Eligible(r, q) && r !in pool && s in pool ensures s.similarity >= r.similarity {
      assert Similarity(s) >= Similarity(r);
    }
    if |pool| < CandidateLimit(q) { SameSize(pool, Candidates(table, q)); }
    if |answer| < q.k { SameSize(Rows(answer), AboveFloor(pool, q)); }
  }

  lemma {:induction false} AnswerSize(answer: seq<Row>)
    requires forall i, j :: 0 <= i < j < |answer| ==> answer[i] != answer[j]
    ensures |Rows(answer)| == |answer|
  {
    if answer != [] {
      var n := |answer| - 1;
      AnswerSize(answer[..n]);
      assert answer == answer[..n] + [answer[n]];
      assert Rows(answer) == Rows(answer[..n]) + {answer[n]};
    }
  }

  // ----- a search always has an answer -----

  ghost predicate Falling(s: seq<Row>, key: Row -> real) {
    && (forall i, j :: 0 <= i < j < |s| ==> key(s[i]) >= key(s[j]))
    && (forall i, j :: 0 <= i < j < |s| ==> s[i] != s[j])
  }

  lemma {:induction false} Greatest(rows: set<Row>, key: Row -> real) returns (x: Row)
    requires rows != {}
    ensures x in rows && forall r :: r in rows ==> key(x) >= key(r)
  {
    x :| x in rows;
    if rows != {x} {
      var y := Greatest(rows - {x}, key);
      if key(y) > key(x) { x := y; }
    }
  }

  lemma {:induction false} TopOf(rows: set<Row>, n: nat, key: Row -> real) returns (s: seq<Row>)
    ensures IsTop(Rows(s), rows, n, key) && Falling(s, key)
  {
    hide Falling;
    if n == 0 || rows == {} {
      s := [];
      FallingNothing(key);
    } else {
      var x := Greatest(rows, key);
      var t := TopOf(rows - {x}, n - 1, key);
      s := [x] + t;
      MoreTop(rows, x, Rows(t), n, key);
      assert Rows(s) == Rows(t) + {x};
      FallingCons(x, t, key);
    }
  }

  lemma FallingNothing(key: Row -> real)
    ensures Falling([], key)
  {
  }

  lemma MoreTop(rows: set<Row>, x: Row, top: set<Row>, n: nat, key: Row -> real)
    requires n > 0 && x in rows && forall r :: r in rows ==> key(x) >= key(r)
    requires IsTop(top, rows - {x}, n - 1, key)
    ensures IsTop(top + {x}, rows, n, key)
  {
  }

  lemma FallingCons(x: Row, t: seq<Row>, key: Row -> real)
    requires Falling(t, key) && forall r :: r in Rows(t) ==> key(x) >= key(r) && x != r
    ensures Falling([x] + t, key)
  {
    assert forall i :: 0 <= i < |t| ==> t[i] in Rows(t);
  }

  /** Every query on every table has a pool and an answer. */
  lemma SearchHasAnswer(table: set<Row>, q: Query) returns (pool: set<Row>, answer: seq<Row>)
    ensures Answers(table, q, pool, answer)
  {
    hide Rank, IsTop;
    var near := TopOf(Candidates(table, q), CandidateLimit(q), Similarity);
    pool := Rows(near);
    answer := TopOf(AboveFloor(pool, q), q.k, Rank);
  }

  lemma {:induction false} SubsetSize<T>(a: set<T>, b: set<T>)
    requires a <= b
    ensures |a| <= |b|
  {
    if a != {} {
      var x :| x in a;
      SubsetSize(a - {x}, b - {x});
    }
  }

  lemma SameSize<T>(a: set<T>, b: set<T>)
    requires a <= b && |a| == |b|
    ensures a == b
  {
    if a != b {
      var x :| x in b && x !in a;
      SubsetSize(a, b - {x});
    }
  }

  /** Two memories of the same similarity, one as unimportant and one as important as can be,
      and a query that pulls a single row. */
  const UNIMPORTANT := Row(1, 0, "fact", 0.0, None, true, 1.0)
  const IMPORTANT := Row(2, 0, "fact", 1.0, None, true, 1.0)
  const ONE := Query(0, 1, 1, 0.0, -1.0, None, 0.0)

  lemma TwoRows(shown: Row, hidden: Row)
    requires shown != hidden && shown.similarity == hidden.similarity && Rank(shown) < Rank(hidden)
    requires Selected(shown, ONE) && Selected(hidden, ONE) && shown.similarity >= -1.0
    ensures Answers({shown, hidden}, ONE, {shown}, [shown]) && !Exact({shown, hidden}, ONE, [shown])
    ensures hidden in AboveFloor(Candidates({shown, hidden}, ONE), ONE) && hidden !in [shown]
  {
    hide Rank, Selected;
    var table := {shown, hidden};
    assert Candidates(table, ONE) == table && AboveFloor(table, ONE) == table && AboveFloor({shown}, ONE) == {shown};
    assert Rows([shown]) == {shown} && CandidateLimit(ONE) == 1;
    TopOfOne(shown, table, Similarity);
    TopOfOne(shown, {shown}, Rank);
    Outranked({shown}, table, 1, Rank, shown, hidden);
  }

  /** Neither side of the bound can be improved, and the two-stage ranking is not the exact
      ranking: with a pool of one, an unimportant memory can hide an equally similar important
      one whose rank is twice as high; and where similarities are negative, an important one
      can hide an unimportant one of half its rank. */
  lemma BoundIsTight()
    ensures var u, i := UNIMPORTANT, IMPORTANT;
            && Normal({u, i}) && Answers({u, i}, ONE, {u}, [u]) && !Exact({u, i}, ONE, [u])
            && Rank(i) > 0.0 && Rank(u) == 0.5 * Rank(i)
    ensures var u, i := UNIMPORTANT.(similarity := -1.0), IMPORTANT.(similarity := -1.0);
            && Normal({u, i}) && Answers({u, i}, ONE, {i}, [i]) && !Exact({u, i}, ONE, [i])
            && Rank(u) < 0.0 && Rank(i) == 2.0 * Rank(u)
  {
    hide Answers, Exact;
    TwoRows(UNIMPORTANT, IMPORTANT);
    var u, i := UNIMPORTANT.(similarity := -1.0), IMPORTANT.(similarity := -1.0);
    TwoRows(i, u);
    assert {i, u} == {u, i};
  }

  lemma TopOfOne(t: Row, rows: set<Row>, key: Row -> real)
    requires t in rows && forall u :: u in rows ==> key(t) >= key(u)
    ensures IsTop({t}, rows, 1, key)
  {
    SubsetSize({t}, rows);
  }
}
