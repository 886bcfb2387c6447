/** When the two-stage search gives the exact ranking: told first from the pool of stage one,
    then from the table and the query alone, ties in the pool included. */
module SemanticExactness {
  import opened SemanticSearch

  // ----- told from the pool -----

  /** The rows of a set that are returned no later than `m` would be. */
  function Better(rows: set<Row>, q: Query, m: Row): set<Row> {
    set r | r in rows && r.similarity >= q.minSimilarity && Rank(r) >= Rank(m)
  }

  /** Every eligible row that the pool misses has `k` eligible rows of the pool before it. */
  ghost predicate PoolEnough(table: set<Row>, q: Query, pool: set<Row>) {
    forall m :: m in AboveFloor(Candidates(table, q), q) && m !in pool ==> |Better(pool, q, m)| >= q.k
  }

  /** An answer is exact if and only if its pool was enough, whatever the importances and the
      floor are. */
  lemma ExactIff(table: set<Row>, q: Query, pool: set<Row>, answer: seq<Row>)
    requires Answers(table, q, pool, answer)
    ensures Exact(table, q, answer) <==> PoolEnough(table, q, pool)
  {
    hide Rank, Descending, CandidateLimit;
    var x, top := AboveFloor(Candidates(table, q), q), Rows(answer);
    if Exact(table, q, answer) {
      forall m | m in x && m !in pool ensures |Better(pool, q, m)| >= q.k { ExactHasEnough(x, q, pool, top, m); }
    }
    if PoolEnough(table, q, pool) {
      forall r, m | r in top && m in x && m !in top ensures Rank(r) >= Rank(m) {
        if m !in pool { EnoughComesFirst(q, pool, top, r, m); }
      }
      SubsetSize(AboveFloor(pool, q), x);
      if AboveFloor(pool, q) != x {
        var m :| m in x && m !in pool;
        SubsetSize(Better(pool, q, m), AboveFloor(pool, q));
      }
    }
  }

  lemma ExactHasEnough(x: set<Row>, q: Query, pool: set<Row>, top: set<Row>, m: Row)
    requires IsTop(top, x, q.k, Rank) && top <= AboveFloor(pool, q) && m in x && m !in pool
    ensures |Better(pool, q, m)| >= q.k
  {
    hide Rank;
    if |top| == |x| { SameSize(top, x); }
    assert top <= Better(pool, q, m);
    SubsetSize(top, Better(pool, q, m));
  }

  lemma EnoughComesFirst(q: Query, pool: set<Row>, top: set<Row>, r: Row, m: Row)
    requires IsTop(top, AboveFloor(pool, q), q.k, Rank) && r in top && |Better(pool, q, m)| >= q.k
    ensures Rank(r) >= Rank(m)
  {
    hide Rank;
    if Rank(r) < Rank(m) {
      assert Better(pool, q, m) <= top - {r};
      SubsetSize(Better(pool, q, m), top - {r});
    }
  }

  // ----- the pools of a table -----

  function AtLeast(rows: set<Row>, s: real): set<Row> {
    set r | r in rows && r.similarity >= s
  }

  function MoreThan(rows: set<Row>, s: real): set<Row> {
    set r | r in rows && r.similarity > s
  }

  /** The rows in every pool of size `n`. */
  function Sure(rows: set<Row>, n: nat): set<Row> {
    set r | r in rows && |AtLeast(rows, r.similarity)| <= n
  }

  /** The rows tied for the last places: in some pools, and not in others. */
  function Tied(rows: set<Row>, n: nat): set<Row> {
    set r | r in rows && |AtLeast(rows, r.similarity)| > n && |MoreThan(rows, r.similarity)| < n
  }

  ghost predicate IsPool(pool: set<Row>, rows: set<Row>, n: nat) {
    IsTop(pool, rows, n, Similarity)
  }

  lemma SureIsIn(pool: set<Row>, rows: set<Row>, n: nat)
    requires IsPool(pool, rows, n)
    ensures Sure(rows, n) <= pool
  {
    forall r | r in Sure(rows, n) ensures r in pool {
      if r !in pool {
        assert pool + {r} <= AtLeast(rows, r.similarity) by {
          forall t | t in pool ensures t.similarity >= r.similarity { assert Similarity(t) >= Similarity(r); }
        }
        SubsetSize(pool + {r}, AtLeast(rows, r.similarity));
        SameOrSmaller(pool, rows, r);
      }
    }
  }

  lemma SameOrSmaller(pool: set<Row>, rows: set<Row>, r: Row)
    requires pool <= rows && r in rows && r !in pool
    ensures |pool| < |rows|
  {
    SubsetSize(pool + {r}, rows);
  }

  lemma PoolIsSureOrTied(pool: set<Row>, rows: set<Row>, n: nat)
    requires IsPool(pool, rows, n)
    ensures pool <= Sure(rows, n) + Tied(rows, n)
  {
    forall r | r in pool ensures r in Sure(rows, n) + Tied(rows, n) {
      var more := MoreThan(rows, r.similarity);
      forall u | u in more ensures u in pool {
        assert Similarity(u) > Similarity(r);
      }
      SubsetSize(more + {r}, pool);
    }
  }

  /** Sure rows are closed under being more similar, and more similar than all others. */
  lemma SureIsUpward(rows: set<Row>, n: nat, r: Row, u: Row)
    requires r in Sure(rows, n) && u in rows && u.similarity >= r.similarity
    ensures u in Sure(rows, n)
  {
    SubsetSize(AtLeast(rows, u.similarity), AtLeast(rows, r.similarity));
  }

  lemma AboveTiedIsSure(rows: set<Row>, n: nat, r: Row, u: Row)
    requires r in Tied(rows, n) && u in rows && u.similarity > r.similarity
    ensures u in Sure(rows, n)
  {
    SubsetSize(AtLeast(rows, u.similarity), MoreThan(rows, r.similarity));
  }

  /** There are more tied rows than places left for them. */
  lemma TiedExceed(rows: set<Row>, n: nat)
    requires Tied(rows, n) != {}
    ensures |Sure(rows, n)| < n < |Sure(rows, n)| + |Tied(rows, n)|
  {
    var r :| r in Tied(rows, n);
    var sure, tied := Sure(rows, n), Tied(rows, n);
    forall u | u in rows ensures u in sure <==> u.similarity > r.similarity {
      if u.similarity > r.similarity {
        AboveTiedIsSure(rows, n, r, u);
      } else if u in sure {
        SureIsUpward(rows, n, u, r);
      }
    }
    assert sure == MoreThan(rows, r.similarity);
    forall u | u in AtLeast(rows, r.similarity) ensures u in sure + tied {
      if u !in sure { assert u.similarity == r.similarity; }
    }
    assert sure * tied == {};
    SubsetSize(AtLeast(rows, r.similarity), sure + tied);
  }

  /** The sure rows with any choice of tied rows for the places left are a pool. */
  lemma ChoiceIsPool(rows: set<Row>, n: nat, choice: set<Row>)
    requires choice <= Tied(rows, n) && |Sure(rows, n)| + |choice| == n <= |rows|
    ensures IsPool(Sure(rows, n) + choice, rows, n)
  {
    var sure := Sure(rows, n);
    assert sure * choice == {};
    forall t, u | t in sure + choice && u in rows && u !in sure + choice ensures Similarity(t) >= Similarity(u) {
      if u.similarity > t.similarity {
        if t in sure { SureIsUpward(rows, n, t, u); } else { AboveTiedIsSure(rows, n, t, u); }
      }
    }
  }

  // ----- told from the table -----

  /** The tied rows other than `m` that do not help against `m`. */
  function Useless(rows: set<Row>, q: Query, n: nat, m: Row): set<Row> {
    Tied(rows, n) - {m} - Better(Tied(rows, n), q, m)
  }

  /** How few rows of a pool that misses `m` can come before `m`: the sure ones that do, and
      the tied ones that must fill the places for which there are no useless ones. */
  function Fewest(rows: set<Row>, q: Query, n: nat, m: Row): int {
    var left := n - |Sure(rows, n)| - |Useless(rows, q, n, m)|;
    |Better(Sure(rows, n), q, m)| + (if left > 0 then left else 0)
  }

  /** Every eligible row that some pool misses has `k` rows before it in each such pool. */
  ghost predicate TableEnough(table: set<Row>, q: Query) {
    var rows, n := Candidates(table, q), CandidateLimit(q);
    forall m :: m in AboveFloor(rows, q) && m !in Sure(rows, n) ==> Fewest(rows, q, n, m) >= q.k
  }

  lemma BetterSplit(a: set<Row>, b: set<Row>, q: Query, m: Row)
    requires a * b == {}
    ensures |Better(a + b, q, m)| == |Better(a, q, m)| + |Better(b, q, m)|
  {
    hide Rank;
    assert Better(a + b, q, m) == Better(a, q, m) + Better(b, q, m);
    assert Better(a, q, m) * Better(b, q, m) == {};
  }

  /** A pool that misses a row is full: the sure rows, and a choice of tied ones. */
  lemma PoolParts(pool: set<Row>, rows: set<Row>, n: nat, m: Row)
    requires IsPool(pool, rows, n) && m in rows && m !in pool
    ensures var choice := pool - Sure(rows, n);
            pool == Sure(rows, n) + choice && choice <= Tied(rows, n) - {m} && |Sure(rows, n)| + |choice| == n
  {
    SureIsIn(pool, rows, n);
    PoolIsSureOrTied(pool, rows, n);
    SameOrSmaller(pool, rows, m);
    var choice := pool - Sure(rows, n);
    assert pool == Sure(rows, n) + choice;
    UnionSize(Sure(rows, n), choice);
  }

  /** No pool that misses `m` has fewer. */
  lemma FewestBounds(rows: set<Row>, q: Query, n: nat, m: Row, pool: set<Row>)
    requires IsPool(pool, rows, n) && m in rows && m !in pool
    ensures |Better(pool, q, m)| >= Fewest(rows, q, n, m)
  {
    hide Rank, Sure, Tied, IsPool;
    var sure, useless := Sure(rows, n), Useless(rows, q, n, m);
    var choice := pool - sure;
    PoolParts(pool, rows, n, m);
    BetterSplit(sure, choice, q, m);
    assert choice <= Better(choice, q, m) + useless;
    SubsetSize(choice, Better(choice, q, m) + useless);
    UnionSize(Better(choice, q, m), useless);
  }

  lemma UnionSize(a: set<Row>, b: set<Row>)
    ensures |a + b| <= |a| + |b|
    ensures a * b == {} ==> |a + b| == |a| + |b|
  {
    assert |a + b| + |a * b| == |a| + |b|;
  }

  lemma {:induction false} PickSubset(rows: set<Row>, n: nat) returns (pick: set<Row>)
    requires n <= |rows|
    ensures pick <= rows && |pick| == n
  {
    if n == 0 {
      pick := {};
    } else {
      var x :| x in rows;
      var rest := PickSubset(rows - {x}, n - 1);
      pick := rest + {x};
    }
  }

  /** Some pool that misses `m` has just as many. */
  lemma FewestAttained(rows: set<Row>, q: Query, n: nat, m: Row) returns (pool: set<Row>)
    requires m in rows && m !in Sure(rows, n)
    ensures IsPool(pool, rows, n) && m !in pool && |Better(pool, q, m)| == Fewest(rows, q, n, m)
  {
    hide Rank, IsTop, Sure, Tied, Better, IsPool, AtLeast;
    var sure := Sure(rows, n);
    EnoughRows(rows, n, m);
    Apart(rows, n);
    var choice := {};
    if Tied(rows, n) == {} {
      NoTies(rows, n);
      NothingBetter(q, m);
    } else {
      TiedExceed(rows, n);
      choice := WorstChoice(rows, q, n, m, n - |sure|);
    }
    pool := sure + choice;
    ChoiceIsPool(rows, n, choice);
    assert sure * choice == {};
    BetterSplit(sure, choice, q, m);
  }

  lemma EnoughRows(rows: set<Row>, n: nat, m: Row)
    requires m in rows && m !in Sure(rows, n)
    ensures n <= |rows|
  {
    SubsetSize(AtLeast(rows, m.similarity), rows);
  }

  lemma Apart(rows: set<Row>, n: nat)
    ensures Sure(rows, n) * Tied(rows, n) == {}
  {
  }

  lemma NothingBetter(q: Query, m: Row)
    ensures Better({}, q, m) == {}
  {
  }

  lemma NoTies(rows: set<Row>, n: nat)
    requires Tied(rows, n) == {} && n <= |rows|
    ensures |Sure(rows, n)| == n
  {
    var near := TopOf(rows, n, Similarity);
    SureIsIn(Rows(near), rows, n);
    PoolIsSureOrTied(Rows(near), rows, n);
    assert Sure(rows, n) == Rows(near);
  }

  /** As many useless tied rows as there are, up to the number of places left. */
  lemma WorstChoice(rows: set<Row>, q: Query, n: nat, m: Row, places: nat) returns (choice: set<Row>)
    requires places < |Tied(rows, n)|
    ensures choice <= Tied(rows, n) - {m} && |choice| == places
    ensures |Better(choice, q, m)| ==
            if places > |Useless(rows, q, n, m)| then places - |Useless(rows, q, n, m)| else 0
  {
    hide Rank;
    var tied, useless := Tied(rows, n), Useless(rows, q, n, m);
    if places <= |useless| {
      choice := PickSubset(useless, places);
      assert Better(choice, q, m) == {};
    } else {
      var others := tied - {m} - useless;
      assert tied - {m} == others + useless;
      var more := PickSubset(others, places - |useless|);
      choice := useless + more;
      assert Better(choice, q, m) == more;
    }
  }

  /** The two-stage ranking is the exact ranking, whichever pool and answer the database
      gives, if and only if the table is enough for the query. */
  lemma AlwaysExactIff(table: set<Row>, q: Query)
    ensures (forall pool, answer :: Answers(table, q, pool, answer) ==> Exact(table, q, answer)) <==>
            TableEnough(table, q)
  {
    hide Rank, Answers, Exact, Fewest, Sure, CandidateLimit, Descending;
    var rows, n := Candidates(table, q), CandidateLimit(q);
    if TableEnough(table, q) {
      forall pool, answer | Answers(table, q, pool, answer) ensures Exact(table, q, answer) {
        EnoughForPool(table, q, pool, answer);
      }
    } else {
      var m :| m in AboveFloor(rows, q) && m !in Sure(rows, n) && Fewest(rows, q, n, m) < q.k;
      var pool := FewestAttained(rows, q, n, m);
      var answer := AnswerFrom(table, q, pool);
      ExactIff(table, q, pool, answer);
      assert !PoolEnough(table, q, pool);
    }
  }

  lemma EnoughForPool(table: set<Row>, q: Query, pool: set<Row>, answer: seq<Row>)
    requires TableEnough(table, q) && Answers(table, q, pool, answer)
    ensures Exact(table, q, answer)
  {
    hide Rank, Exact, Fewest, Sure, CandidateLimit, Better;
    var rows, n := Candidates(table, q), CandidateLimit(q);
    ExactIff(table, q, pool, answer);
    SureIsIn(pool, rows, n);
    forall m | m in AboveFloor(rows, q) && m !in pool ensures |Better(pool, q, m)| >= q.k {
      FewestBounds(rows, q, n, m, pool);
    }
  }

  lemma AnswerFrom(table: set<Row>, q: Query, pool: set<Row>) returns (answer: seq<Row>)
    requires IsPool(pool, Candidates(table, q), CandidateLimit(q))
    ensures Answers(table, q, pool, answer)
  {
    hide Rank, IsTop;
    answer := TopOf(AboveFloor(pool, q), q.k, Rank);
  }
}
