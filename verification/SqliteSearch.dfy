/** `SqliteSemanticStore._search`: scores every row in process, sorts stably by rank, keeps
    the first `k`, and only then drops those below the similarity floor. */
module SqliteSearch {
  import opened Options

  /** A row; `embedding` is None when there is no blob, else its dimension and its cosine
      similarity to the query at hand. */
  datatype Embedding = Embedding(dim: nat, similarity: real)

  datatype Row = Row(
    id: int, user: int, kind: string, importance: real, decayAfter: Option<real>,
    embedding: Option<Embedding>, lastUsedAt: Option<real>, useCount: int)

  datatype Query = Query(
    user: int, dim: nat, k: nat, minImportance: real, minSimilarity: real, kinds: Option<set<string>>, now: real)

  /** Unlike in the PostgreSQL store, an empty set of kinds excludes everything. */
  predicate Selected(r: Row, q: Query) {
    && r.user == q.user && r.embedding.Some? && r.importance >= q.minImportance
    && (q.kinds.None? || r.kind in q.kinds.value)
    && (r.decayAfter.None? || r.decayAfter.value > q.now)
    && r.embedding.value.dim == q.dim
  }

  function Similarity(r: Row): real {
    if r.embedding.Some? then r.embedding.value.similarity else 0.0
  }

  function Rank(r: Row): real {
    Similarity(r) * (0.5 + 0.5 * r.importance)
  }

  function Filter(rows: seq<Row>, q: Query): seq<Row> {
    if rows == [] then []
    else
      var r := rows[|rows| - 1];
      Filter(rows[..|rows| - 1], q) + (if Selected(r, q) then [r] else [])
  }

  // ----- stable sorting by descending rank -----

  predicate Before(ranks: seq<real>, i: nat, j: nat)
    requires i < |ranks| && j < |ranks|
  {
    ranks[i] > ranks[j] || (ranks[i] == ranks[j] && i < j)
  }

  ghost predicate Indices(order: seq<nat>, n: nat) {
    forall i :: 0 <= i < |order| ==> order[i] < n
  }

  ghost predicate Sorted(order: seq<nat>, ranks: seq<real>) {
    Indices(order, |ranks|) && forall i, j :: 0 <= i < j < |order| ==> Before(ranks, order[i], order[j])
  }

  /** Insert index `n` behind every index that ranks at least as high. */
  function Insert(order: seq<nat>, ranks: seq<real>, n: nat): (r: seq<nat>)
    requires n < |ranks| && Indices(order, |ranks|)
    ensures Indices(r, |ranks|)
  {
    if order == [] then [n]
    else
      var last := |order| - 1;
      if ranks[order[last]] >= ranks[n] then order + [n]
      else Insert(order[..last], ranks, n) + [order[last]]
  }

  /** `argsort(-ranks, kind="stable")` of the first `n` candidates. */
  function ArgSort(ranks: seq<real>, n: nat): (r: seq<nat>)
    requires n <= |ranks|
    ensures Indices(r, |ranks|)
  {
    if n == 0 then [] else Insert(ArgSort(ranks, n - 1), ranks, n - 1)
  }

  lemma {:induction false} InsertLaw(order: seq<nat>, ranks: seq<real>, n: nat)
    requires n < |ranks| && Sorted(order, ranks) && forall i :: 0 <= i < |order| ==> order[i] < n
    ensures Sorted(Insert(order, ranks, n), ranks)
    ensures forall x :: x in Insert(order, ranks, n) <==> x == n || x in order
  {
    if order != [] {
      var last := |order| - 1;
      if ranks[order[last]] < ranks[n] {
        InsertLaw(order[..last], ranks, n);
        var r := Insert(order[..last], ranks, n);
        forall i | 0 <= i < |r| ensures Before(ranks, r[i], order[last]) {
          assert r[i] in r;
          if r[i] != n {
            var j :| 0 <= j < last && order[j] == r[i];
          }
        }
        assert forall x :: x in order <==> x in order[..last] || x == order[last];
      } else {
        forall i | 0 <= i < |order| ensures Before(ranks, order[i], n) {
          if i < last { assert Before(ranks, order[i], order[last]); }
        }
      }
    }
  }

  lemma {:induction false} ArgSortLaw(ranks: seq<real>, n: nat)
    requires n <= |ranks|
    ensures Sorted(ArgSort(ranks, n), ranks)
    ensures forall x :: x in ArgSort(ranks, n) <==> 0 <= x < n
  {
    hide Insert;
    if n > 0 {
      ArgSortLaw(ranks, n - 1);
      var order := ArgSort(ranks, n - 1);
      assert forall i :: 0 <= i < |order| ==> order[i] in order;
      InsertLaw(ArgSort(ranks, n - 1), ranks, n - 1);
    }
  }

  /** The head of a sorted sequence comes before everything else in it, and occurs once. */
  lemma SortedHead(a: seq<nat>, ranks: seq<real>)
    requires Sorted(a, ranks) && a != []
    ensures forall x :: x in a ==> x < |ranks| && (x == a[0] || Before(ranks, a[0], x))
    ensures forall x :: x in a[1..] <==> x in a && x != a[0]
  {
    assert forall i :: 1 <= i < |a| ==> Before(ranks, a[0], a[i]) && a[i] in a[1..];
    assert a == [a[0]] + a[1..];
  }

  /** There is only one way to sort a set of candidates. */
  lemma {:induction false} SortedUnique(a: seq<nat>, b: seq<nat>, ranks: seq<real>)
    requires Sorted(a, ranks) && Sorted(b, ranks) && forall x :: x in a <==> x in b
    ensures a == b
    decreases |a|
  {
    assert (a != [] ==> a[0] in b) && (b != [] ==> b[0] in a);
    if a != [] && b != [] {
      SortedHead(a, ranks);
      SortedHead(b, ranks);
      SortedUnique(a[1..], b[1..], ranks);
      assert a == [a[0]] + a[1..] && b == [b[0]] + b[1..];
    }
  }

  // ----- truncate, then filter -----

  /** Keep the candidates whose similarity reaches the floor. */
  function Passing(order: seq<nat>, sims: seq<real>, floor: real): (r: seq<nat>)
    requires Indices(order, |sims|)
    ensures Indices(r, |sims|)
    ensures |r| <= |order|
  {
    if order == [] then []
    else
      var i := order[|order| - 1];
      Passing(order[..|order| - 1], sims, floor) + (if sims[i] >= floor then [i] else [])
  }

  function Take(order: seq<nat>, k: nat): seq<nat> {
    if k < |order| then order[..k] else order
  }

  /** What the code computes. Without a positive floor nothing is dropped. */
  function Found(sims: seq<real>, ranks: seq<real>, k: nat, floor: real): (r: seq<nat>)
    requires |sims| == |ranks|
    ensures Indices(r, |sims|)
  {
    var top := Take(ArgSort(ranks, |ranks|), k);
    if floor > 0.0 then Passing(top, sims, floor) else top
  }

  /** All candidates above the floor, stably ranked. */
  ghost predicate RankedAbove(all: seq<nat>, sims: seq<real>, ranks: seq<real>, floor: real)
    requires |sims| == |ranks|
  {
    Sorted(all, ranks) && forall x: nat :: x in all <==> x < |sims| && sims[x] >= floor
  }

  lemma {:induction false} PassingLaw(order: seq<nat>, sims: seq<real>, ranks: seq<real>, floor: real)
    requires |sims| == |ranks| && Sorted(order, ranks)
    ensures Sorted(Passing(order, sims, floor), ranks)
    ensures forall x :: x in Passing(order, sims, floor) <==> x in order && sims[x] >= floor
  {
    if order != [] {
      var last := |order| - 1;
      PassingLaw(order[..last], sims, ranks, floor);
      var r := Passing(order[..last], sims, floor);
      forall i | 0 <= i < |r| ensures Before(ranks, r[i], order[last]) {
        assert r[i] in r;
        var j :| 0 <= j < last && order[j] == r[i];
      }
      assert forall x :: x in order <==> x in order[..last] || x == order[last];
    }
  }

  lemma {:induction false} PassingAppend(a: seq<nat>, b: seq<nat>, sims: seq<real>, floor: real)
    requires Indices(a, |sims|) && Indices(b, |sims|)
    ensures Indices(a + b, |sims|) && Passing(a + b, sims, floor) == Passing(a, sims, floor) + Passing(b, sims, floor)
    decreases |b|
  {
    hide Passing;
    PassingNothing(sims, floor);
    if b == [] {
      assert a + b == a;
    } else {
      var n := |b| - 1;
      PassingAppend(a, b[..n], sims, floor);
      PassingSnoc(a + b[..n], b[n], sims, floor);
      PassingSnoc(b[..n], b[n], sims, floor);
      assert a + b == (a + b[..n]) + [b[n]] && b == b[..n] + [b[n]];
    }
  }

  lemma PassingNothing(sims: seq<real>, floor: real)
    ensures Passing([], sims, floor) == []
  {
  }

  lemma PassingSnoc(order: seq<nat>, i: nat, sims: seq<real>, floor: real)
    requires Indices(order, |sims|) && i < |sims|
    ensures Indices(order + [i], |sims|)
    ensures Passing(order + [i], sims, floor) == Passing(order, sims, floor) + (if sims[i] >= floor then [i] else [])
  {
    assert (order + [i])[..|order|] == order;
  }

  ghost predicate AllAbove(order: seq<nat>, sims: seq<real>, floor: real)
    requires Indices(order, |sims|)
  {
    forall i :: 0 <= i < |order| ==> sims[order[i]] >= floor
  }

  ghost predicate AllBelow(order: seq<nat>, sims: seq<real>, floor: real)
    requires Indices(order, |sims|)
  {
    forall i :: 0 <= i < |order| ==> sims[order[i]] < floor
  }

  lemma {:induction false} AllPass(order: seq<nat>, sims: seq<real>, floor: real)
    requires Indices(order, |sims|)
    ensures |Passing(order, sims, floor)| == |order| <==> AllAbove(order, sims, floor)
    ensures Passing(order, sims, floor) == [] <==> AllBelow(order, sims, floor)
  {
    hide Passing;
    PassingNothing(sims, floor);
    if order != [] {
      var n := |order| - 1;
      AllPass(order[..n], sims, floor);
      PassingSnoc(order[..n], order[n], sims, floor);
      assert order == order[..n] + [order[n]];
      assert AllAbove(order, sims, floor) <==> AllAbove(order[..n], sims, floor) && sims[order[n]] >= floor;
      assert AllBelow(order, sims, floor) <==> AllBelow(order[..n], sims, floor) && sims[order[n]] < floor;
    }
  }

  /** The exact answer is unique: the first `k` of the sorted order, filtered first. */
  lemma ExactIs(sims: seq<real>, ranks: seq<real>, floor: real, all: seq<nat>)
    requires |sims| == |ranks| && RankedAbove(all, sims, ranks, floor)
    ensures all == Passing(ArgSort(ranks, |ranks|), sims, floor)
  {
    hide ArgSort, Passing, Sorted;
    var order := ArgSort(ranks, |ranks|);
    ArgSortLaw(ranks, |ranks|);
    PassingLaw(order, sims, ranks, floor);
    SortedUnique(all, Passing(order, sims, floor), ranks);
  }

  lemma PrefixLengths(p: seq<nat>, r: seq<nat>, k: nat)
    requires |p| <= k
    ensures p <= Take(p + r, k)
    ensures p == Take(p + r, k) <==> |p| == k || r == []
  {
    assert |p| == k ==> (p + r)[..k] == p;
    assert p + [] == p;
    if r != [] && |p| < k { assert |Take(p + r, k)| > |p|; }
  }

  // ----- when the result is exact, told from the candidates -----

  /** The candidates that rank before candidate `i`. */
  ghost function Ahead(ranks: seq<real>, i: nat): set<nat>
    requires i < |ranks|
  {
    set j: nat | j < |ranks| && Before(ranks, j, i)
  }

  /** No candidate below the floor is among the `k` that rank highest. */
  ghost predicate NoneBelowInTop(sims: seq<real>, ranks: seq<real>, k: nat, floor: real)
    requires |sims| == |ranks|
  {
    forall i: nat :: i < |sims| && sims[i] < floor ==> |Ahead(ranks, i)| >= k
  }

  /** Every candidate that reaches the floor is among the `k` that rank highest. */
  ghost predicate NoneAboveBehind(sims: seq<real>, ranks: seq<real>, k: nat, floor: real)
    requires |sims| == |ranks|
  {
    forall i: nat :: i < |sims| && sims[i] >= floor ==> |Ahead(ranks, i)| < k
  }

  function Elements(s: seq<nat>): set<nat> {
    set x | x in s
  }

  lemma {:induction false} ElementsSize(s: seq<nat>)
    requires forall i, j :: 0 <= i < j < |s| ==> s[i] != s[j]
    ensures |Elements(s)| == |s|
  {
    if s != [] {
      var n := |s| - 1;
      ElementsSize(s[..n]);
      assert s == s[..n] + [s[n]];
      assert Elements(s) == Elements(s[..n]) + {s[n]};
    }
  }

  lemma SortedPlaces(order: seq<nat>, ranks: seq<real>, p: nat, q: nat)
    requires Sorted(order, ranks) && p < |order| && q < |order| && Before(ranks, order[q], order[p])
    ensures q < p
  {
  }

  /** A candidate's place in the order is the number of candidates ahead of it. */
  lemma PlaceOf(ranks: seq<real>, p: nat)
    requires p < |ArgSort(ranks, |ranks|)|
    ensures |Ahead(ranks, ArgSort(ranks, |ranks|)[p])| == p
  {
    hide ArgSort, Before;
    var order := ArgSort(ranks, |ranks|);
    ArgSortLaw(ranks, |ranks|);
    var ahead := Ahead(ranks, order[p]);
    forall x: nat ensures x in ahead <==> x in order[..p] {
      if x in ahead {
        assert x in order;
        var q :| 0 <= q < |order| && order[q] == x;
        SortedPlaces(order, ranks, p, q);
      }
    }
    assert ahead == Elements(order[..p]);
    Irreflexive(ranks);
    ElementsSize(order[..p]);
  }

  lemma Irreflexive(ranks: seq<real>)
    ensures forall i: nat :: i < |ranks| ==> !Before(ranks, i, i)
  {
  }

  /** Every candidate has its place. */
  lemma Places(ranks: seq<real>)
    ensures var order := ArgSort(ranks, |ranks|);
            && |order| == |ranks|
            && (forall p: nat :: p < |order| ==> |Ahead(ranks, order[p])| == p)
            && (forall i: nat :: i < |ranks| ==> |Ahead(ranks, i)| < |order| && order[|Ahead(ranks, i)|] == i)
  {
    hide ArgSort, Ahead, Before;
    var order := ArgSort(ranks, |ranks|);
    ArgSortLaw(ranks, |ranks|);
    ArgSortSize(ranks, |ranks|);
    forall p: nat | p < |order| ensures |Ahead(ranks, order[p])| == p { PlaceOf(ranks, p); }
    forall i: nat | i < |ranks| ensures |Ahead(ranks, i)| < |order| && order[|Ahead(ranks, i)|] == i {
      assert i in order;
    }
  }

  lemma TopIff(sims: seq<real>, ranks: seq<real>, k: nat, floor: real)
    requires |sims| == |ranks|
    ensures var order := ArgSort(ranks, |ranks|);
            var n := if k < |order| then k else |order|;
            && (AllAbove(order[..n], sims, floor) <==> NoneBelowInTop(sims, ranks, k, floor))
            && (AllBelow(order[n..], sims, floor) <==> NoneAboveBehind(sims, ranks, k, floor))
  {
    hide ArgSort, Ahead, Before, AllAbove, AllBelow;
    var order := ArgSort(ranks, |ranks|);
    var n := if k < |order| then k else |order|;
    Places(ranks);
    EntriesAbove(order, n, sims, floor);
    EntriesBelow(order, n, sims, floor);
  }

  lemma EntriesAbove(order: seq<nat>, n: nat, sims: seq<real>, floor: real)
    requires Indices(order, |sims|) && n <= |order|
    ensures AllAbove(order[..n], sims, floor) <==> forall q: nat :: q < n ==> sims[order[q]] >= floor
  {
    assert forall q: nat :: q < n ==> order[..n][q] == order[q];
  }

  lemma EntriesBelow(order: seq<nat>, n: nat, sims: seq<real>, floor: real)
    requires Indices(order, |sims|) && n <= |order|
    ensures AllBelow(order[n..], sims, floor) <==> forall q: nat :: n <= q < |order| ==> sims[order[q]] < floor
  {
    assert forall q: nat :: n <= q < |order| ==> order[n..][q - n] == order[q];
  }

  lemma {:induction false} InsertSize(order: seq<nat>, ranks: seq<real>, n: nat)
    requires n < |ranks| && Indices(order, |ranks|)
    ensures |Insert(order, ranks, n)| == |order| + 1
  {
    if order != [] { InsertSize(order[..|order| - 1], ranks, n); }
  }

  lemma {:induction false} ArgSortSize(ranks: seq<real>, n: nat)
    requires n <= |ranks|
    ensures |ArgSort(ranks, n)| == n
  {
    hide Insert;
    if n > 0 {
      ArgSortSize(ranks, n - 1);
      InsertSize(ArgSort(ranks, n - 1), ranks, n - 1);
    }
  }

  /** For every floor: the result is a prefix of the exact answer (filter first, then take
      the first `k`) if and only if the floor is positive or no candidate below it is among
      the `k` highest; and it is the exact answer if and only if none is, or the floor is
      positive and every candidate that reaches it is among them. */
  lemma PrefixOfExact(sims: seq<real>, ranks: seq<real>, k: nat, floor: real, all: seq<nat>)
    requires |sims| == |ranks| && RankedAbove(all, sims, ranks, floor)
    ensures Found(sims, ranks, k, floor) <= Take(all, k) <==>
            floor > 0.0 || NoneBelowInTop(sims, ranks, k, floor)
    ensures Found(sims, ranks, k, floor) == Take(all, k) <==>
            NoneBelowInTop(sims, ranks, k, floor) || (floor > 0.0 && NoneAboveBehind(sims, ranks, k, floor))
  {
    hide ArgSort, Passing, RankedAbove, AllAbove, AllBelow, NoneBelowInTop, NoneAboveBehind;
    var order := ArgSort(ranks, |ranks|);
    var n := if k < |order| then k else |order|;
    var a, b := order[..n], order[n..];
    ExactIs(sims, ranks, floor, all);
    assert order == a + b && Take(order, k) == a;
    TopIff(sims, ranks, k, floor);
    PassingAppend(a, b, sims, floor);
    AllPass(a, sims, floor);
    AllPass(b, sims, floor);
    var p, r := Passing(a, sims, floor), Passing(b, sims, floor);
    PrefixLengths(p, r, k);
    if floor <= 0.0 { UnfilteredPrefix(a, b, sims, floor, k); }
  }

  /** Without the filter, the top is a prefix of the exact answer only if it is the exact answer. */
  lemma UnfilteredPrefix(a: seq<nat>, b: seq<nat>, sims: seq<real>, floor: real, k: nat)
    requires Indices(a, |sims|) && Indices(b, |sims|) && |a| <= k && (|a| < k ==> b == [])
    ensures var all := Passing(a, sims, floor) + Passing(b, sims, floor);
            && (a <= Take(all, k) <==> AllAbove(a, sims, floor))
            && (a == Take(all, k) <==> AllAbove(a, sims, floor))
  {
    hide Passing;
    PassingNothing(sims, floor);
    var p, r := Passing(a, sims, floor), Passing(b, sims, floor);
    AllPass(a, sims, floor);
    PassingKeeps(a, sims, floor);
    assert p + [] == p;
    if AllAbove(a, sims, floor) {
      assert (p + r)[..|a|] == p;
    } else if a <= Take(p + r, k) {
      PassingReaches(a, sims, floor);
      PassingReaches(b, sims, floor);
      assert forall i :: 0 <= i < |a| ==> sims[(p + r)[i]] >= floor;
    }
  }

  lemma {:induction false} PassingKeeps(order: seq<nat>, sims: seq<real>, floor: real)
    requires Indices(order, |sims|)
    ensures AllAbove(order, sims, floor) ==> Passing(order, sims, floor) == order
  {
    hide Passing;
    PassingNothing(sims, floor);
    if order != [] {
      var n := |order| - 1;
      PassingKeeps(order[..n], sims, floor);
      PassingSnoc(order[..n], order[n], sims, floor);
      assert order == order[..n] + [order[n]];
    }
  }

  lemma {:induction false} PassingReaches(order: seq<nat>, sims: seq<real>, floor: real)
    requires Indices(order, |sims|)
    ensures AllAbove(Passing(order, sims, floor), sims, floor)
  {
    hide Passing;
    PassingNothing(sims, floor);
    if order != [] {
      var n := |order| - 1;
      PassingReaches(order[..n], sims, floor);
      PassingSnoc(order[..n], order[n], sims, floor);
      assert order == order[..n] + [order[n]];
    }
  }

  /** At the default floor of zero the prefix law fails: a single candidate of negative
      similarity is returned, and the exact answer is empty. */
  lemma ZeroFloorFails()
    ensures RankedAbove([], [-1.0], [-1.0], 0.0)
    ensures Found([-1.0], [-1.0], 1, 0.0) == [0] && !(Found([-1.0], [-1.0], 1, 0.0) <= Take([], 1))
  {
    var ranks := [-1.0];
    assert ArgSort(ranks, 0) == [];
    assert ArgSort(ranks, 1) == [0];
  }

  /** So the law holds for every `k` if and only if the floor is positive or no candidate is
      below it, and the floor is enforced for every `k` under the same condition. */
  lemma PrefixForEveryK(sims: seq<real>, ranks: seq<real>, floor: real, all: seq<nat>)
    requires |sims| == |ranks| && RankedAbove(all, sims, ranks, floor)
    ensures (forall k: nat :: Found(sims, ranks, k, floor) <= Take(all, k)) <==>
            floor > 0.0 || forall i: nat :: i < |sims| ==> sims[i] >= floor
    ensures (forall k: nat :: AllAbove(Found(sims, ranks, k, floor), sims, floor)) <==>
            floor > 0.0 || forall i: nat :: i < |sims| ==> sims[i] >= floor
  {
    hide ArgSort, Passing, Found, RankedAbove, Ahead;
    forall k: nat
      ensures Found(sims, ranks, k, floor) <= Take(all, k) <==> floor > 0.0 || NoneBelowInTop(sims, ranks, k, floor)
      ensures AllAbove(Found(sims, ranks, k, floor), sims, floor) <==>
              floor > 0.0 || NoneBelowInTop(sims, ranks, k, floor)
    {
      PrefixOfExact(sims, ranks, k, floor, all);
      FloorEnforcedIff(sims, ranks, k, floor);
    }
    Places(ranks);
    assert NoneBelowInTop(sims, ranks, |sims|, floor) <==> forall i: nat :: i < |sims| ==> sims[i] >= floor;
    var n := |sims|;
    assert floor > 0.0 || (Found(sims, ranks, n, floor) <= Take(all, n) <==> NoneBelowInTop(sims, ranks, n, floor));
  }

  /** Every row returned reaches the floor if and only if the floor is positive or no
      candidate below it is among the `k` highest. The PostgreSQL store enforces every floor. */
  lemma FloorEnforcedIff(sims: seq<real>, ranks: seq<real>, k: nat, floor: real)
    requires |sims| == |ranks|
    ensures AllAbove(Found(sims, ranks, k, floor), sims, floor) <==>
            floor > 0.0 || NoneBelowInTop(sims, ranks, k, floor)
  {
    hide ArgSort, Passing, NoneBelowInTop;
    var order := ArgSort(ranks, |ranks|);
    TopIff(sims, ranks, k, floor);
    PassingReaches(Take(order, k), sims, floor);
    assert order[..|order|] == order;
  }

  // ----- the method -----

  function Sims(c: seq<Row>): (r: seq<real>)
    ensures |r| == |c|
  {
    seq(|c|, i requires 0 <= i < |c| => Similarity(c[i]))
  }

  function Ranks(c: seq<Row>): (r: seq<real>)
    ensures |r| == |c|
  {
    seq(|c|, i requires 0 <= i < |c| => Rank(c[i]))
  }

  /** The candidates that reach a floor. */
  ghost function Reaching(sims: seq<real>, floor: real): set<nat> {
    set i: nat | i < |sims| && sims[i] >= floor
  }

  lemma SignOfRank(r: Row)
    requires 0.0 <= r.importance <= 1.0
    ensures Similarity(r) >= 0.0 <==> Rank(r) >= 0.0
  {
    var w := 0.5 + 0.5 * r.importance;
    assert Similarity(r) >= 0.0 ==> Similarity(r) * w >= 0.0;
    assert Similarity(r) < 0.0 ==> Similarity(r) * w < 0.0;
  }

  /** Ranking by a key of the same sign puts the candidates that reach zero first. */
  lemma ReachingFirst(sims: seq<real>, ranks: seq<real>)
    requires |sims| == |ranks| && forall i: nat :: i < |sims| ==> (sims[i] >= 0.0 <==> ranks[i] >= 0.0)
    ensures var m := |Reaching(sims, 0.0)|;
            forall i: nat :: i < |sims| ==> (sims[i] >= 0.0 <==> |Ahead(ranks, i)| < m)
  {
    var reaching := Reaching(sims, 0.0);
    forall i: nat | i < |sims| ensures sims[i] >= 0.0 <==> |Ahead(ranks, i)| < |reaching| {
      if sims[i] >= 0.0 {
        assert Ahead(ranks, i) <= reaching - {i};
        SubsetSize(Ahead(ranks, i), reaching - {i});
      } else {
        assert reaching <= Ahead(ranks, i);
        SubsetSize(reaching, Ahead(ranks, i));
      }
    }
  }

  lemma {:induction false} SubsetSize(a: set<nat>, b: set<nat>)
    requires a <= b
    ensures |a| <= |b|
  {
    if a != {} {
      var x :| x in a;
      SubsetSize(a - {x}, b - {x});
    }
  }

  /** The exact answer for a floor of zero is the head of the order. */
  lemma ExactIsHead(sims: seq<real>, ranks: seq<real>, all: seq<nat>)
    requires |sims| == |ranks| && forall i: nat :: i < |sims| ==> (sims[i] >= 0.0 <==> ranks[i] >= 0.0)
    requires RankedAbove(all, sims, ranks, 0.0)
    ensures |all| == |Reaching(sims, 0.0)| && all <= ArgSort(ranks, |ranks|)
  {
    hide ArgSort, Ahead, Before;
    var order := ArgSort(ranks, |ranks|);
    Irreflexive(ranks);
    assert Elements(all) == Reaching(sims, 0.0);
    ElementsSize(all);
    ArgSortLaw(ranks, |ranks|);
    Places(ranks);
    ReachingFirst(sims, ranks);
    var m := |all|;
    SubsetSize(Reaching(sims, 0.0), Elements(order));
    ElementsSize(order);
    var head := order[..m];
    forall x: nat ensures x in head <==> x in all {
      if x in all { assert head[|Ahead(ranks, x)|] == x; }
    }
    SortedUnique(head, all, ranks);
  }

  /** At the default floor of zero, with importances between 0 and 1: the exact answer is a
      prefix of the result, and the result is exact if and only if at least `k` candidates
      reach zero, or all do. */
  lemma ZeroFloorIff(c: seq<Row>, k: nat, all: seq<nat>)
    requires forall i :: 0 <= i < |c| ==> 0.0 <= c[i].importance <= 1.0
    requires RankedAbove(all, Sims(c), Ranks(c), 0.0)
    ensures Take(all, k) <= Found(Sims(c), Ranks(c), k, 0.0)
    ensures Found(Sims(c), Ranks(c), k, 0.0) == Take(all, k) <==>
            |Reaching(Sims(c), 0.0)| >= k || forall i :: 0 <= i < |c| ==> Similarity(c[i]) >= 0.0
  {
    hide ArgSort, Rank, Similarity, RankedAbove, Passing;
    var sims, ranks := Sims(c), Ranks(c);
    forall i: nat | i < |c| ensures sims[i] >= 0.0 <==> ranks[i] >= 0.0 { SignOfRank(c[i]); }
    ExactIsHead(sims, ranks, all);
    ArgSortSize(ranks, |ranks|);
    AllReach(sims, 0.0);
    TakePrefix(all, ArgSort(ranks, |ranks|), k);
    assert forall i :: 0 <= i < |c| ==> sims[i] == Similarity(c[i]);
  }

  lemma TakePrefix(a: seq<nat>, b: seq<nat>, k: nat)
    requires a <= b
    ensures Take(a, k) <= Take(b, k)
    ensures Take(b, k) == Take(a, k) <==> |a| >= k || |a| == |b|
  {
  }

  lemma AllReach(sims: seq<real>, floor: real)
    ensures |Reaching(sims, floor)| == |sims| <==> forall i: nat :: i < |sims| ==> sims[i] >= floor
  {
    hide ArgSort;
    var order := ArgSort(sims, |sims|);
    ArgSortLaw(sims, |sims|);
    ArgSortSize(sims, |sims|);
    ElementsSize(order);
    var whole, reaching := Elements(order), Reaching(sims, floor);
    assert forall i: nat :: i < |sims| ==> i in order;
    SubsetSize(reaching, whole);
    if forall i: nat :: i < |sims| ==> sims[i] >= floor {
      assert reaching == whole;
    } else {
      var i: nat :| i < |sims| && sims[i] < floor;
      SubsetSize(reaching, whole - {i});
    }
  }

  // ----- what a search returns, case by case -----

  /** The rows a query may return: the asking user's, embedded with the query's dimension,
      important enough, not expired, and of the kinds asked for, if any are. */
  predicate Eligible(r: Row, q: Query) {
    && r.user == q.user && !(r.importance < q.minImportance)
    && (match r.embedding case None => false case Some(e) => e.dim == q.dim)
    && (match r.decayAfter case None => true case Some(t) => q.now < t)
    && (match q.kinds case None => true case Some(ks) => r.kind in ks)
  }

  lemma {:induction false} FilterLaw(rows: seq<Row>, q: Query)
    ensures forall r :: r in Filter(rows, q) <==> r in rows && Eligible(r, q)
  {
    if rows != [] { FilterLaw(rows[..|rows| - 1], q); }
  }

  /** What the ranking orders by. */
  function Score(r: Row): real {
    match r.embedding
    case None => 0.0
    case Some(e) => e.similarity * (1.0 + r.importance) / 2.0
  }

  lemma ScoreIs(r: Row)
    ensures Rank(r) == Score(r)
  {
  }

  function RowsAt(c: seq<Row>, order: seq<nat>): seq<Row>
    requires Indices(order, |c|)
  {
    seq(|order|, i requires 0 <= i < |order| => c[order[i]])
  }

  /** A place in the order that is not found is behind the top `k`, or below the floor. */
  lemma FoundLaw(sims: seq<real>, ranks: seq<real>, k: nat, floor: real)
    requires |sims| == |ranks|
    ensures var found := Found(sims, ranks, k, floor);
            && |found| <= k && Sorted(found, ranks)
            && (floor > 0.0 ==> forall x :: x in found ==> sims[x] >= floor)
            && (floor <= 0.0 ==> |found| == if k < |sims| then k else |sims|)
            && forall x: nat, y :: x < |sims| && x !in found && (floor <= 0.0 || sims[x] >= floor) && y in found ==>
                 ranks[y] >= ranks[x]
  {
    hide ArgSort, Passing;
    var order := ArgSort(ranks, |ranks|);
    var top := Take(order, k);
    ArgSortLaw(ranks, |ranks|);
    ArgSortSize(ranks, |ranks|);
    PassingLaw(top, sims, ranks, floor);
    forall x: nat, y | x < |sims| && x !in top && y in top ensures ranks[y] >= ranks[x] {
      assert x in order;
      var i :| 0 <= i < |order| && order[i] == x;
      var j :| 0 <= j < |top| && top[j] == y;
      assert forall a :: 0 <= a < |top| ==> order[a] == top[a] && order[a] in top;
      assert order[j] == y && Before(ranks, order[j], order[i]);
    }
  }

  lemma RowsAtHas(c: seq<Row>, order: seq<nat>, x: nat)
    requires Indices(order, |c|) && x < |c|
    ensures x in order ==> c[x] in RowsAt(c, order)
  {
    if x in order {
      var i :| 0 <= i < |order| && order[i] == x;
      assert RowsAt(c, order)[i] == c[x];
    }
  }

  /** A search returns at most `k` eligible rows, best first; an eligible row that is left out
      (and reaches the floor, where that is positive) ranks no higher than any returned; and
      without a positive floor there are `k`, if there are that many. */
  lemma SearchIs(rows: seq<Row>, q: Query)
    ensures var c := Filter(rows, q);
            var found := RowsAt(c, Found(Sims(c), Ranks(c), q.k, q.minSimilarity));
            && |found| <= q.k
            && (forall r :: r in found ==> r in rows && Eligible(r, q))
            && (forall r :: r in found && q.minSimilarity > 0.0 ==> r.embedding.value.similarity >= q.minSimilarity)
            && (forall i, j :: 0 <= i < j < |found| ==> Score(found[i]) >= Score(found[j]))
            && (forall r, f :: r in rows && Eligible(r, q) && r !in found && f in found ==>
                  (q.minSimilarity > 0.0 && r.embedding.value.similarity < q.minSimilarity) || Score(f) >= Score(r))
            && (q.minSimilarity <= 0.0 && |found| < q.k ==> forall r :: r in rows && Eligible(r, q) ==> r in found)
  {
    hide Found, Filter, Rank, Score, Eligible, Similarity;
    var c := Filter(rows, q);
    var order := Found(Sims(c), Ranks(c), q.k, q.minSimilarity);
    var found := RowsAt(c, order);
    FilterLaw(rows, q);
    FoundLaw(Sims(c), Ranks(c), q.k, q.minSimilarity);
    forall i | 0 <= i < |c| ensures c[i] in c && Ranks(c)[i] == Score(c[i]) { ScoreIs(c[i]); }
    EligibleIsEmbedded(rows, q);
    forall i | 0 <= i < |order| ensures order[i] in order && found[i] == c[order[i]] { }
    forall r | r in c && r !in found ensures exists x: nat :: x < |c| && c[x] == r && x !in order {
      var x :| 0 <= x < |c| && c[x] == r;
      RowsAtHas(c, order, x);
    }
    if q.minSimilarity <= 0.0 && |found| < q.k {
      AllFound(Sims(c), Ranks(c), q.k, q.minSimilarity);
    }
  }

  lemma AllFound(sims: seq<real>, ranks: seq<real>, k: nat, floor: real)
    requires |sims| == |ranks| && floor <= 0.0 && |Found(sims, ranks, k, floor)| < k
    ensures forall x: nat :: x < |sims| ==> x in Found(sims, ranks, k, floor)
  {
    hide ArgSort;
    ArgSortLaw(ranks, |ranks|);
    ArgSortSize(ranks, |ranks|);
  }

  lemma EligibleIsEmbedded(rows: seq<Row>, q: Query)
    ensures forall r {:trigger Eligible(r, q)} :: Eligible(r, q) ==>
            r.embedding.Some? && Similarity(r) == r.embedding.value.similarity
  {
  }

  class SqliteStore {
    var rows: seq<Row>

    /** Returns the rows found and bumps the usage counters of exactly those. */
    method Search(q: Query, stamp: real) returns (found: seq<Row>)
      modifies this
      ensures var c := Filter(old(rows), q);
              var order := Found(Sims(c), Ranks(c), q.k, q.minSimilarity);
              && |found| == |order| && (forall i :: 0 <= i < |order| ==> found[i] == c[order[i]])
              && rows == Touched(old(rows), found, stamp)
    {
      hide Selected, Rank, ArgSort, Passing;
      var candidates := [];
      for i := 0 to |rows|
        invariant candidates == Filter(rows[..i], q) && rows == old(rows)
      {
        assert rows[..i + 1][..i] == rows[..i];
        if Selected(rows[i], q) { candidates := candidates + [rows[i]]; }
      }
      assert rows[..|rows|] == rows;
      var sims, ranks := Sims(candidates), Ranks(candidates);
      var order := ArgSort(ranks, |ranks|);
      order := if q.k < |order| then order[..q.k] else order;
      if q.minSimilarity > 0.0 {
        order := KeepAbove(sims, order, q.minSimilarity);
      }
      found := seq(|order|, i requires 0 <= i < |order| => candidates[order[i]]);
      if found == [] {
        TouchedNothing(rows, stamp);
      } else {
        rows := Touched(rows, found, stamp);
      }
    }

    method KeepAbove(sims: seq<real>, order: seq<nat>, floor: real) returns (kept: seq<nat>)
      requires Indices(order, |sims|)
      ensures kept == Passing(order, sims, floor)
    {
      kept := [];
      for i := 0 to |order|
        invariant kept == Passing(order[..i], sims, floor)
      {
        assert order[..i + 1][..i] == order[..i];
        if sims[order[i]] >= floor { kept := kept + [order[i]]; }
      }
      assert order[..|order|] == order;
    }
  }

  /** `UPDATE ... SET last_used_at, use_count = use_count + 1 WHERE id IN (found)` */
  function Touched(rows: seq<Row>, found: seq<Row>, stamp: real): seq<Row> {
    seq(|rows|, i requires 0 <= i < |rows| =>
      if exists j :: 0 <= j < |found| && found[j].id == rows[i].id
      then rows[i].(lastUsedAt := Some(stamp), useCount := rows[i].useCount + 1) else rows[i])
  }

  /** Exactly the rows found are stamped and counted. */
  lemma TouchedIs(rows: seq<Row>, found: seq<Row>, stamp: real)
    ensures |Touched(rows, found, stamp)| == |rows|
    ensures forall i :: 0 <= i < |rows| ==>
              if exists f :: f in found && f.id == rows[i].id
              then Touched(rows, found, stamp)[i] ==
                rows[i].(lastUsedAt := Some(stamp), useCount := rows[i].useCount + 1)
              else Touched(rows, found, stamp)[i] == rows[i]
  {
    assert forall j :: 0 <= j < |found| ==> found[j] in found;
  }

  lemma TouchedNothing(rows: seq<Row>, stamp: real)
    ensures Touched(rows, [], stamp) == rows
  {
  }
}
