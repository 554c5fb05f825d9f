/**
 Reciprocal rank fusion and what `hybrid_search` makes of it,
 freshet/rag/retrieval.py.  Scores are exact.
 */
module Retrieval {
  import opened Basics
  import opened Sorting

  type Id = string

  const RRF_K: nat := 60

  /** What a place at this rank is worth; ranks start at 0. */
  function Worth(rrfK: nat, rank: nat): real
    requires rrfK > 0
  {
    1.0 / (rrfK + rank) as real
  }

  /** What one ranked list gives an id. */
  function FromList(ranked: seq<Id>, rrfK: nat, id: Id): real
    requires rrfK > 0
  {
    if ranked == [] then 0.0
    else
      var n := |ranked| - 1;
      FromList(ranked[..n], rrfK, id) + (if ranked[n] == id then Worth(rrfK, n) else 0.0)
  }

  function Score(lists: seq<seq<Id>>, rrfK: nat, id: Id): real
    requires rrfK > 0
  {
    if lists == [] then 0.0
    else Score(lists[..|lists| - 1], rrfK, id) + FromList(lists[|lists| - 1], rrfK, id)
  }

  predicate InSome(lists: seq<seq<Id>>, id: Id) {
    exists i :: 0 <= i < |lists| && id in lists[i]
  }

  type Scored = (Id, real)

  function ScoreOf(entry: Scored): real {
    entry.1
  }

  predicate NoRepeats(ids: seq<Id>) {
    forall i, j :: 0 <= i < j < |ids| ==> ids[i] != ids[j]
  }

  /** A dictionary of scores in the order its keys were first seen. */
  ghost predicate Tallied(order: seq<Id>, scores: map<Id, real>) {
    NoRepeats(order) && forall id :: id in scores <==> id in order
  }

  /** `scores.get(id, 0.0)`. */
  function Tally(scores: map<Id, real>, id: Id): real {
    if id in scores then scores[id] else 0.0
  }

  /** `reciprocal_rank_fusion`. */
  method Fuse(lists: seq<seq<Id>>, rrfK: nat) returns (ranking: seq<Scored>)
    requires rrfK > 0
    ensures IsFusion(lists, rrfK, ranking)
  {
    var order: seq<Id>, scores: map<Id, real> := [], map[];
    for i := 0 to |lists|
      invariant Tallied(order, scores)
      invariant forall id :: id in scores <==> InSome(lists[..i], id)
      invariant forall id :: Tally(scores, id) == Score(lists[..i], rrfK, id)
    {
      var ranked := lists[i];
      for rank := 0 to |ranked|
        invariant Tallied(order, scores)
        invariant forall id :: id in scores <==> InSome(lists[..i], id) || id in ranked[..rank]
        invariant forall id :: Tally(scores, id) == Score(lists[..i], rrfK, id) + FromList(ranked[..rank], rrfK, id)
      {
        var id := ranked[rank];
        if id !in scores { order := order + [id]; }
        scores := scores[id := Tally(scores, id) + Worth(rrfK, rank)];
        assert ranked[..rank + 1] == ranked[..rank] + [id];
      }
      assert ranked[..|ranked|] == ranked;
      assert lists[..i + 1] == lists[..i] + [ranked];
      InSomeAppend(lists[..i], ranked);
    }
    assert lists[..|lists|] == lists;
    ranking := Sort(Items(order, scores), ScoreOf);
    RankingIsFusion(lists, rrfK, order, scores);
  }

  function Items(order: seq<Id>, scores: map<Id, real>): seq<Scored>
    requires forall id :: id in order ==> id in scores
  {
    seq(|order|, i requires 0 <= i < |order| => (order[i], scores[order[i]]))
  }

  /** Each id of the union once, with its score, in descending order. */
  ghost predicate IsFusion(lists: seq<seq<Id>>, rrfK: nat, ranking: seq<Scored>)
    requires rrfK > 0
  {
    && (forall i, j :: 0 <= i < j < |ranking| ==> ranking[i].0 != ranking[j].0)
    && Descending(ranking, ScoreOf)
    && (forall i :: 0 <= i < |ranking| ==> InSome(lists, ranking[i].0) && ranking[i].1 == Score(lists, rrfK, ranking[i].0))
    && (forall id :: InSome(lists, id) ==> exists i :: 0 <= i < |ranking| && ranking[i].0 == id)
  }

  lemma {:induction false} RankingIsFusion(lists: seq<seq<Id>>, rrfK: nat, order: seq<Id>, scores: map<Id, real>)
    requires rrfK > 0 && Tallied(order, scores)
    requires forall id :: id in scores <==> InSome(lists, id)
    requires forall id :: id in scores ==> scores[id] == Score(lists, rrfK, id)
    ensures IsFusion(lists, rrfK, Sort(Items(order, scores), ScoreOf))
  {
    var items := Items(order, scores);
    var ranking := Sort(items, ScoreOf);
    SortContents(items, ScoreOf);
    SortDescends(items, ScoreOf);
    SortedOnce(items, ranking);
    forall i | 0 <= i < |ranking|
      ensures InSome(lists, ranking[i].0) && ranking[i].1 == Score(lists, rrfK, ranking[i].0)
    {
      assert ranking[i] in multiset(items);
    }
    forall id | InSome(lists, id)
      ensures exists i :: 0 <= i < |ranking| && ranking[i].0 == id
    {
      var j :| 0 <= j < |order| && order[j] == id;
      assert items[j] in multiset(ranking);
    }
  }

  lemma {:induction false} InSomeAppend(lists: seq<seq<Id>>, ranked: seq<Id>)
    ensures forall id :: InSome(lists + [ranked], id) <==> InSome(lists, id) || id in ranked
  {
    forall id
      ensures InSome(lists + [ranked], id) <==> InSome(lists, id) || id in ranked
    {
      if i :| 0 <= i < |lists| && id in lists[i] { assert id in (lists + [ranked])[i]; }
      if id in ranked { assert id in (lists + [ranked])[|lists|]; }
    }
  }

  /** Reordering items with different ids leaves their ids different. */
  lemma {:induction false} SortedOnce(items: seq<Scored>, ranking: seq<Scored>)
    requires multiset(items) == multiset(ranking)
    requires forall i, j :: 0 <= i < j < |items| ==> items[i].0 != items[j].0
    ensures forall i, j :: 0 <= i < j < |ranking| ==> ranking[i].0 != ranking[j].0
  {
    forall i, j | 0 <= i < j < |ranking|
      ensures ranking[i].0 != ranking[j].0
    {
      if ranking[i] == ranking[j] {
        TwiceInMultiset(ranking, i, j);
        OnceInMultiset(items, ranking[i]);
        assert false;
      } else {
        assert ranking[i] in multiset(items) && ranking[j] in multiset(items);
      }
    }
  }

  lemma {:induction false} TwiceInMultiset(xs: seq<Scored>, i: nat, j: nat)
    requires i < j < |xs| && xs[i] == xs[j]
    ensures multiset(xs)[xs[i]] >= 2
  {
    assert xs == xs[..i] + [xs[i]] + xs[i + 1..j] + [xs[j]] + xs[j + 1..];
  }

  lemma {:induction false} OnceInMultiset(xs: seq<Scored>, x: Scored)
    requires forall i, j :: 0 <= i < j < |xs| ==> xs[i].0 != xs[j].0
    ensures multiset(xs)[x] <= 1
    decreases |xs|
  {
    if xs != [] {
      OnceInMultiset(xs[..|xs| - 1], x);
      assert xs == xs[..|xs| - 1] + [xs[|xs| - 1]];
      if xs[|xs| - 1] == x {
        assert x !in xs[..|xs| - 1];
      }
    }
  }

  // ----- what the scores mean

  lemma {:induction false} ReciprocalFalls(a: real, b: real)
    requires 0.0 < a <= b
    ensures 0.0 < 1.0 / b <= 1.0 / a && (a < b ==> 1.0 / b < 1.0 / a)
  {
  }

  lemma {:induction false} WorthFalls(rrfK: nat, a: nat, b: nat)
    requires rrfK > 0 && a <= b
    ensures 0.0 < Worth(rrfK, b) <= Worth(rrfK, a) && (a < b ==> Worth(rrfK, b) < Worth(rrfK, a))
  {
    ReciprocalFalls((rrfK + a) as real, (rrfK + b) as real);
  }

  /** Without repeats an id is worth its place. */
  lemma {:induction false} FromListAt(ranked: seq<Id>, rrfK: nat, i: nat)
    requires rrfK > 0 && NoRepeats(ranked) && i < |ranked|
    ensures FromList(ranked, rrfK, ranked[i]) == Worth(rrfK, i)
    decreases |ranked|
  {
    var n := |ranked| - 1;
    if i < n {
      FromListAt(ranked[..n], rrfK, i);
    } else {
      FromListAbsent(ranked[..n], rrfK, ranked[n]);
    }
  }

  lemma {:induction false} FromListAbsent(ranked: seq<Id>, rrfK: nat, id: Id)
    requires rrfK > 0 && id !in ranked
    ensures FromList(ranked, rrfK, id) == 0.0
    decreases |ranked|
  {
    if ranked != [] { FromListAbsent(ranked[..|ranked| - 1], rrfK, id); }
  }

  lemma {:induction false} FromListNonNegative(ranked: seq<Id>, rrfK: nat, id: Id)
    requires rrfK > 0
    ensures FromList(ranked, rrfK, id) >= 0.0
    decreases |ranked|
  {
    if ranked != [] {
      FromListNonNegative(ranked[..|ranked| - 1], rrfK, id);
      WorthFalls(rrfK, |ranked| - 1, |ranked| - 1);
    }
  }

  lemma {:induction false} TwoLists(a: seq<Id>, b: seq<Id>, rrfK: nat, id: Id)
    requires rrfK > 0
    ensures Score([a, b], rrfK, id) == FromList(a, rrfK, id) + FromList(b, rrfK, id)
  {
    var two, one := [a, b], [a];
    assert two[..1] == one && one[..0] == [];
    assert Score(one, rrfK, id) == Score(one[..0], rrfK, id) + FromList(a, rrfK, id);
    assert Score(two, rrfK, id) == Score(two[..1], rrfK, id) + FromList(b, rrfK, id);
  }

  /** What an id scores in two lists, by its places there. */
  lemma {:induction false} ScoreByPlaces(a: seq<Id>, b: seq<Id>, rrfK: nat, i: nat, j: nat)
    requires rrfK > 0 && NoRepeats(a) && NoRepeats(b)
    ensures i < |a| && j < |b| && a[i] == b[j] ==>
      Score([a, b], rrfK, a[i]) == 1.0 / (rrfK + i) as real + 1.0 / (rrfK + j) as real
    ensures i < |a| && a[i] !in b ==> Score([a, b], rrfK, a[i]) == 1.0 / (rrfK + i) as real
    ensures j < |b| && b[j] !in a ==> Score([a, b], rrfK, b[j]) == 1.0 / (rrfK + j) as real
  {
    if i < |a| {
      TwoLists(a, b, rrfK, a[i]);
      FromListAt(a, rrfK, i);
      if a[i] !in b { FromListAbsent(b, rrfK, a[i]); }
    }
    if j < |b| {
      TwoLists(a, b, rrfK, b[j]);
      FromListAt(b, rrfK, j);
      if b[j] !in a { FromListAbsent(a, rrfK, b[j]); }
    }
  }

  /**
     Two lists no deeper than the constant: an id that both found scores above
     every id that only one found, whatever their places.
   */
  lemma {:induction false} AgreementWins(a: seq<Id>, b: seq<Id>, rrfK: nat, both: Id, one: Id)
    requires rrfK > 0 && NoRepeats(a) && NoRepeats(b) && |a| <= rrfK && |b| <= rrfK
    requires both in a && both in b && (one in a) != (one in b)
    ensures Score([a, b], rrfK, both) > Score([a, b], rrfK, one)
  {
    TwoLists(a, b, rrfK, both);
    TwoLists(a, b, rrfK, one);
    var i :| 0 <= i < |a| && a[i] == both;
    var j :| 0 <= j < |b| && b[j] == both;
    FromListAt(a, rrfK, i);
    FromListAt(b, rrfK, j);
    TwoPlacesBeatOne(rrfK, i, j);
    if one in a {
      var k :| 0 <= k < |a| && a[k] == one;
      FromListAt(a, rrfK, k);
      FromListAbsent(b, rrfK, one);
      WorthFalls(rrfK, 0, k);
    } else {
      var k :| 0 <= k < |b| && b[k] == one;
      FromListAt(b, rrfK, k);
      FromListAbsent(a, rrfK, one);
      WorthFalls(rrfK, 0, k);
    }
  }

  lemma {:induction false} TwoPlacesBeatOne(rrfK: nat, i: nat, j: nat)
    requires i < rrfK && j < rrfK
    ensures Worth(rrfK, i) + Worth(rrfK, j) > Worth(rrfK, 0)
  {
    WorthFalls(rrfK, i, rrfK - 1);
    WorthFalls(rrfK, j, rrfK - 1);
    TwiceTheLast(rrfK, rrfK - 1);
  }

  /** Twice the last place of a list is worth more than the first exactly when the list is no deeper than the constant. */
  lemma {:induction false} TwiceTheLast(rrfK: nat, last: nat)
    requires rrfK > 0
    ensures Worth(rrfK, last) + Worth(rrfK, last) > Worth(rrfK, 0) <==> last + 1 <= rrfK
  {
    Halves(rrfK as real, (rrfK + last) as real);
  }

  lemma {:induction false} Halves(k: real, m: real)
    requires k > 0.0 && m > 0.0
    ensures 1.0 / m + 1.0 / m > 1.0 / k <==> m < 2.0 * k
  {
    var x, y := 1.0 / m, 1.0 / k;
    assert x * m == 1.0 && y * k == 1.0;
    assert (x + x) * (m * k) == 2.0 * k && y * (m * k) == m by {
      assert (x + x) * (m * k) == 2.0 * (x * m) * k;
      assert y * (m * k) == (y * k) * m;
    }
    var p := m * k;
    assert p > 0.0;
    Compare(x + x, y, p);
  }

  lemma {:induction false} Compare(a: real, b: real, p: real)
    requires p > 0.0
    ensures a > b <==> a * p > b * p
  {
    if a > b { assert (a - b) * p > 0.0; } else { assert (b - a) * p >= 0.0; }
  }

  /**
     The depth limit is needed: one place deeper, an id that ends both lists
     no longer scores above an id that only heads one of them.
   */
  lemma {:induction false} DeeperListsLoseAgreement(a: seq<Id>, b: seq<Id>, rrfK: nat)
    requires rrfK > 0 && NoRepeats(a) && NoRepeats(b) && |a| == |b| > 1 && a[|a| - 1] == b[|b| - 1] && a[0] !in b
    ensures Score([a, b], rrfK, a[|a| - 1]) > Score([a, b], rrfK, a[0]) <==> |a| <= rrfK
  {
    TwoLists(a, b, rrfK, a[|a| - 1]);
    TwoLists(a, b, rrfK, a[0]);
    FromListAt(a, rrfK, |a| - 1);
    FromListAt(b, rrfK, |b| - 1);
    FromListAt(a, rrfK, 0);
    FromListAbsent(b, rrfK, a[0]);
    TwiceTheLast(rrfK, |a| - 1);
  }

  predicate Outranks(ranked: seq<Id>, x: Id, y: Id) {
    y in ranked ==> exists i, j :: 0 <= i < j < |ranked| && ranked[i] == x && ranked[j] == y
  }

  lemma {:induction false} OutranksInList(ranked: seq<Id>, rrfK: nat, x: Id, y: Id)
    requires rrfK > 0 && NoRepeats(ranked) && Outranks(ranked, x, y)
    ensures FromList(ranked, rrfK, x) >= FromList(ranked, rrfK, y)
    ensures y in ranked ==> FromList(ranked, rrfK, x) > FromList(ranked, rrfK, y)
  {
    if y in ranked {
      var i, j :| 0 <= i < j < |ranked| && ranked[i] == x && ranked[j] == y;
      FromListAt(ranked, rrfK, i);
      FromListAt(ranked, rrfK, j);
      WorthFalls(rrfK, i, j);
    } else {
      FromListAbsent(ranked, rrfK, y);
      FromListNonNegative(ranked, rrfK, x);
    }
  }

  /** An id that outranks another in every list that has the other scores above it. */
  lemma {:induction false} DominationCarriesOver(lists: seq<seq<Id>>, rrfK: nat, x: Id, y: Id)
    requires rrfK > 0 && forall i :: 0 <= i < |lists| ==> NoRepeats(lists[i]) && Outranks(lists[i], x, y)
    ensures Score(lists, rrfK, x) >= Score(lists, rrfK, y)
    ensures InSome(lists, y) ==> Score(lists, rrfK, x) > Score(lists, rrfK, y)
    decreases |lists|
  {
    if lists != [] {
      var n := |lists| - 1;
      DominationCarriesOver(lists[..n], rrfK, x, y);
      OutranksInList(lists[n], rrfK, x, y);
      assert lists == lists[..n] + [lists[n]];
      InSomeAppend(lists[..n], lists[n]);
    }
  }

  /** A higher score means an earlier place in the fused ranking. */
  lemma {:induction false} HigherScoreComesFirst(lists: seq<seq<Id>>, rrfK: nat, ranking: seq<Scored>, i: nat, j: nat)
    requires rrfK > 0 && IsFusion(lists, rrfK, ranking) && i < |ranking| && j < |ranking|
    requires Score(lists, rrfK, ranking[i].0) > Score(lists, rrfK, ranking[j].0)
    ensures i < j
  {
    assert j <= i ==> ScoreOf(ranking[j]) >= ScoreOf(ranking[i]);
  }

  // ----- hybrid search

  /** A row of either arm: its chunk, its cosine, and its cosine about the centroid if one is stored. */
  datatype Row = Row(id: Id, similarity: real, centered: Option<real>)

  datatype Hit = Hit(row: Row, score: real)

  /** What both arms returned and how the question was put. */
  datatype Query = Query(vec: seq<Row>, kw: seq<Row>, k: nat, filtered: bool, floor: real, centeredFloor: Option<real>)

  function Ids(rows: seq<Row>): seq<Id> {
    seq(|rows|, i requires 0 <= i < |rows| => rows[i].id)
  }

  /** The arm's row of a chunk. */
  function RowOf(rows: seq<Row>, id: Id): (r: Option<Row>)
    ensures r.Some? <==> id in Ids(rows)
    ensures r.Some? ==> r.value in rows && r.value.id == id
  {
    if rows == [] then None
    else if rows[|rows| - 1].id == id then
      assert Ids(rows)[|rows| - 1] == id;
      Some(rows[|rows| - 1])
    else
      var r := RowOf(rows[..|rows| - 1], id);
      assert Ids(rows) == Ids(rows[..|rows| - 1]) + [rows[|rows| - 1].id];
      r
  }

  /** `should_abstain`: nothing reaches the floor. */
  method ShouldAbstain(similarities: seq<real>, floor: real) returns (abstain: bool)
    ensures abstain <==> forall i :: 0 <= i < |similarities| ==> similarities[i] < floor
  {
    if similarities == [] { return true; }
    var best := similarities[0];
    for i := 1 to |similarities|
      invariant exists k :: 0 <= k < i && similarities[k] == best
      invariant forall k :: 0 <= k < i ==> similarities[k] <= best
    {
      if similarities[i] > best { best := similarities[i]; }
    }
    abstain := best < floor;
  }

  /** The centered cosines of the hits that have one. */
  function Centered(hits: seq<Hit>): seq<real> {
    if hits == [] then []
    else
      var n := |hits| - 1;
      Centered(hits[..n]) + (if hits[n].row.centered.Some? then [hits[n].row.centered.value] else [])
  }

  /** Whether a hit speaks for answering: by the centered floor when any hit has a centered cosine, else by the raw one. */
  predicate Convincing(q: Query, hits: seq<Hit>) {
    if q.filtered then hits != []
    else if q.centeredFloor.Some? && Centered(hits) != [] then
      exists i :: 0 <= i < |hits| && hits[i].row.centered.Some? && hits[i].row.centered.value >= q.centeredFloor.value
    else exists i :: 0 <= i < |hits| && hits[i].row.similarity >= q.floor
  }

  lemma {:induction false} CenteredOf(hits: seq<Hit>, floor: real)
    ensures (forall i :: 0 <= i < |Centered(hits)| ==> Centered(hits)[i] < floor)
       <==> (forall i :: 0 <= i < |hits| && hits[i].row.centered.Some? ==> hits[i].row.centered.value < floor)
    decreases |hits|
  {
    if hits != [] {
      var n := |hits| - 1;
      CenteredOf(hits[..n], floor);
      assert hits == hits[..n] + [hits[n]];
      var front := Centered(hits[..n]);
      assert forall i :: 0 <= i < |front| ==> Centered(hits)[i] == front[i];
      assert hits[n].row.centered.Some? ==> Centered(hits)[|front|] == hits[n].row.centered.value;
    }
  }

  /** The fused rows of both arms: the vector arm's row of a chunk when it has one. */
  ghost predicate HitsOf(q: Query, hits: seq<Hit>, ranking: seq<Scored>) {
    && |hits| == |ranking|
    && forall i :: 0 <= i < |hits| ==>
         && hits[i].score == ranking[i].1
         && Some(hits[i].row) == Coalesce(RowOf(q.vec, ranking[i].0), RowOf(q.kw, ranking[i].0))
  }

  method Assemble(q: Query, fused: seq<Scored>) returns (hits: seq<Hit>)
    requires forall i :: 0 <= i < |fused| ==> InSome([Ids(q.vec), Ids(q.kw)], fused[i].0)
    ensures HitsOf(q, hits, fused)
  {
    hits := [];
    for i := 0 to |fused|
      invariant HitsOf(q, hits, fused[..i])
    {
      var row := Coalesce(RowOf(q.vec, fused[i].0), RowOf(q.kw, fused[i].0));
      assert InSome([Ids(q.vec), Ids(q.kw)], fused[i].0);
      hits := hits + [Hit(row.value, fused[i].1)];
    }
    assert fused[..|fused|] == fused;
  }

  lemma {:induction false} TopHits(q: Query, hits: seq<Hit>, ranking: seq<Scored>, k: nat)
    requires HitsOf(q, hits, ranking) && k <= |hits|
    ensures HitsOf(q, hits[..k], ranking[..k])
  {
  }

  /** A time or service filter is the relevance signal itself and skips the floors. */
  method Abstain(q: Query, hits: seq<Hit>) returns (abstained: bool)
    ensures abstained <==> !Convincing(q, hits)
  {
    if q.filtered {
      abstained := hits == [];
    } else if q.centeredFloor.Some? && Centered(hits) != [] {
      CenteredOf(hits, q.centeredFloor.value);
      abstained := ShouldAbstain(Centered(hits), q.centeredFloor.value);
    } else {
      var similarities := seq(|hits|, i requires 0 <= i < |hits| => hits[i].row.similarity);
      abstained := ShouldAbstain(similarities, q.floor);
      assert forall i :: 0 <= i < |hits| ==> similarities[i] == hits[i].row.similarity;
    }
  }

  /**
     `hybrid_search` after its two queries: the k best of the fusion, and
     abstention exactly when none of them is convincing.
   */
  method HybridSearch(q: Query) returns (hits: seq<Hit>, abstained: bool, ghost ranking: seq<Scored>)
    ensures IsFusion([Ids(q.vec), Ids(q.kw)], 60, ranking)
    ensures |hits| == if |ranking| < q.k then |ranking| else q.k
    ensures HitsOf(q, hits, ranking[..|hits|])
    ensures abstained <==> !Convincing(q, hits)
  {
    var fused := Fuse([Ids(q.vec), Ids(q.kw)], RRF_K);
    ranking := fused;
    var all := Assemble(q, fused);
    var n := if |all| < q.k then |all| else q.k;
    hits := all[..n];
    TopHits(q, all, fused, n);
    abstained := Abstain(q, hits);
  }
}
