/** The recommendation step behind the button (app.py, lines 116-140):
    score the whole catalog, filter in stages, sort by score descending and
    keep the first eight rows. */
module Ranking {
  import opened Catalog
  import opened Scoring
  import opened Filter

  /** The `head(8)` of line 140. */
  const MaxResults: nat := 8

  function Min(a: int, b: int): (m: int) {
    if a <= b then a else b
  }

  /** Scores never increase from one row to the next. */
  predicate ScoresDescending(s: seq<Row>) {
    forall i, j :: 0 <= i < j < |s| ==> s[i].score >= s[j].score
  }

  /** The rows that pass the filters for `q`, each with the score computed
      for its catalog index over the whole catalog. */
  function Candidates(q: Query, scores: seq<int>): (rows: seq<Row>)
    requires ValidScores(Courses, scores)
    ensures IndexOrdered(rows)
    ensures forall x :: x in rows <==> Attached(x, Courses, scores) && Matches(x.course, q)
  {
    Filtered(ScoredTable(Courses, scores), q)
  }

  /** Exchanges two rows of `a`. */
  method Swap(a: array<Row>, i: nat, j: nat)
    requires i < a.Length && j < a.Length
    modifies a
    ensures a[i] == old(a[j]) && a[j] == old(a[i])
    ensures forall m :: 0 <= m < a.Length && m != i && m != j ==> a[m] == old(a[m])
    ensures multiset(a[..]) == multiset(old(a[..]))
  {
    a[i], a[j] := a[j], a[i];
  }

  /** The sort of line 140: orders the rows by score, highest first, and
      keeps the same rows. Insertion sort, which happens to be stable; the
      contract says nothing about the order of equal scores. */
  method SortByScore(a: array<Row>)
    modifies a
    ensures ScoresDescending(a[..])
    ensures multiset(a[..]) == multiset(old(a[..]))
  {
    var i := 0;
    while i < a.Length
      invariant 0 <= i <= a.Length
      invariant ScoresDescending(a[..i])
      invariant multiset(a[..]) == multiset(old(a[..]))
    {
      // sink a[i] into the sorted prefix a[..i]
      var j := i;
      while j > 0 && a[j - 1].score < a[j].score
        invariant 0 <= j <= i
        invariant multiset(a[..]) == multiset(old(a[..]))
        invariant forall p, r :: 0 <= p < r <= i && p != j && r != j ==> a[p].score >= a[r].score
        invariant forall r :: j < r <= i ==> a[j].score > a[r].score
      {
        Swap(a, j - 1, j);
        j := j - 1;
      }
      i := i + 1;
    }
  }

  /** Sequences with the same multiset hold the same rows. */
  lemma SameElements(s: seq<Row>, t: seq<Row>)
    requires multiset(s) == multiset(t)
    ensures forall x :: x in s <==> x in t
  {
    forall x ensures x in s <==> x in t {
      assert x in s <==> x in multiset(s);
      assert x in t <==> x in multiset(t);
    }
  }

  /** In a sequence sorted by descending score, no row past the first `k`
      scores higher than a row among them. */
  lemma SortedPrefixIsTop(s: seq<Row>, k: nat)
    requires ScoresDescending(s) && k <= |s|
    ensures forall x, y :: x in s && x !in s[..k] && y in s[..k] ==> x.score <= y.score
  {
  }

  /** Line 140: sort by match score, highest first, and keep the first
      eight. The result is at most eight of `rows`, all of them when there are eight or fewer,
      in descending score order, and none of the rows left out scores
      higher than a row kept. */
  method RankAndTruncate(rows: seq<Row>) returns (top: seq<Row>)
    ensures |top| == Min(MaxResults, |rows|)
    ensures ScoresDescending(top)
    ensures multiset(top) <= multiset(rows)
    ensures |rows| <= MaxResults ==> multiset(top) == multiset(rows)
    ensures forall x, y :: x in rows && x !in top && y in top ==> x.score <= y.score
  {
    var a := new Row[|rows|](i requires 0 <= i < |rows| => rows[i]);
    assert a[..] == rows;
    SortByScore(a);
    ghost var sorted := a[..];
    SameElements(rows, sorted);
    var k := Min(MaxResults, a.Length);
    top := a[..k];
    SortedPrefixIsTop(sorted, k);
    assert sorted == top + sorted[k..];
    assert multiset(sorted) == multiset(top) + multiset(sorted[k..]);
  }

  /** Lines 129-138: the interest-and-level mask, then the certificate and
      payment masks, each only when its choice is not "Any"; the result is
      the staged filter. */
  method ApplyFilters(table: seq<Row>, q: Query) returns (results: seq<Row>)
    ensures results == Filtered(table, q)
  {
    results := ByInterestAndLevel(table, q.interest, AllowedLevels(q.year));
    if q.certificate.Only? {
      results := Where(results, (x: Row) => x.course.certificate == q.certificate.value);
    }
    if q.payment.Only? {
      results := Where(results, (x: Row) => x.course.paymentType == q.payment.value);
    }
  }

  /** The recommendation block: the result holds at most eight rows, exactly
      as many as pass the filters when that is eight or fewer, in descending
      score order; every row in it passes all four filters and carries the
      score of its own catalog index; and no passing row that was left out
      scores higher than one that was kept. */
  method Recommend(q: Query, scores: seq<int>) returns (top: seq<Row>)
    requires ValidScores(Courses, scores)
    ensures |top| == Min(MaxResults, |Candidates(q, scores)|)
    ensures ScoresDescending(top)
    ensures multiset(top) <= multiset(Candidates(q, scores))
    ensures forall x :: x in top ==> Attached(x, Courses, scores) && Matches(x.course, q)
    ensures forall x, y :: x in Candidates(q, scores) && x !in top && y in top ==> x.score <= y.score
    ensures |Candidates(q, scores)| <= MaxResults ==> multiset(top) == multiset(Candidates(q, scores))
  {
    // lines 120-127: the score column, computed over the whole catalog
    var table := ScoredTable(Courses, scores);
    var results := ApplyFilters(table, q);
    top := RankAndTruncate(results);
    forall x | x in top ensures x in results {
      assert x in multiset(results);
    }
  }
}
