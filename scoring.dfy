/** The match-score column (app.py, lines 120-127). The text-similarity
    computation that produces the scores is not modelled: the scores are an
    input, one per catalog row, in catalog order. */
module Scoring {
  import opened Catalog

  /** Scores are integer percentages. */
  const MaxScore: int := 100

  /** One score per catalog row, each a percentage. */
  predicate ValidScores(catalog: seq<Course>, scores: seq<int>) {
    |scores| == |catalog| && forall i :: 0 <= i < |scores| ==> 0 <= scores[i] <= MaxScore
  }

  /** A row of the table once the "Match Score" column is written: the row's
      catalog index (the table's index, which filtering keeps), the course
      and its score. */
  datatype Row = Row(index: nat, course: Course, score: int)

  /** `x` is a row of the scored table: the course at its catalog index,
      carrying the score computed for that index. */
  predicate Attached(x: Row, catalog: seq<Course>, scores: seq<int>) {
    x.index < |catalog| && x.index < |scores| &&
    x.course == catalog[x.index] && x.score == scores[x.index]
  }

  /** Rows appear in strictly increasing catalog index, that is, in catalog
      order and each row at most once. */
  predicate IndexOrdered(rows: seq<Row>) {
    forall i, j :: 0 <= i < j < |rows| ==> rows[i].index < rows[j].index
  }

  /** The table after the score column is written: every catalog row, in
      catalog order, with the score computed for it over the whole catalog. */
  function ScoredTable(catalog: seq<Course>, scores: seq<int>): (table: seq<Row>)
    requires |scores| == |catalog|
    ensures |table| == |catalog|
    ensures IndexOrdered(table)
    ensures forall x :: x in table <==> Attached(x, catalog, scores)
    ensures forall i :: 0 <= i < |table| ==> table[i].index == i
  {
    var table := seq(|catalog|, i requires 0 <= i < |catalog| => Row(i, catalog[i], scores[i]));
    assert forall x :: Attached(x, catalog, scores) ==> table[x.index] == x;
    table
  }
}
