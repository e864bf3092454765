/** The filtering stages of the recommendation block (app.py, lines
    129-138): a mask on interest and level, then a certificate mask and a
    payment mask, each applied only when the user did not choose "Any". */
module Filter {
  import opened Catalog
  import opened Scoring

  /** A drop-down choice that is either "Any" or one value of the column. */
  datatype Choice<T> = Any | Only(value: T)

  /** The user's selections that reach the recommendation step. The skills
      text goes only into the scores, which are an input here. */
  datatype Query = Query(
    year: StudyYear,
    interest: Interest,
    certificate: Choice<Certificate>,
    payment: Choice<PaymentType>)

  /** A choice admits a value when it is "Any" or equals it. */
  predicate Admits<T(==)>(c: Choice<T>, v: T) {
    c.Any? || c.value == v
  }

  /** The four predicates the block combines with AND. */
  predicate Matches(c: Course, q: Query) {
    && c.interest == q.interest
    && c.level in AllowedLevels(q.year)
    && Admits(q.certificate, c.certificate)
    && Admits(q.payment, c.paymentType)
  }

  /** A boolean mask: the rows that `keep` accepts, in their order. */
  function Where(rows: seq<Row>, keep: Row -> bool): (kept: seq<Row>)
    ensures |kept| <= |rows|
    ensures forall x :: x in kept <==> x in rows && keep(x)
    ensures IndexOrdered(rows) ==> IndexOrdered(kept)
  {
    if rows == [] then []
    else
      var rest := Where(rows[1..], keep);
      assert forall x :: x in rows[1..] ==> x in rows;
      assert IndexOrdered(rows) ==>
        IndexOrdered(rows[1..]) && forall y :: y in rest ==> rows[0].index < y.index;
      if keep(rows[0]) then [rows[0]] + rest else rest
  }

  /** Lines 129-132: interest equals the chosen one and level is allowed. */
  function ByInterestAndLevel(rows: seq<Row>, interest: Interest, levels: set<Level>): (kept: seq<Row>)
    ensures forall x :: x in kept <==> x in rows && x.course.interest == interest && x.course.level in levels
  {
    Where(rows, (x: Row) => x.course.interest == interest && x.course.level in levels)
  }

  /** Lines 134-135: the certificate mask, skipped for "Any". */
  function ByCertificate(rows: seq<Row>, c: Choice<Certificate>): (kept: seq<Row>)
    ensures c.Any? ==> kept == rows
    ensures forall x :: x in kept <==> x in rows && Admits(c, x.course.certificate)
  {
    if c.Any? then rows else Where(rows, (x: Row) => x.course.certificate == c.value)
  }

  /** Lines 137-138: the payment mask, skipped for "Any". */
  function ByPayment(rows: seq<Row>, p: Choice<PaymentType>): (kept: seq<Row>)
    ensures p.Any? ==> kept == rows
    ensures forall x :: x in kept <==> x in rows && Admits(p, x.course.paymentType)
  {
    if p.Any? then rows else Where(rows, (x: Row) => x.course.paymentType == p.value)
  }

  /** The three stages in the source's order: sound and complete for the
      AND of the four predicates, and the kept rows stay in table order. */
  function Filtered(rows: seq<Row>, q: Query): (kept: seq<Row>)
    ensures |kept| <= |rows|
    ensures forall x :: x in kept <==> x in rows && Matches(x.course, q)
    ensures IndexOrdered(rows) ==> IndexOrdered(kept)
  {
    var s1 := ByInterestAndLevel(rows, q.interest, AllowedLevels(q.year));
    var s2 := ByCertificate(s1, q.certificate);
    ByPayment(s2, q.payment)
  }

  /** A mask distributes over concatenation. */
  lemma {:induction false} WhereAppend(a: seq<Row>, b: seq<Row>, keep: Row -> bool)
    ensures Where(a + b, keep) == Where(a, keep) + Where(b, keep)
  {
    if a == [] {
      assert a + b == b;
    } else {
      var ab := a + b;
      assert ab[0] == a[0] && ab[1..] == a[1..] + b;
      WhereAppend(a[1..], b, keep);
    }
  }

  /** Masks that accept the same rows select the same rows. */
  lemma {:induction false} WhereSame(rows: seq<Row>, p: Row -> bool, p': Row -> bool)
    requires forall x :: x in rows ==> p(x) == p'(x)
    ensures Where(rows, p) == Where(rows, p')
  {
    if rows != [] {
      assert forall x :: x in rows[1..] ==> x in rows;
      WhereSame(rows[1..], p, p');
    }
  }

  /** Applying one mask after another is the mask of their conjunction. */
  lemma {:induction false} WhereThenWhere(rows: seq<Row>, p: Row -> bool, q: Row -> bool, pq: Row -> bool)
    requires forall x :: x in rows ==> pq(x) == (p(x) && q(x))
    ensures Where(Where(rows, p), q) == Where(rows, pq)
  {
    if rows != [] {
      assert forall x :: x in rows[1..] ==> x in rows;
      WhereThenWhere(rows[1..], p, q, pq);
      var head := if p(rows[0]) then [rows[0]] else [];
      assert Where(rows, p) == head + Where(rows[1..], p);
      WhereAppend(head, Where(rows[1..], p), q);
      if p(rows[0]) {
        assert head == [rows[0]] + [];
        WhereAppend([rows[0]], [], q);
      }
    }
  }

  /** The staged filter is the single mask of the four predicates' AND:
      every stage that runs only removes rows, and a stage skipped for
      "Any" removes none. */
  lemma FilteredIsOneMask(rows: seq<Row>, q: Query)
    ensures Filtered(rows, q) == Where(rows, (x: Row) => Matches(x.course, q))
  {
    var levels := AllowedLevels(q.year);
    var il: Row -> bool := (x: Row) => x.course.interest == q.interest && x.course.level in levels;
    var cert: Row -> bool := (x: Row) => Admits(q.certificate, x.course.certificate);
    var pay: Row -> bool := (x: Row) => Admits(q.payment, x.course.paymentType);
    var ilc: Row -> bool := (x: Row) => il(x) && cert(x);
    var all: Row -> bool := (x: Row) => Matches(x.course, q);
    var s1 := Where(rows, il);
    var s2 := ByCertificate(s1, q.certificate);
    assert s1 == ByInterestAndLevel(rows, q.interest, levels);
    // the certificate stage
    if q.certificate.Any? {
      WhereSame(rows, il, ilc);
    } else {
      WhereSame(s1, (x: Row) => x.course.certificate == q.certificate.value, cert);
      WhereThenWhere(rows, il, cert, ilc);
    }
    assert s2 == Where(rows, ilc);
    // the payment stage
    if q.payment.Any? {
      WhereSame(rows, ilc, all);
    } else {
      WhereSame(s2, (x: Row) => x.course.paymentType == q.payment.value, pay);
      WhereThenWhere(rows, ilc, pay, all);
    }
  }

  /** Two table-ordered sequences with the same rows are equal: a sound and
      complete filter of a table-ordered input has exactly one result. */
  lemma {:induction false} OrderedUnique(a: seq<Row>, b: seq<Row>)
    requires IndexOrdered(a) && IndexOrdered(b)
    requires forall x :: x in a <==> x in b
    ensures a == b
  {
    assert a != [] ==> a[0] in b;
    assert b != [] ==> b[0] in a;
    if a != [] && b != [] {
      var i :| 0 <= i < |b| && b[i] == a[0];
      var j :| 0 <= j < |a| && a[j] == b[0];
      assert i == 0 && j == 0;
      forall x ensures x in a[1..] <==> x in b[1..] {
        if x in a[1..] {
          var k :| 1 <= k < |a| && a[k] == x;
          assert x in b && x != b[0];
        }
        if x in b[1..] {
          var k :| 1 <= k < |b| && b[k] == x;
          assert x in a && x != a[0];
        }
      }
      OrderedUnique(a[1..], b[1..]);
    }
  }

  /** With "Any", the certificate column decides nothing: two rows that
      differ only in it are kept or dropped together. */
  lemma CertificateAnyKeepsEither(q: Query, c: Course, cert: Certificate)
    requires q.certificate.Any?
    ensures Matches(c, q) <==> Matches(c.(certificate := cert), q)
  {
  }

  /** With "Any", the payment column decides nothing. */
  lemma PaymentAnyKeepsEither(q: Query, c: Course, p: PaymentType)
    requires q.payment.Any?
    ensures Matches(c, q) <==> Matches(c.(paymentType := p), q)
  {
  }

  /** Which rows pass depends on the catalog and the query only: the scores
      carried by the rows play no part, so filtering never changes a score
      and a score never changes the filter. */
  lemma FilterIgnoresScores(catalog: seq<Course>, s: seq<int>, s': seq<int>, q: Query, i: nat)
    requires |s| == |catalog| && |s'| == |catalog|
    requires i < |catalog|
    ensures Row(i, catalog[i], s[i]) in Filtered(ScoredTable(catalog, s), q) <==>
            Row(i, catalog[i], s'[i]) in Filtered(ScoredTable(catalog, s'), q)
  {
  }
}
