/** Facts that follow from the constant course table for particular
    selections, whatever the scores are. */
module Scenarios {
  import opened Catalog
  import opened Scoring
  import opened Filter
  import opened Ranking

  /** A passing row at catalog index `i`, with that index's score. */
  function RowAt(i: nat, scores: seq<int>): (r: Row)
    requires ValidScores(Courses, scores) && i < |Courses|
  {
    Row(i, Courses[i], scores[i])
  }

  /** Fourth year and Cyber Security: every Cyber Security course is
      Beginner while the fourth year allows only Advanced, so nothing
      passes. */
  lemma FourthYearCyberSecurityIsEmpty(q: Query, scores: seq<int>)
    requires ValidScores(Courses, scores)
    requires q.year == FourthYear && q.interest == CyberSecurity
    ensures Candidates(q, scores) == []
  {
    CyberSecurityIsBeginnerOnly();
  }

  /** Fourth year, Machine Learning, certificate "Yes", "Paid": only the Deep
      Learning Specialization (catalog row 8) passes. */
  lemma FourthYearPaidCertifiedMachineLearning(scores: seq<int>)
    requires ValidScores(Courses, scores)
    ensures Candidates(Query(FourthYear, MachineLearning, Only(Yes), Only(Paid)), scores) == [RowAt(8, scores)]
  {
    var q := Query(FourthYear, MachineLearning, Only(Yes), Only(Paid));
    var c := Candidates(q, scores);
    AdvancedMachineLearningIsDeepLearning();
    forall x ensures x in c <==> x in [RowAt(8, scores)] {
      if x in c {
        assert Attached(x, Courses, scores) && Matches(x.course, q);
      }
    }
    OrderedUnique(c, [RowAt(8, scores)]);
  }

  /** First year, Programming, any certificate, "Free": exactly the two free
      Beginner Programming courses (catalog rows 0 and 2) pass. */
  lemma FirstYearFreeProgramming(scores: seq<int>)
    requires ValidScores(Courses, scores)
    ensures Candidates(Query(FirstYear, Programming, Any, Only(Free)), scores) == [RowAt(0, scores), RowAt(2, scores)]
  {
    var q := Query(FirstYear, Programming, Any, Only(Free));
    var c := Candidates(q, scores);
    var expected := [RowAt(0, scores), RowAt(2, scores)];
    FreeProgrammingCourses();
    forall x ensures x in c <==> x in expected {
      if x in c {
        assert Attached(x, Courses, scores) && Matches(x.course, q);
      }
    }
    OrderedUnique(c, expected);
  }

  /** The fourth-year Machine Learning request with a paid certificate
      course recommends the Deep Learning Specialization and nothing else. */
  method RecommendDeepLearning(scores: seq<int>) returns (top: seq<Row>)
    requires ValidScores(Courses, scores)
    ensures |top| == 1
    ensures top[0].course.title == "Deep Learning Specialization"
    ensures top[0].score == scores[8]
  {
    var q := Query(FourthYear, MachineLearning, Only(Yes), Only(Paid));
    top := Recommend(q, scores);
    FourthYearPaidCertifiedMachineLearning(scores);
    assert top[0] in top;
  }

  /** A first-year student asking for free Programming courses is shown
      "Python for Everybody", whatever the scores. */
  method RecommendFreeProgramming(scores: seq<int>) returns (top: seq<Row>)
    requires ValidScores(Courses, scores)
    ensures |top| == 2
    ensures exists k :: 0 <= k < |top| && top[k].course.title == "Python for Everybody"
    ensures forall k :: 0 <= k < |top| ==> top[k].course.level == Beginner
  {
    var q := Query(FirstYear, Programming, Any, Only(Free));
    top := Recommend(q, scores);
    FirstYearFreeProgramming(scores);
    assert RowAt(0, scores) in multiset(top);
    var k :| 0 <= k < |top| && top[k] == RowAt(0, scores);
    assert AllowedLevels(FirstYear) == {Beginner};
  }

  /** A fourth-year student asking for Cyber Security gets no recommendation. */
  method RecommendFourthYearCyberSecurity(q: Query, scores: seq<int>) returns (top: seq<Row>)
    requires ValidScores(Courses, scores)
    requires q.year == FourthYear && q.interest == CyberSecurity
    ensures top == []
  {
    top := Recommend(q, scores);
    FourthYearCyberSecurityIsEmpty(q, scores);
  }
}
