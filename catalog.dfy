/** The constant course table and the study-year to level policy of the
    recommender (app.py, lines 26-83). The string-valued categories of the
    table become closed enumerations. */
module Catalog {

  datatype Interest = Programming | WebDevelopment | MachineLearning | DataScience | CyberSecurity

  datatype Level = Beginner | Intermediate | Advanced

  /** The "Type" column: "Free" or "Paid". */
  datatype PaymentType = Free | Paid

  /** The "Certificate" column: "Yes" or "No". */
  datatype Certificate = Yes | No

  datatype StudyYear = FirstYear | SecondYear | ThirdYear | FourthYear

  /** One row of the table, columns in the table's own order. */
  datatype Course = Course(
    title: string,
    description: string,
    interest: Interest,
    level: Level,
    platform: string,
    paymentType: PaymentType,
    certificate: Certificate,
    link: string)

  /** The thirteen courses, in catalog order (index 0 is the first row). */
  const Courses: seq<Course> := [
    Course("Python for Everybody", "python programming basics", Programming, Beginner,
           "Coursera", Free, Yes, "https://www.coursera.org/specializations/python"),
    Course("Complete Python Bootcamp", "python full course", Programming, Beginner,
           "Udemy", Paid, Yes, "https://www.udemy.com/course/complete-python-bootcamp/"),
    Course("Python Full Course", "python tutorial coding", Programming, Beginner,
           "YouTube", Free, No, "https://www.youtube.com/@freecodecamp"),
    Course("Web Development Full Course", "html css javascript web", WebDevelopment, Beginner,
           "YouTube", Free, No, "https://www.youtube.com/@TraversyMedia"),
    Course("React – The Complete Guide", "react javascript frontend", WebDevelopment, Intermediate,
           "Udemy", Paid, Yes, "https://www.udemy.com/course/react-the-complete-guide/"),
    Course("Full Stack Web Development", "mern stack full stack", WebDevelopment, Advanced,
           "Coursera", Paid, Yes, "https://www.coursera.org/specializations/full-stack-react"),
    Course("Machine Learning – Andrew Ng", "machine learning ai models", MachineLearning, Intermediate,
           "Coursera", Free, Yes, "https://www.coursera.org/learn/machine-learning"),
    Course("Machine Learning Full Course", "machine learning tutorial", MachineLearning, Beginner,
           "YouTube", Free, No, "https://www.youtube.com/@codebasics"),
    Course("Deep Learning Specialization", "deep learning neural networks", MachineLearning, Advanced,
           "Coursera", Paid, Yes, "https://www.coursera.org/specializations/deep-learning"),
    Course("Data Science with Python", "data analysis statistics python", DataScience, Intermediate,
           "Coursera", Paid, Yes, "https://www.coursera.org/specializations/data-science-python"),
    Course("Data Science Full Course", "data science tutorial", DataScience, Beginner,
           "YouTube", Free, No, "https://www.youtube.com/@simplilearn"),
    Course("Cyber Security Fundamentals", "network security linux", CyberSecurity, Beginner,
           "Udemy", Paid, Yes, "https://www.udemy.com/course/cyber-security-course/"),
    Course("Cyber Security Full Course", "cyber security basics", CyberSecurity, Beginner,
           "YouTube", Free, No, "https://www.youtube.com/@NetworkChuck")
  ]

  /** The study-year to level dictionary. Its values are lists in the
      source, but they are only ever used for membership, so sets. */
  const YearLevelMap: map<StudyYear, set<Level>> := map[
    FirstYear := {Beginner},
    SecondYear := {Beginner, Intermediate},
    ThirdYear := {Intermediate},
    FourthYear := {Advanced}
  ]

  /** The levels a student of year `y` is offered: the dictionary lookup,
      which never fails because the dictionary covers every year. */
  function AllowedLevels(y: StudyYear): (levels: set<Level>)
    ensures y in YearLevelMap && levels == YearLevelMap[y]
    ensures levels != {}
    ensures Advanced in levels <==> y == FourthYear
  {
    LevelPolicyTotal();
    YearLevelMap[y]
  }

  /** The level policy is total over the four study years and maps each to
      exactly the levels of the table. */
  lemma LevelPolicyTotal()
    ensures forall y: StudyYear :: y in YearLevelMap
    ensures YearLevelMap[FirstYear] == {Beginner}
    ensures YearLevelMap[SecondYear] == {Beginner, Intermediate}
    ensures YearLevelMap[ThirdYear] == {Intermediate}
    ensures YearLevelMap[FourthYear] == {Advanced}
  {
    forall y: StudyYear ensures y in YearLevelMap {
      match y
      case FirstYear =>
      case SecondYear =>
      case ThirdYear =>
      case FourthYear =>
    }
  }

  /** Every catalog row has a non-empty title, description and link. */
  lemma CatalogWellFormed()
    ensures |Courses| == 13
    ensures forall i :: 0 <= i < |Courses| ==>
      |Courses[i].title| > 0 && |Courses[i].description| > 0 && |Courses[i].link| > 0
  {
  }

  /** No Cyber Security course is above Beginner level. */
  lemma CyberSecurityIsBeginnerOnly()
    ensures forall i :: 0 <= i < |Courses| && Courses[i].interest == CyberSecurity ==>
      Courses[i].level == Beginner
  {
  }

  /** The only Advanced Machine Learning course is the Deep Learning
      Specialization, row 8, which is paid and gives a certificate. */
  lemma AdvancedMachineLearningIsDeepLearning()
    ensures forall i :: 0 <= i < |Courses| && Courses[i].interest == MachineLearning && Courses[i].level == Advanced ==>
      i == 8
    ensures Courses[8].title == "Deep Learning Specialization"
    ensures Courses[8].interest == MachineLearning && Courses[8].level == Advanced
    ensures Courses[8].paymentType == Paid && Courses[8].certificate == Yes
  {
  }

  /** Every Programming course is Beginner, and the free ones are rows 0
      ("Python for Everybody") and 2. */
  lemma FreeProgrammingCourses()
    ensures forall i :: 0 <= i < |Courses| && Courses[i].interest == Programming ==> Courses[i].level == Beginner
    ensures forall i :: 0 <= i < |Courses| && Courses[i].interest == Programming && Courses[i].paymentType == Free ==>
      i == 0 || i == 2
    ensures Courses[0].title == "Python for Everybody"
    ensures Courses[0].interest == Programming && Courses[0].paymentType == Free
    ensures Courses[2].interest == Programming && Courses[2].paymentType == Free
  {
  }
}
