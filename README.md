# Course recommender: a Dafny model of the recommendation step

The application recommends courses to a student. It uses:

- a fixed table of thirteen courses;
- the student's study year, mapped to the difficulty levels that year may take;
- the student's interest area;
- whether a certificate is wanted ("Any", "Yes", "No");
- a payment preference ("Any", "Free", "Paid");
- a free-text list of skills.

When the button is pressed, the app does four things:

1. It scores every course of the table against the skills text.
2. It keeps the courses that pass four AND-ed filters:
   - the interest area matches;
   - the level is one the study year allows;
   - the certificate matches, unless the choice is "Any";
   - the payment type matches, unless the choice is "Any".
3. It sorts the kept courses by score, highest first.
4. It shows the first eight.

This project models that step and nothing of the user interface.

Modules, one per component of the step:

- `Catalog` (`catalog.dfy`): the course table, and the study-year to level dictionary. The string categories of the table become enumerations. The lemmas about the table say what the scenarios below rely on.
- `Scoring` (`scoring.dfy`): the "Match Score" column. The scores are an input, one per catalog row, each an integer in [0, 100]. A `Row` is a course together with its catalog index and its score, because the filtered table keeps the index of the full table.
- `Filter` (`filter.dfy`): the masks, written as the source applies them: one combined mask on interest and level, then a certificate mask, then a payment mask. The `Matches` predicate is the reference AND of the four conditions. Lemmas prove that the staged filter is sound and complete for `Matches`, keeps table order, and equals one single mask. They also prove it is the only table-ordered sequence with those rows.
- `Ranking` (`ranking.dfy`): the imperative part of the step. The rows are copied into an array, sorted in place by descending score with insertion sort, and cut to a prefix of at most eight. `Recommend` runs the whole step. Its contract is stated against the pure candidate set `Candidates`.
- `Scenarios` (`scenarios.dfy`): what the constant table implies for three particular selections, whatever the scores.

## Model

| member | source | states |
|---|---|---|
| `Catalog.AllowedLevels` | app.py:78-83 | the dictionary lookup for a study year always succeeds; every year allows at least one level; Advanced is allowed exactly in the fourth year |
| `Catalog.LevelPolicyTotal` | app.py:78-83 | the study-year map covers all four years: 1st to {Beginner}, 2nd to {Beginner, Intermediate}, 3rd to {Intermediate}, 4th to {Advanced} |
| `Catalog.CatalogWellFormed` | app.py:26-70 | the table has 13 rows, each with a non-empty title, description and link |
| `Catalog.CyberSecurityIsBeginnerOnly` | app.py:64-69 | every Cyber Security course is Beginner |
| `Catalog.AdvancedMachineLearningIsDeepLearning` | app.py:47-55 | the only Advanced Machine Learning course is row 8, "Deep Learning Specialization", which is paid and has a certificate |
| `Catalog.FreeProgrammingCourses` | app.py:27-35 | every Programming course is Beginner; the free ones are rows 0 ("Python for Everybody") and 2 |
| `Scoring.ScoredTable` | app.py:120-127 | the scored table has one row per catalog course, in catalog order; a row is in it exactly when it holds the course at its index and the score computed for that index |
| `Filter.Where` | app.py:129-138 | a boolean mask keeps exactly the rows its predicate accepts, never more rows than it is given, and keeps table order |
| `Filter.ByInterestAndLevel` | app.py:129-132 | keeps exactly the rows with the chosen interest and an allowed level |
| `Filter.ByCertificate` | app.py:134-135 | with "Any", removes nothing; otherwise keeps exactly the rows whose certificate equals the choice |
| `Filter.ByPayment` | app.py:137-138 | with "Any", removes nothing; otherwise keeps exactly the rows whose type equals the choice |
| `Filter.Filtered` | app.py:129-138 | the staged filter keeps a row if and only if it meets all four conditions, and keeps table order |
| `Filter.WhereThenWhere` | app.py:129-138 | one mask applied after another equals the one mask of their conjunction |
| `Filter.FilteredIsOneMask` | app.py:129-138 | the three stages, with the ones skipped for "Any", equal a single mask of the AND of the four conditions |
| `Filter.OrderedUnique` | app.py:129-138 | two table-ordered sequences with the same rows are equal, so the filter's result is the only order-preserving subsequence of the table with those rows |
| `Filter.CertificateAnyKeepsEither` | app.py:134-135 | with "Any", a row passes or fails independent of its certificate |
| `Filter.PaymentAnyKeepsEither` | app.py:137-138 | with "Any", a row passes or fails independent of its type |
| `Filter.FilterIgnoresScores` | app.py:120-132 | whether the row at an index passes does not depend on the scores |
| `Ranking.Candidates` | app.py:118-138 | the filtered, scored rows are in catalog order; a row is among them exactly when it is a catalog row with its own score and meets all four conditions |
| `Ranking.SortByScore` | app.py:140 | the sort leaves the array in descending score order and holds the same rows |
| `Ranking.SortedPrefixIsTop` | app.py:140 | in a sequence sorted by descending score, no row outside the first k scores above a row inside them |
| `Ranking.RankAndTruncate` | app.py:140 | the result has min(8, n) rows, in descending score order; the rows are taken from the input; all of them are returned when n <= 8; no omitted row outscores a kept one |
| `Ranking.ApplyFilters` | app.py:129-138 | the step-by-step reassignment of `results` yields the staged filter |
| `Ranking.Recommend` | app.py:116-140 | the result has min(8, number passing) rows, in descending score order, drawn from the passing rows; each row passes all four filters and carries the score of its own catalog index; with eight or fewer passing, all are returned; no passing row left out outscores a kept one |
| `Scenarios.FourthYearCyberSecurityIsEmpty` | app.py:64-83 | fourth year and Cyber Security: nothing passes the filters |
| `Scenarios.FourthYearPaidCertifiedMachineLearning` | app.py:47-55 | fourth year, Machine Learning, certificate "Yes", "Paid": exactly the Deep Learning Specialization passes |
| `Scenarios.FirstYearFreeProgramming` | app.py:27-35 | first year, Programming, "Any", "Free": exactly rows 0 and 2 pass, in that order |
| `Scenarios.RecommendDeepLearning` | app.py:116-140 | the fourth-year ML, certificate, paid query recommends exactly one course, the Deep Learning Specialization, with its own score |
| `Scenarios.RecommendFreeProgramming` | app.py:116-140 | the first-year free Programming query recommends two Beginner courses, one of them "Python for Everybody" |
| `Scenarios.RecommendFourthYearCyberSecurity` | app.py:116-140 | a fourth-year Cyber Security query recommends nothing, whatever the other choices |

- The code compares the Certificate column with the strings "Yes" and "No". The model uses `Certificate = Yes | No` and `Choice<Certificate>`.

## Left out

- User interface (app.py:7-23, 86-113, 143-174): page set-up, the widgets, the greeting, the progress bars and the output loop. The query arrives as a `Query` value. The name and the skills text are not part of it.
- Text similarity (app.py:120-126): TF-IDF vectorisation, cosine similarity and the lower-casing of the skills text. These are floating-point library code. The scores are an input sequence, and `ValidScores` requires one value in [0, 100] per catalog row. So the model does not show that empty skills give all-zero scores, or that a course matching the skills text scores highest.
- Conversion to integer (app.py:127): multiplying the similarity by 100 and truncating it to an integer is float arithmetic. It enters the model only as the bounded integer scores above.
- The global table's "Match Score" column (app.py:127) is overwritten in place on every click. The model builds the scored table fresh for each call instead. Line 127 rewrites every row before line 129 reads the column, so earlier values never reach a result.
- DataFrame mechanics (app.py:72-75): the table is a `seq` of records. The boolean masks are predicates.
- Order among equal scores: not stated. Line 140 sorts with pandas' default algorithm, which is not stable. `SortByScore` is a stable insertion sort, which is one refinement of that.
