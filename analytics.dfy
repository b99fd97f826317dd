/** The dashboard aggregation of AnalyticsView: from the creator's quizzes,
    each with its attempts' scores, to the summary cards (number of quizzes,
    number of attempts, mean of per-quiz mean scores) and the table of
    quizzes ordered by attempt count. Pure: the input is never modified, the
    table is built from a copy. */
module Analytics {
  import opened JsSemantics

  /** One quiz set as fetched for analytics: its questions only matter by
      their number, its attempts by their scores, in fetch order. */
  datatype QuizRecord = QuizRecord(id: string, title: string, questionCount: nat, scores: seq<int>)

  datatype Summary = Summary(totalQuizzes: nat, totalAttempts: nat, averageScore: int)

  /** A row of the "Top Performing Quizzes" table. */
  datatype TopQuiz = TopQuiz(id: string, title: string, quizLength: nat, attempts: nat, avgScore: int)

  datatype Dashboard = Dashboard(summary: Summary, topQuizzes: seq<TopQuiz>)

  function Attempts(q: QuizRecord): nat { |q.scores| }

  /** The reduce adding up a quiz's attempt scores. */
  function ScoreSum(scores: seq<int>): (r: int)
    ensures scores == [] ==> r == 0
    ensures (forall i :: 0 <= i < |scores| ==> scores[i] >= 0) ==> r >= 0
  {
    if scores == [] then 0
    else
      assert forall i :: 0 <= i < |scores| - 1 ==> scores[1..][i] == scores[i + 1];
      scores[0] + ScoreSum(scores[1..])
  }

  /** The reduce adding up quiz_attempts.length. */
  function TotalAttempts(qs: seq<QuizRecord>): (r: nat)
    ensures r >= |WithAttempts(qs)|
    ensures r == 0 <==> WithAttempts(qs) == []
  {
    if qs == [] then 0 else Attempts(qs[0]) + TotalAttempts(qs[1..])
  }

  /** The quizzes that have at least one attempt, in input order. */
  function WithAttempts(qs: seq<QuizRecord>): (r: seq<QuizRecord>)
    ensures |r| <= |qs|
    ensures forall q :: q in r <==> q in qs && Attempts(q) > 0
    // each quiz with attempts is kept as often as it occurs, the others never
    ensures forall q :: multiset(r)[q] == (if Attempts(q) > 0 then multiset(qs)[q] else 0)
  {
    if qs == [] then []
    else
      assert qs == [qs[0]] + qs[1..];
      if Attempts(qs[0]) > 0 then [qs[0]] + WithAttempts(qs[1..])
      else WithAttempts(qs[1..])
  }

  /** The filter keeps the input order: it distributes over concatenation. */
  lemma {:induction false} WithAttemptsConcat(a: seq<QuizRecord>, b: seq<QuizRecord>)
    ensures WithAttempts(a + b) == WithAttempts(a) + WithAttempts(b)
  {
    if a == [] {
      assert a + b == b;
    } else {
      assert (a + b)[0] == a[0] && (a + b)[1..] == a[1..] + b;
      WithAttemptsConcat(a[1..], b);
    }
  }

  /** Exact quotient quizTotalScore / quiz_attempts.length. */
  function MeanScore(q: QuizRecord): (r: real)
    requires Attempts(q) > 0
    ensures r * Attempts(q) as real == ScoreSum(q.scores) as real
    ensures ScoreSum(q.scores) >= 0 ==> r >= 0.0
  {
    ScoreSum(q.scores) as real / Attempts(q) as real
  }

  /** The reduce that adds up the per-quiz means. */
  function SumOfMeans(qs: seq<QuizRecord>): (r: real)
    requires forall q :: q in qs ==> Attempts(q) > 0
    ensures qs == [] ==> r == 0.0
    ensures (forall q :: q in qs ==> ScoreSum(q.scores) >= 0) ==> r >= 0.0
  {
    if qs == [] then 0.0 else MeanScore(qs[0]) + SumOfMeans(qs[1..])
  }

  /** The averageScore card: Math.round of the mean of the per-quiz means
      over the quizzes with attempts, or 0 when there are none. */
  function AverageScore(qs: seq<QuizRecord>): (r: int)
    ensures WithAttempts(qs) == [] ==> r == 0
    ensures WithAttempts(qs) != [] ==>
              var mean := SumOfMeans(WithAttempts(qs)) / |WithAttempts(qs)| as real;
              r as real - 0.5 <= mean < r as real + 0.5
  {
    var scored := WithAttempts(qs);
    if |scored| > 0 then RoundHalfUp(SumOfMeans(scored) / |scored| as real) else 0
  }

  /** The avgScore column: Math.round of the quiz's mean score, or 0. */
  function QuizAvgScore(q: QuizRecord): (r: int)
    ensures Attempts(q) == 0 ==> r == 0
    ensures Attempts(q) > 0 ==> r == (2 * ScoreSum(q.scores) + Attempts(q)) / (2 * Attempts(q))
  {
    if Attempts(q) > 0 then
      RoundOfRatio(ScoreSum(q.scores), Attempts(q));
      RoundHalfUp(MeanScore(q))
    else 0
  }

  function ToTopQuiz(q: QuizRecord): (t: TopQuiz)
    ensures t.id == q.id && t.title == q.title
    ensures t.quizLength == q.questionCount && t.attempts == Attempts(q)
    ensures Attempts(q) == 0 ==> t.avgScore == 0
    ensures Attempts(q) > 0 ==> t.avgScore == (2 * ScoreSum(q.scores) + Attempts(q)) / (2 * Attempts(q))
  {
    TopQuiz(q.id, q.title, q.questionCount, Attempts(q), QuizAvgScore(q))
  }

  function ToTopQuizzes(qs: seq<QuizRecord>): (r: seq<TopQuiz>)
    ensures |r| == |qs|
    ensures forall i :: 0 <= i < |qs| ==> r[i] == ToTopQuiz(qs[i])
  {
    if qs == [] then [] else [ToTopQuiz(qs[0])] + ToTopQuizzes(qs[1..])
  }

  // ---------------------------------------------------------------------
  // The sort: [...analyticsData].sort((a, b) => b.attempts - a.attempts).
  // Array.prototype.sort is stable, so it is modelled by a stable
  // insertion sort into non-increasing attempt order.

  predicate NonIncreasing(s: seq<QuizRecord>) {
    forall i, j :: 0 <= i < j < |s| ==> Attempts(s[i]) >= Attempts(s[j])
  }

  /** The entries of s with exactly k attempts, in the order of s. */
  function WithAttemptCount(s: seq<QuizRecord>, k: nat): seq<QuizRecord> {
    if s == [] then []
    else if Attempts(s[0]) == k then [s[0]] + WithAttemptCount(s[1..], k)
    else WithAttemptCount(s[1..], k)
  }

  /** Places x before the first entry with no more attempts than x. */
  function Insert(x: QuizRecord, s: seq<QuizRecord>): (r: seq<QuizRecord>)
    ensures |r| == |s| + 1
    ensures r[0] == x || (s != [] && r[0] == s[0])
  {
    if s == [] || Attempts(s[0]) <= Attempts(x) then [x] + s
    else [s[0]] + Insert(x, s[1..])
  }

  lemma {:induction false} InsertSorted(x: QuizRecord, s: seq<QuizRecord>)
    requires NonIncreasing(s)
    ensures NonIncreasing(Insert(x, s))
  {
    if s != [] && Attempts(s[0]) > Attempts(x) {
      InsertSorted(x, s[1..]);
      var rest := Insert(x, s[1..]);
      assert Attempts(rest[0]) <= Attempts(s[0]);
      assert Insert(x, s) == [s[0]] + rest;
    }
  }

  lemma {:induction false} InsertMultiset(x: QuizRecord, s: seq<QuizRecord>)
    ensures multiset(Insert(x, s)) == multiset(s) + multiset{x}
  {
    if s != [] && Attempts(s[0]) > Attempts(x) {
      InsertMultiset(x, s[1..]);
      assert s == [s[0]] + s[1..];
    }
  }

  function SortByAttempts(s: seq<QuizRecord>): (r: seq<QuizRecord>)
    ensures NonIncreasing(r)
    ensures multiset(r) == multiset(s)
    ensures |r| == |s|
  {
    if s == [] then []
    else
      var rest := SortByAttempts(s[1..]);
      InsertSorted(s[0], rest);
      InsertMultiset(s[0], rest);
      assert s == [s[0]] + s[1..];
      Insert(s[0], rest)
  }

  lemma {:induction false} InsertWithAttemptCount(x: QuizRecord, s: seq<QuizRecord>, k: nat)
    ensures WithAttemptCount(Insert(x, s), k)
         == (if Attempts(x) == k then [x] + WithAttemptCount(s, k) else WithAttemptCount(s, k))
  {
    if s == [] || Attempts(s[0]) <= Attempts(x) {
      assert ([x] + s)[1..] == s;
    } else {
      var rest := Insert(x, s[1..]);
      assert ([s[0]] + rest)[1..] == rest;
      InsertWithAttemptCount(x, s[1..], k);
    }
  }

  /** Stability: for every attempt count, the entries with that count appear
      in the sorted copy in exactly their input order. */
  lemma {:induction false} SortIsStable(s: seq<QuizRecord>, k: nat)
    ensures WithAttemptCount(SortByAttempts(s), k) == WithAttemptCount(s, k)
  {
    if s != [] {
      SortIsStable(s[1..], k);
      InsertWithAttemptCount(s[0], SortByAttempts(s[1..]), k);
    }
  }

  // ---------------------------------------------------------------------
  // The useMemo body.

  /** analyticsData is null until the fetch succeeds (None here). */
  function Compute(data: Option<seq<QuizRecord>>): (d: Dashboard)
    ensures data.None? ==> d == Dashboard(Summary(0, 0, 0), [])
    ensures data.Some? ==> d.summary.totalQuizzes == |data.value| && |d.topQuizzes| == |data.value|
    ensures data.Some? && WithAttempts(data.value) == [] ==> d.summary.averageScore == 0
    // the average card is Math.round of the mean of the per-quiz means
    ensures data.Some? && WithAttempts(data.value) != [] ==>
              var mean := SumOfMeans(WithAttempts(data.value)) / |WithAttempts(data.value)| as real;
              d.summary.averageScore as real - 0.5 <= mean < d.summary.averageScore as real + 0.5
  {
    match data
    case None => Dashboard(Summary(0, 0, 0), [])
    case Some(qs) =>
      Dashboard(Summary(|qs|, TotalAttempts(qs), AverageScore(qs)),
                ToTopQuizzes(SortByAttempts(qs)))
  }

  /** The table lists the input's quizzes, most attempted first, each line
      carrying that quiz's attempt count, length and rounded mean. */
  lemma TopQuizzesOrdered(qs: seq<QuizRecord>)
    ensures var top := Compute(Some(qs)).topQuizzes;
      forall i, j :: 0 <= i < j < |top| ==> top[i].attempts >= top[j].attempts
  {
  }

  lemma {:induction false} InsertRows(x: QuizRecord, s: seq<QuizRecord>)
    ensures multiset(ToTopQuizzes(Insert(x, s))) == multiset(ToTopQuizzes(s)) + multiset{ToTopQuiz(x)}
  {
    if s == [] || Attempts(s[0]) <= Attempts(x) {
      assert ToTopQuizzes([x] + s) == [ToTopQuiz(x)] + ToTopQuizzes(s);
    } else {
      var rest := Insert(x, s[1..]);
      InsertRows(x, s[1..]);
      assert ToTopQuizzes([s[0]] + rest) == [ToTopQuiz(s[0])] + ToTopQuizzes(rest);
      assert ToTopQuizzes(s) == [ToTopQuiz(s[0])] + ToTopQuizzes(s[1..]);
    }
  }

  lemma {:induction false} SortRows(s: seq<QuizRecord>)
    ensures multiset(ToTopQuizzes(SortByAttempts(s))) == multiset(ToTopQuizzes(s))
  {
    if s != [] {
      SortRows(s[1..]);
      InsertRows(s[0], SortByAttempts(s[1..]));
      assert ToTopQuizzes(s) == [ToTopQuiz(s[0])] + ToTopQuizzes(s[1..]);
    }
  }

  /** The table is a permutation of the input's rows. */
  lemma TopQuizzesPermutation(qs: seq<QuizRecord>)
    ensures multiset(Compute(Some(qs)).topQuizzes) == multiset(ToTopQuizzes(qs))
  {
    SortRows(qs);
  }

  /** The table's rows with k attempts, in table order. */
  function RowsWithAttempts(rows: seq<TopQuiz>, k: nat): seq<TopQuiz> {
    if rows == [] then []
    else if rows[0].attempts == k then [rows[0]] + RowsWithAttempts(rows[1..], k)
    else RowsWithAttempts(rows[1..], k)
  }

  lemma {:induction false} RowsOfCount(s: seq<QuizRecord>, k: nat)
    ensures RowsWithAttempts(ToTopQuizzes(s), k) == ToTopQuizzes(WithAttemptCount(s, k))
  {
    if s != [] {
      assert ToTopQuizzes(s)[1..] == ToTopQuizzes(s[1..]);
      RowsOfCount(s[1..], k);
    }
  }

  /** Ties keep input order: the table's rows with k attempts are the rows of
      the input's quizzes with k attempts, in input order. */
  lemma TopQuizzesTiesInInputOrder(qs: seq<QuizRecord>, k: nat)
    ensures RowsWithAttempts(Compute(Some(qs)).topQuizzes, k) == ToTopQuizzes(WithAttemptCount(qs, k))
  {
    RowsOfCount(SortByAttempts(qs), k);
    SortIsStable(qs, k);
  }

  // ---------------------------------------------------------------------
  // Cross-checks between the summary and the table.

  function AttemptColumn(top: seq<TopQuiz>): nat {
    if top == [] then 0 else top[0].attempts + AttemptColumn(top[1..])
  }

  lemma {:induction false} TotalAttemptsOfInsert(x: QuizRecord, s: seq<QuizRecord>)
    ensures TotalAttempts(Insert(x, s)) == Attempts(x) + TotalAttempts(s)
  {
    if s == [] || Attempts(s[0]) <= Attempts(x) {
      assert ([x] + s)[1..] == s;
    } else {
      var rest := Insert(x, s[1..]);
      assert ([s[0]] + rest)[1..] == rest;
      TotalAttemptsOfInsert(x, s[1..]);
    }
  }

  lemma {:induction false} TotalAttemptsOfSort(s: seq<QuizRecord>)
    ensures TotalAttempts(SortByAttempts(s)) == TotalAttempts(s)
  {
    if s != [] {
      TotalAttemptsOfSort(s[1..]);
      TotalAttemptsOfInsert(s[0], SortByAttempts(s[1..]));
    }
  }

  lemma {:induction false} AttemptColumnOfRows(s: seq<QuizRecord>)
    ensures AttemptColumn(ToTopQuizzes(s)) == TotalAttempts(s)
  {
    if s != [] {
      assert ToTopQuizzes(s)[1..] == ToTopQuizzes(s[1..]);
      AttemptColumnOfRows(s[1..]);
    }
  }

  /** The "Total Attempts" card equals the sum of the table's Attempts column. */
  lemma TotalAttemptsMatchesTable(qs: seq<QuizRecord>)
    ensures AttemptColumn(Compute(Some(qs)).topQuizzes) == Compute(Some(qs)).summary.totalAttempts
  {
    AttemptColumnOfRows(SortByAttempts(qs));
    TotalAttemptsOfSort(qs);
  }

  // ---------------------------------------------------------------------
  // Bounds: with every score in [lo, hi], every mean and the average are too.

  predicate ScoresWithin(qs: seq<QuizRecord>, lo: int, hi: int) {
    forall q, s :: q in qs && s in q.scores ==> lo <= s <= hi
  }

  /** n copies of x added up: n * x without a product, so that the sum's
      bounds can be carried through the induction linearly. */
  function Scale(n: nat, x: real): real {
    if n == 0 then 0.0 else x + Scale(n - 1, x)
  }

  lemma {:induction false} ScaleIsProduct(n: nat, x: real)
    ensures Scale(n, x) == (n as real) * x
  {
    if n > 0 {
      ScaleIsProduct(n - 1, x);
      assert (n as real) * x == ((n - 1) as real) * x + x;
    }
  }

  lemma {:induction false} ScoreSumWithin(scores: seq<int>, lo: int, hi: int)
    requires forall s :: s in scores ==> lo <= s <= hi
    ensures Scale(|scores|, lo as real) <= ScoreSum(scores) as real <= Scale(|scores|, hi as real)
  {
    if scores != [] {
      assert scores[0] in scores && forall s :: s in scores[1..] ==> s in scores;
      ScoreSumWithin(scores[1..], lo, hi);
    }
  }

  lemma MeanWithin(q: QuizRecord, lo: int, hi: int)
    requires Attempts(q) > 0
    requires forall s :: s in q.scores ==> lo <= s <= hi
    ensures lo as real <= MeanScore(q) <= hi as real
  {
    ScoreSumWithin(q.scores, lo, hi);
    ScaleIsProduct(Attempts(q), lo as real);
    ScaleIsProduct(Attempts(q), hi as real);
    QuotientWithin(ScoreSum(q.scores) as real, Attempts(q) as real, lo as real, hi as real);
  }

  lemma ScoresWithinSplit(qs: seq<QuizRecord>, lo: int, hi: int)
    requires qs != [] && ScoresWithin(qs, lo, hi)
    ensures forall s :: s in qs[0].scores ==> lo <= s <= hi
    ensures ScoresWithin(qs[1..], lo, hi)
  {
    assert qs[0] in qs;
    assert forall q :: q in qs[1..] ==> q in qs;
  }

  lemma {:induction false} SumOfMeansWithin(qs: seq<QuizRecord>, lo: int, hi: int)
    requires forall q :: q in qs ==> Attempts(q) > 0
    requires ScoresWithin(qs, lo, hi)
    ensures Scale(|qs|, lo as real) <= SumOfMeans(qs) <= Scale(|qs|, hi as real)
  {
    if qs != [] {
      assert qs[0] in qs && forall q :: q in qs[1..] ==> q in qs;
      ScoresWithinSplit(qs, lo, hi);
      MeanWithin(qs[0], lo, hi);
      SumOfMeansWithin(qs[1..], lo, hi);
    }
  }

  lemma QuotientWithin(total: real, k: real, lo: real, hi: real)
    requires k > 0.0 && k * lo <= total <= k * hi
    ensures lo <= total / k <= hi
  {
    var avg := total / k;
    assert avg * k == total;
    CancelFactor(lo, avg, k);
    CancelFactor(avg, hi, k);
  }

  /** Rounding the quotient of a total within k-fold integer bounds stays within them. */
  lemma RoundedQuotientWithin(total: real, k: nat, lo: int, hi: int)
    requires k > 0 && Scale(k, lo as real) <= total <= Scale(k, hi as real)
    ensures lo <= RoundHalfUp(total / k as real) <= hi
  {
    ScaleIsProduct(k, lo as real);
    ScaleIsProduct(k, hi as real);
    QuotientWithin(total, k as real, lo as real, hi as real);
  }

  lemma ScoresWithinScored(qs: seq<QuizRecord>, lo: int, hi: int)
    requires ScoresWithin(qs, lo, hi)
    ensures ScoresWithin(WithAttempts(qs), lo, hi)
    ensures forall q :: q in WithAttempts(qs) ==> Attempts(q) > 0
  {
  }

  /** The "Average Score" card stays within the range of the scores. */
  lemma AverageScoreWithin(qs: seq<QuizRecord>, lo: int, hi: int)
    requires ScoresWithin(qs, lo, hi)
    ensures WithAttempts(qs) != [] ==> lo <= AverageScore(qs) <= hi
    ensures WithAttempts(qs) != [] ==> lo <= Compute(Some(qs)).summary.averageScore <= hi
  {
    var scored := WithAttempts(qs);
    if scored != [] {
      ScoresWithinScored(qs, lo, hi);
      SumOfMeansWithin(scored, lo, hi);
      RoundedQuotientWithin(SumOfMeans(scored), |scored|, lo, hi);
    }
  }
}
