/** The teacher dashboard: the search box over the teacher's quizzes, the
    statistics computed from `/api/quizzes` and `/api/teacher/results`, and the
    local removal of a deleted quiz. Both fetches are inputs. */
module TeacherDashboard {
  import opened Basics
  import opened Seqs
  import opened Text
  import opened Rounding
  import opened Quizzes

  /** One row of `/api/teacher/results`: `score` and `total_questions`, either
      of which may be null. */
  datatype ResultRow = ResultRow(score: Option<int>, totalQuestions: Option<int>)

  /** How a `fetch` ends: an ok response with its parsed body, a response that
      is not ok, or a rejection (of `fetch` itself or of `json()`). */
  datatype Fetched<+T> = Ok(rows: seq<T>) | NotOk | Rejected {
    /** `response.ok ? await response.json() : []`. */
    function RowsOrEmpty(): seq<T> {
      if Ok? then rows else []
    }
  }

  datatype TeacherStats = TeacherStats(
    totalQuizzes: nat,
    totalQuestions: nat,
    totalAttempts: nat,
    averageScore: int)

  /** The lowercased term occurs in the lowercased title, subject or grade. */
  predicate SearchHit(term: string, q: Quiz) {
    var needle := Lower(term);
    Contains(Lower(q.title), needle) || Contains(Lower(q.subject), needle) || Contains(Lower(q.grade), needle)
  }

  /** The search effect's list. */
  function SearchFilter(quizzes: seq<Quiz>, term: string): (r: seq<Quiz>)
    ensures IsSubsequence(r, quizzes)
    ensures forall q :: q in r <==> q in quizzes && SearchHit(term, q)
  {
    FilterIsSubsequence(quizzes, (q: Quiz) => SearchHit(term, q));
    Filter(quizzes, (q: Quiz) => SearchHit(term, q))
  }

  /** An empty search box shows every quiz. */
  lemma {:induction false} EmptySearchShowsEverything(quizzes: seq<Quiz>)
    ensures SearchFilter(quizzes, "") == quizzes
  {
    forall i | 0 <= i < |quizzes| ensures SearchHit("", quizzes[i]) {
      assert Lower("") == "";
      ContainsEmpty(Lower(quizzes[i].title));
    }
    FilterKeepsAll(quizzes, (q: Quiz) => SearchHit("", q));
  }

  /** `a.score != null && a.total_questions ? a.score / a.total_questions : 0`:
      a row without a score, or with a missing or zero total, counts as 0. */
  function Ratio(row: ResultRow): real {
    if row.score.Some? && row.totalQuestions.Some? && row.totalQuestions.value != 0
    then row.score.value as real / row.totalQuestions.value as real
    else 0.0
  }

  function SumOfRatios(rows: seq<ResultRow>): real {
    if rows == [] then 0.0 else Ratio(rows[0]) + SumOfRatios(rows[1..])
  }

  /** The statistics of `fetchData`; the average is the rounded mean of the
      per-attempt ratios, every row counting in the denominator. */
  function ComputeStats(quizzes: seq<Quiz>, results: seq<ResultRow>): (r: TeacherStats)
    ensures r.totalQuizzes == |quizzes| && r.totalAttempts == |results|
    ensures r.totalQuestions == TotalQuestions(quizzes)
    ensures r.totalAttempts == 0 ==> r.averageScore == 0
    ensures r.totalAttempts > 0 ==>
              r.averageScore as real - 0.5 <= SumOfRatios(results) / |results| as real * 100.0 < r.averageScore as real + 0.5
  {
    var totalAttempts := |results|;
    TeacherStats(
      |quizzes|,
      TotalQuestions(quizzes),
      totalAttempts,
      if totalAttempts > 0 then RoundedPercent(SumOfRatios(results), totalAttempts as real) else 0)
  }

  /** A row whose score lies between 0 and its positive total, or that counts as 0. */
  predicate WellFormed(row: ResultRow) {
    0.0 <= Ratio(row) <= 1.0
  }

  lemma {:induction false} SumOfRatiosBounded(rows: seq<ResultRow>)
    requires forall i :: 0 <= i < |rows| ==> WellFormed(rows[i])
    ensures 0.0 <= SumOfRatios(rows) <= |rows| as real
  {
    if rows != [] {
      SumOfRatiosBounded(rows[1..]);
    }
  }

  /** A row with `0 <= score <= total_questions` and a positive total is well formed. */
  lemma ScoredRowWellFormed(score: int, total: int)
    requires 0 <= score <= total && total > 0
    ensures WellFormed(ResultRow(Some(score), Some(total)))
  {
    var q := score as real / total as real;
    assert q * total as real == score as real;
  }

  /** The average score is a percentage between 0 and 100 when every row's
      ratio is. */
  lemma AverageScoreInRange(quizzes: seq<Quiz>, results: seq<ResultRow>)
    requires forall i :: 0 <= i < |results| ==> WellFormed(results[i])
    ensures 0 <= ComputeStats(quizzes, results).averageScore <= 100
  {
    SumOfRatiosBounded(results);
    if |results| > 0 {
      PercentInRange(SumOfRatios(results), |results| as real);
    }
  }

  /** `current.filter(q => q.id !== quizId)`. */
  function RemoveQuiz(quizzes: seq<Quiz>, id: string): (r: seq<Quiz>)
    ensures IsSubsequence(r, quizzes)
    ensures forall i :: 0 <= i < |r| ==> r[i].id != id
    ensures forall q :: q in quizzes && q.id != id ==> q in r
  {
    FilterIsSubsequence(quizzes, (q: Quiz) => q.id != id);
    var r := Filter(quizzes, (q: Quiz) => q.id != id);
    assert forall i :: 0 <= i < |r| ==> r[i] in r;
    r
  }

  /** Deleting an id no quiz has leaves the list as it was. */
  lemma RemoveAbsentQuiz(quizzes: seq<Quiz>, id: string)
    requires forall i :: 0 <= i < |quizzes| ==> quizzes[i].id != id
    ensures RemoveQuiz(quizzes, id) == quizzes
  {
    FilterKeepsAll(quizzes, (q: Quiz) => q.id != id);
  }

  /** The component's state. */
  class Dashboard {
    var quizzes: seq<Quiz>
    var searchTerm: string
    var filteredQuizzes: seq<Quiz>
    var stats: TeacherStats
    var loading: bool

    /** The search effect has run for the current list and term. */
    ghost predicate Valid()
      reads this
    {
      filteredQuizzes == SearchFilter(quizzes, searchTerm)
    }

    constructor()
      ensures Valid() && quizzes == [] && searchTerm == "" && loading
      ensures stats == TeacherStats(0, 0, 0, 0)
    {
      quizzes := [];
      searchTerm := "";
      filteredQuizzes := [];
      stats := TeacherStats(0, 0, 0, 0);
      loading := true;
    }

    /** The search effect, re-run when the term or the list changes. */
    method Refilter()
      modifies this`filteredQuizzes
      ensures Valid()
    {
      filteredQuizzes := SearchFilter(quizzes, searchTerm);
    }

    /** `fetchData`: a response that is not ok reads as an empty list; a
        rejection jumps to `catch`, so what it would have set keeps its old
        value. A rejected quiz fetch means the results are never fetched. */
    method FetchData(quizzesResponse: Fetched<Quiz>, resultsResponse: Fetched<ResultRow>)
      modifies this
      ensures Valid() && !loading && searchTerm == old(searchTerm)
      ensures quizzesResponse.Rejected? ==> quizzes == old(quizzes) && stats == old(stats)
      ensures !quizzesResponse.Rejected? ==> quizzes == quizzesResponse.RowsOrEmpty()
      ensures !quizzesResponse.Rejected? && resultsResponse.Rejected? ==> stats == old(stats)
      ensures !quizzesResponse.Rejected? && !resultsResponse.Rejected? ==>
                stats == ComputeStats(quizzesResponse.RowsOrEmpty(), resultsResponse.RowsOrEmpty())
    {
      loading := true;
      if !quizzesResponse.Rejected? {
        var quizzesData := quizzesResponse.RowsOrEmpty();
        quizzes := quizzesData;
        filteredQuizzes := quizzesData;
        if !resultsResponse.Rejected? {
          var resultsData := resultsResponse.RowsOrEmpty();
          stats := ComputeStats(quizzesData, resultsData);
        }
      }
      Refilter();
      loading := false;
    }

    method SetSearchTerm(term: string)
      modifies this
      ensures Valid() && searchTerm == term
      ensures quizzes == old(quizzes) && stats == old(stats) && loading == old(loading)
    {
      searchTerm := term;
      Refilter();
    }

    /** `performDelete` after the delete request: when it succeeded the quiz
        leaves the list at once; otherwise nothing changes. The refetch that
        follows is a separate `FetchData`. */
    method PerformDelete(id: string, deleted: bool)
      requires Valid()
      modifies this
      ensures Valid() && searchTerm == old(searchTerm) && stats == old(stats) && loading == old(loading)
      ensures quizzes == if deleted then RemoveQuiz(old(quizzes), id) else old(quizzes)
    {
      if deleted {
        quizzes := RemoveQuiz(quizzes, id);
        Refilter();
      }
    }
  }
}
