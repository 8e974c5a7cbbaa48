/** The student dashboard: the statistics computed from the listing, the four
    composable list filters (search, subject, grade, attempt status) and the
    subject and grade choices offered by the selectors. The fetch of
    `/api/student/quizzes` is an input: `Some(rows)` for an ok response. */
module StudentDashboard {
  import opened Basics
  import opened Seqs
  import opened Text
  import opened Rounding
  import opened Quizzes

  datatype StudentStats = StudentStats(
    totalQuizzes: nat,
    attemptedQuizzes: nat,
    averageScore: int,
    questionsAnswered: nat)

  predicate IsAttempted(q: ListedQuiz) {
    q.attempted
  }

  /** `quizzes.reduce((sum, q) => sum + (q.lastScore || 0), 0)`. */
  function TotalScore(quizzes: seq<ListedQuiz>): nat {
    if quizzes == [] then 0 else quizzes[0].lastScore.GetOr(0) + TotalScore(quizzes[1..])
  }

  /** The statistics of `fetchQuizzes`. */
  function ComputeStats(data: seq<ListedQuiz>): (r: StudentStats)
    ensures r.totalQuizzes == |data|
    ensures r.attemptedQuizzes == |Filter(data, IsAttempted)| <= r.totalQuizzes
    ensures r.questionsAnswered == TotalQuestions(QuizzesOf(Filter(data, IsAttempted)))
    ensures r.questionsAnswered == 0 ==> r.averageScore == 0
    ensures r.questionsAnswered > 0 ==>
              var earned := TotalScore(Filter(data, IsAttempted)) as real;
              r.averageScore as real - 0.5 <= earned / r.questionsAnswered as real * 100.0 < r.averageScore as real + 0.5
  {
    var attempted := Filter(data, IsAttempted);
    var totalScore := TotalScore(attempted);
    var totalPossible := TotalQuestions(QuizzesOf(attempted));
    StudentStats(
      |data|,
      |attempted|,
      if totalPossible > 0 then RoundedPercent(totalScore as real, totalPossible as real) else 0,
      totalPossible)
  }

  /** When no attempted quiz scores more than it has questions, the total
      earned never exceeds the total possible. */
  lemma {:induction false} EarnedAtMostPossible(quizzes: seq<ListedQuiz>)
    requires forall i :: 0 <= i < |quizzes| ==> quizzes[i].lastScore.GetOr(0) <= QuestionCount(quizzes[i].quiz)
    ensures TotalScore(quizzes) <= TotalQuestions(QuizzesOf(quizzes))
  {
    if quizzes != [] {
      EarnedAtMostPossible(quizzes[1..]);
      assert QuizzesOf(quizzes)[1..] == QuizzesOf(quizzes[1..]);
    }
  }

  /** The average score is a percentage between 0 and 100 whenever no
      attempted quiz records more correct answers than it has questions. */
  lemma AverageScoreInRange(data: seq<ListedQuiz>)
    requires forall q :: q in data && q.attempted ==> q.lastScore.GetOr(0) <= QuestionCount(q.quiz)
    ensures 0 <= ComputeStats(data).averageScore <= 100
  {
    var attempted := Filter(data, IsAttempted);
    EarnedAtMostPossible(attempted);
    if TotalQuestions(QuizzesOf(attempted)) > 0 {
      PercentInRange(TotalScore(attempted) as real, TotalQuestions(QuizzesOf(attempted)) as real);
    }
  }

  /** The selector state: search box, subject, grade and attempt status
      (`"all"`, `"attempted"` or `"not-attempted"`). */
  datatype Criteria = Criteria(searchTerm: string, subject: string, grade: string, status: string)

  /** The state after "Clear filters", and the initial one. */
  const ShowAll := Criteria("", "all", "all", "all")

  /** The lowercased term occurs in the lowercased title, subject or teacher
      name, a missing name counting as the empty string. */
  predicate SearchHit(term: string, q: ListedQuiz) {
    var needle := Lower(term);
    Contains(Lower(q.quiz.title), needle) ||
    Contains(Lower(q.quiz.subject), needle) ||
    Contains(Lower(q.quiz.teacherName.GetOr("")), needle)
  }

  /** The search applies only when the trimmed term is non-empty; it then
      matches with the untrimmed term. */
  predicate PassesSearch(c: Criteria, q: ListedQuiz) {
    Trim(c.searchTerm) == "" || SearchHit(c.searchTerm, q)
  }

  predicate PassesSubject(c: Criteria, q: ListedQuiz) {
    c.subject == "all" || q.quiz.subject == c.subject
  }

  predicate PassesGrade(c: Criteria, q: ListedQuiz) {
    c.grade == "all" || q.quiz.grade == c.grade
  }

  predicate PassesStatus(c: Criteria, q: ListedQuiz) {
    if c.status == "attempted" then q.attempted
    else if c.status == "not-attempted" then !q.attempted
    else true
  }

  predicate Matches(c: Criteria, q: ListedQuiz) {
    PassesSearch(c, q) && PassesSubject(c, q) && PassesGrade(c, q) && PassesStatus(c, q)
  }

  /** The quizzes the dashboard shows under criteria `c`. */
  function Visible(quizzes: seq<ListedQuiz>, c: Criteria): seq<ListedQuiz> {
    Filter(quizzes, (q: ListedQuiz) => Matches(c, q))
  }

  /** The criteria applied up to the subject stage, and up to the grade stage. */
  predicate UpToSubject(c: Criteria, q: ListedQuiz) {
    PassesSearch(c, q) && PassesSubject(c, q)
  }

  predicate UpToGrade(c: Criteria, q: ListedQuiz) {
    UpToSubject(c, q) && PassesGrade(c, q)
  }

  /** The search stage of `filterQuizzes`. */
  method NarrowBySearch(quizzes: seq<ListedQuiz>, c: Criteria) returns (filtered: seq<ListedQuiz>)
    ensures filtered == Filter(quizzes, (q: ListedQuiz) => PassesSearch(c, q))
  {
    filtered := quizzes;
    if Trim(c.searchTerm) != "" {
      filtered := Filter(filtered, (q: ListedQuiz) => SearchHit(c.searchTerm, q));
      FilterCongruent(quizzes, (q: ListedQuiz) => SearchHit(c.searchTerm, q), (q: ListedQuiz) => PassesSearch(c, q));
    } else {
      FilterKeepsAll(quizzes, (q: ListedQuiz) => PassesSearch(c, q));
    }
  }

  /** The subject stage, applied to the search stage's list. */
  method NarrowBySubject(quizzes: seq<ListedQuiz>, c: Criteria, searched: seq<ListedQuiz>) returns (filtered: seq<ListedQuiz>)
    requires searched == Filter(quizzes, (q: ListedQuiz) => PassesSearch(c, q))
    ensures filtered == Filter(quizzes, (q: ListedQuiz) => UpToSubject(c, q))
  {
    filtered := searched;
    if c.subject != "all" {
      filtered := Filter(filtered, (q: ListedQuiz) => q.quiz.subject == c.subject);
      FilterFilter(quizzes, (q: ListedQuiz) => PassesSearch(c, q), (q: ListedQuiz) => q.quiz.subject == c.subject,
                   (q: ListedQuiz) => UpToSubject(c, q));
    } else {
      FilterCongruent(quizzes, (q: ListedQuiz) => PassesSearch(c, q), (q: ListedQuiz) => UpToSubject(c, q));
    }
  }

  /** The grade stage, applied to the subject stage's list. */
  method NarrowByGrade(quizzes: seq<ListedQuiz>, c: Criteria, bySubject: seq<ListedQuiz>) returns (filtered: seq<ListedQuiz>)
    requires bySubject == Filter(quizzes, (q: ListedQuiz) => UpToSubject(c, q))
    ensures filtered == Filter(quizzes, (q: ListedQuiz) => UpToGrade(c, q))
  {
    filtered := bySubject;
    if c.grade != "all" {
      filtered := Filter(filtered, (q: ListedQuiz) => q.quiz.grade == c.grade);
      FilterFilter(quizzes, (q: ListedQuiz) => UpToSubject(c, q), (q: ListedQuiz) => q.quiz.grade == c.grade,
                   (q: ListedQuiz) => UpToGrade(c, q));
    } else {
      FilterCongruent(quizzes, (q: ListedQuiz) => UpToSubject(c, q), (q: ListedQuiz) => UpToGrade(c, q));
    }
  }

  /** The status stage, applied to the grade stage's list. */
  method NarrowByStatus(quizzes: seq<ListedQuiz>, c: Criteria, byGrade: seq<ListedQuiz>) returns (filtered: seq<ListedQuiz>)
    requires byGrade == Filter(quizzes, (q: ListedQuiz) => UpToGrade(c, q))
    ensures filtered == Visible(quizzes, c)
  {
    filtered := byGrade;
    if c.status == "attempted" {
      filtered := Filter(filtered, (q: ListedQuiz) => q.attempted);
      FilterFilter(quizzes, (q: ListedQuiz) => UpToGrade(c, q), (q: ListedQuiz) => q.attempted, (q: ListedQuiz) => Matches(c, q));
    } else if c.status == "not-attempted" {
      filtered := Filter(filtered, (q: ListedQuiz) => !q.attempted);
      FilterFilter(quizzes, (q: ListedQuiz) => UpToGrade(c, q), (q: ListedQuiz) => !q.attempted, (q: ListedQuiz) => Matches(c, q));
    } else {
      FilterCongruent(quizzes, (q: ListedQuiz) => UpToGrade(c, q), (q: ListedQuiz) => Matches(c, q));
    }
  }

  /** `filterQuizzes`: narrows the list one active criterion at a time. */
  method FilterQuizzes(quizzes: seq<ListedQuiz>, c: Criteria) returns (filtered: seq<ListedQuiz>)
    ensures filtered == Visible(quizzes, c)
    ensures IsSubsequence(filtered, quizzes)
    ensures forall q :: q in filtered <==> q in quizzes && Matches(c, q)
  {
    filtered := NarrowBySearch(quizzes, c);
    filtered := NarrowBySubject(quizzes, c, filtered);
    filtered := NarrowByGrade(quizzes, c, filtered);
    filtered := NarrowByStatus(quizzes, c, filtered);
    FilterIsSubsequence(quizzes, (q: ListedQuiz) => Matches(c, q));
  }

  /** A blank search with every selector at "all" shows the whole list. */
  lemma {:induction false} DefaultCriteriaShowEverything(quizzes: seq<ListedQuiz>, blank: string)
    requires Trim(blank) == ""
    ensures Visible(quizzes, Criteria(blank, "all", "all", "all")) == quizzes
  {
    var c := Criteria(blank, "all", "all", "all");
    forall i | 0 <= i < |quizzes| ensures Matches(c, quizzes[i]) {
      assert PassesSearch(c, quizzes[i]);
    }
    FilterKeepsAll(quizzes, (q: ListedQuiz) => Matches(c, q));
  }

  /** The initial selector state shows the whole list. */
  lemma ShowAllShowsEverything(quizzes: seq<ListedQuiz>)
    ensures Visible(quizzes, ShowAll) == quizzes
  {
    TrimFixed("");
    DefaultCriteriaShowEverything(quizzes, "");
  }

  /** Under the same search, subject and grade, the "attempted" and
      "not-attempted" choices split the "all" list into two parts that together
      hold each of its quizzes once. */
  lemma {:induction false} StatusChoicesPartition(quizzes: seq<ListedQuiz>, term: string, subject: string, grade: string)
    ensures var base := Visible(quizzes, Criteria(term, subject, grade, "all"));
            var done := Visible(quizzes, Criteria(term, subject, grade, "attempted"));
            var open := Visible(quizzes, Criteria(term, subject, grade, "not-attempted"));
            |done| + |open| == |base| && multiset(done) + multiset(open) == multiset(base)
  {
    var base := Visible(quizzes, Criteria(term, subject, grade, "all"));
    var mAll := (q: ListedQuiz) => Matches(Criteria(term, subject, grade, "all"), q);
    var mDone := (q: ListedQuiz) => Matches(Criteria(term, subject, grade, "attempted"), q);
    var mOpen := (q: ListedQuiz) => Matches(Criteria(term, subject, grade, "not-attempted"), q);
    FilterFilter(quizzes, mAll, (q: ListedQuiz) => q.attempted, mDone);
    FilterFilter(quizzes, mAll, (q: ListedQuiz) => !q.attempted, mOpen);
    FilterPartition(base, (q: ListedQuiz) => q.attempted, (q: ListedQuiz) => !q.attempted);
  }

  /** The "attempted" choice alone lists exactly as many quizzes as the
      statistics count as attempted. */
  lemma AttemptedChoiceMatchesStats(quizzes: seq<ListedQuiz>)
    ensures |Visible(quizzes, Criteria("", "all", "all", "attempted"))| == ComputeStats(quizzes).attemptedQuizzes
  {
    FilterCongruent(quizzes, (q: ListedQuiz) => Matches(Criteria("", "all", "all", "attempted"), q), IsAttempted);
  }

  /** A subject typed into the search box, in any mix of upper and lower
      case, finds every quiz of that subject. */
  lemma {:induction false} SearchFindsSubject(quizzes: seq<ListedQuiz>, q: ListedQuiz, term: string)
    requires q in quizzes && Trim(term) != "" && Lower(term) == Lower(q.quiz.subject)
    ensures q in Visible(quizzes, Criteria(term, "all", "all", "all"))
  {
    var c := Criteria(term, "all", "all", "all");
    assert SearchHit(term, q) by {
      assert OccursAt(Lower(q.quiz.subject), Lower(term), 0);
    }
    assert Matches(c, q);
  }

  /** `quizzes.map((q: ListedQuiz) => q.subject)`. */
  function SubjectsOf(quizzes: seq<ListedQuiz>): (r: seq<string>)
    ensures |r| == |quizzes|
    ensures forall i :: 0 <= i < |r| ==> r[i] == quizzes[i].quiz.subject
  {
    seq(|quizzes|, i requires 0 <= i < |quizzes| => quizzes[i].quiz.subject)
  }

  /** The mapped subjects are exactly the subjects of the listed quizzes. */
  lemma SubjectsOfMembers(quizzes: seq<ListedQuiz>)
    ensures forall s :: s in SubjectsOf(quizzes) <==> exists i :: 0 <= i < |quizzes| && quizzes[i].quiz.subject == s
  {
    var all := SubjectsOf(quizzes);
    forall s | s in all ensures exists i :: 0 <= i < |quizzes| && quizzes[i].quiz.subject == s {
      var i :| 0 <= i < |all| && all[i] == s;
    }
    forall i | 0 <= i < |quizzes| ensures quizzes[i].quiz.subject in all {
      assert all[i] == quizzes[i].quiz.subject;
    }
  }

  /** `[...new Set(quizzes.map((q: ListedQuiz) => q.subject))]`: each subject
      once, in the order the subjects first appear. */
  function Subjects(quizzes: seq<ListedQuiz>): (r: seq<string>)
    ensures NoDuplicates(r)
    ensures forall s :: s in r <==> exists i :: 0 <= i < |quizzes| && quizzes[i].quiz.subject == s
    ensures InFirstOccurrenceOrder(r, SubjectsOf(quizzes))
  {
    var all := SubjectsOf(quizzes);
    SubjectsOfMembers(quizzes);
    Distinct(all)
  }

  /** `quizzes.map((q: ListedQuiz) => q.grade)`. */
  function GradesOf(quizzes: seq<ListedQuiz>): (r: seq<string>)
    ensures |r| == |quizzes|
    ensures forall i :: 0 <= i < |r| ==> r[i] == quizzes[i].quiz.grade
  {
    seq(|quizzes|, i requires 0 <= i < |quizzes| => quizzes[i].quiz.grade)
  }

  /** The mapped grades are exactly the grades of the listed quizzes. */
  lemma GradesOfMembers(quizzes: seq<ListedQuiz>)
    ensures forall g :: g in GradesOf(quizzes) <==> exists i :: 0 <= i < |quizzes| && quizzes[i].quiz.grade == g
  {
    var all := GradesOf(quizzes);
    forall g | g in all ensures exists i :: 0 <= i < |quizzes| && quizzes[i].quiz.grade == g {
      var i :| 0 <= i < |all| && all[i] == g;
    }
    forall i | 0 <= i < |quizzes| ensures quizzes[i].quiz.grade in all {
      assert all[i] == quizzes[i].quiz.grade;
    }
  }

  /** `[...new Set(quizzes.map((q: ListedQuiz) => q.grade))].sort()`. */
  function Grades(quizzes: seq<ListedQuiz>): (r: seq<string>)
    ensures NoDuplicates(r)
    ensures SortedByChars(r)
    ensures forall g :: g in r <==> exists i :: 0 <= i < |quizzes| && quizzes[i].quiz.grade == g
  {
    var all := GradesOf(quizzes);
    GradesOfMembers(quizzes);
    var distinct := Distinct(all);
    var r := SortByChars(distinct);
    SameMembers(r, distinct);
    r
  }

  /** The component's state: the fetched list, the selectors, the list on
      screen, the statistics and the loading flag. */
  class Dashboard {
    var quizzes: seq<ListedQuiz>
    var criteria: Criteria
    var filteredQuizzes: seq<ListedQuiz>
    var stats: StudentStats
    var loading: bool

    /** The filtering effect has run for the current list and selectors. */
    ghost predicate Valid()
      reads this
    {
      filteredQuizzes == Visible(quizzes, criteria)
    }

    constructor()
      ensures Valid()
      ensures quizzes == [] && criteria == ShowAll && loading
      ensures stats == StudentStats(0, 0, 0, 0)
    {
      quizzes := [];
      criteria := ShowAll;
      filteredQuizzes := [];
      stats := StudentStats(0, 0, 0, 0);
      loading := true;
    }

    /** The effect that re-runs `filterQuizzes` when the list or a selector changes. */
    method Refilter()
      modifies this`filteredQuizzes
      ensures Valid()
      ensures quizzes == old(quizzes) && criteria == old(criteria)
    {
      filteredQuizzes := FilterQuizzes(quizzes, criteria);
    }

    /** `fetchQuizzes`: on an ok response, store the list and its statistics;
        in every case, stop loading. */
    method FetchQuizzes(response: Option<seq<ListedQuiz>>)
      requires Valid()
      modifies this
      ensures Valid() && !loading && criteria == old(criteria)
      ensures response.Some? ==> quizzes == response.value && stats == ComputeStats(response.value)
      ensures response.None? ==> quizzes == old(quizzes) && stats == old(stats)
    {
      if response.Some? {
        quizzes, stats := response.value, ComputeStats(response.value);
      }
      loading := false;
      Refilter();
    }

    /** A change to the search box or to one of the three selectors. */
    method SetCriteria(c: Criteria)
      modifies this
      ensures Valid() && criteria == c
      ensures quizzes == old(quizzes) && stats == old(stats) && loading == old(loading)
    {
      criteria := c;
      Refilter();
    }

    /** "Clear filters" resets every selector and shows the whole list. */
    method ClearFilters()
      modifies this
      ensures Valid() && criteria == ShowAll && filteredQuizzes == quizzes
      ensures quizzes == old(quizzes) && stats == old(stats) && loading == old(loading)
    {
      criteria := ShowAll;
      Refilter();
      ShowAllShowsEverything(quizzes);
    }
  }
}
