/** `GET /api/student/quizzes`: the quizzes a student may attempt, each
    annotated with the student's attempt status. The identity provider, the
    `users`, `quizzes` and `results` queries and the JSON response are inputs
    and outputs of `ListQuizzes`; the database's `created_at` ordering is the
    order of the `quizzes` input. */
module StudentQuizzesRoute {
  import opened Basics
  import opened Seqs
  import opened Quizzes

  /** The `role` column of the caller's `users` row (`None` when null). */
  datatype Profile = Profile(role: Option<string>)

  /** One row of the student's own `results`: `quiz_id, score, submitted_at`. */
  datatype ResultRow = ResultRow(quizId: string, score: nat, submittedAt: string)

  datatype Response =
    | Unauthorized
    | Forbidden
    | ServerError
    | QuizList(quizzes: seq<ListedQuiz>)
  {
    function Status(): int {
      match this
      case Unauthorized => 401
      case Forbidden => 403
      case ServerError => 500
      case QuizList(_) => 200
    }
  }

  predicate IsStudent(profile: Option<Profile>) {
    profile.Some? && profile.value.role == Some("student")
  }

  /** `results.find(r => r.quiz_id === id)`: the first row for the quiz. */
  function FirstResultFor(results: seq<ResultRow>, id: string): (r: Option<ResultRow>)
    ensures r.None? <==> forall i :: 0 <= i < |results| ==> results[i].quizId != id
    ensures r.Some? ==>
              exists i :: (0 <= i < |results| && results[i] == r.value && r.value.quizId == id &&
                           forall j :: 0 <= j < i ==> results[j].quizId != id)
  {
    if results == [] then None
    else if results[0].quizId == id then Some(results[0])
    else
      var r := FirstResultFor(results[1..], id);
      assert r.Some? ==> exists i :: (0 <= i < |results| && results[i] == r.value &&
                                       forall j :: 0 <= j < i ==> results[j].quizId != id)
      by {
        if r.Some? {
          var i :| 0 <= i < |results| - 1 && results[1..][i] == r.value &&
            forall j :: 0 <= j < i ==> results[1..][j].quizId != id;
          assert results[i + 1] == r.value;
          assert forall j :: 0 <= j < i + 1 ==> results[j].quizId != id by {
            forall j | 0 <= j < i + 1 ensures results[j].quizId != id {
              if j > 0 { assert results[j] == results[1..][j - 1]; }
            }
          }
        }
      }
      assert r.None? ==> forall i :: 0 <= i < |results| ==> results[i].quizId != id by {
        if r.None? {
          forall i | 0 <= i < |results| ensures results[i].quizId != id {
            if i > 0 { assert results[i] == results[1..][i - 1]; }
          }
        }
      }
      r
  }

  /** `{...quiz, attempted, lastScore, lastAttempt}` for one quiz. A null
      `results` answer behaves as no attempts. */
  function Annotate(quiz: Quiz, results: Option<seq<ResultRow>>): (r: ListedQuiz)
    ensures r.quiz == quiz
    ensures r.attempted <==>
              results.Some? && exists i :: 0 <= i < |results.value| && results.value[i].quizId == quiz.id
    ensures r.lastScore.Some? <==> r.attempted
    ensures r.lastAttempt.Some? <==> r.attempted
    ensures r.attempted ==>
              exists i :: (0 <= i < |results.value| && results.value[i].quizId == quiz.id &&
                           (forall j :: 0 <= j < i ==> results.value[j].quizId != quiz.id) &&
                           r.lastScore == Some(results.value[i].score) &&
                           r.lastAttempt == Some(results.value[i].submittedAt))
  {
    match results
    case None => ListedQuiz(quiz, false, None, None)
    case Some(rows) =>
      var first := FirstResultFor(rows, quiz.id);
      var attempted := exists row :: row in rows && row.quizId == quiz.id;
      assert attempted <==> first.Some? by {
        if first.None? {
          forall row | row in rows ensures row.quizId != quiz.id {
            var i :| 0 <= i < |rows| && rows[i] == row;
          }
        }
      }
      ListedQuiz(
        quiz,
        attempted,
        if first.Some? then Some(first.value.score) else None,
        if first.Some? then Some(first.value.submittedAt) else None)
  }

  /** `availableQuizzes.map(quiz => ({...quiz, ...status}))`. */
  function AnnotateAll(available: seq<Quiz>, results: Option<seq<ResultRow>>): (r: seq<ListedQuiz>)
    ensures |r| == |available|
    ensures forall i :: 0 <= i < |r| ==> r[i] == Annotate(available[i], results)
  {
    seq(|available|, i requires 0 <= i < |available| => Annotate(available[i], results))
  }

  /** The handler. `user` is the authenticated caller, if any; `profile` the
      caller's `users` row; `quizzes` the quiz query's rows, or `None` when it
      reported an error; `results` the caller's results rows, or `None` when null. */
  function ListQuizzes(
    user: Option<string>,
    profile: Option<Profile>,
    quizzes: Option<seq<Quiz>>,
    results: Option<seq<ResultRow>>): (r: Response)
    ensures r.Status() == 401 <==> user.None?
    ensures r.Status() == 403 <==> user.Some? && !IsStudent(profile)
    ensures r.Status() == 500 <==> user.Some? && IsStudent(profile) && quizzes.None?
    ensures r.QuizList? ==> |r.quizzes| <= |quizzes.value|
    ensures r.QuizList? ==> forall i :: 0 <= i < |r.quizzes| ==>
              HasQuestions(r.quizzes[i].quiz) && r.quizzes[i].quiz in quizzes.value
    ensures r.QuizList? ==> forall q :: q in quizzes.value && HasQuestions(q) ==> q in QuizzesOf(r.quizzes)
    ensures r.QuizList? ==> forall i :: 0 <= i < |r.quizzes| ==> r.quizzes[i] == Annotate(r.quizzes[i].quiz, results)
  {
    if user.None? then Unauthorized
    else if !IsStudent(profile) then Forbidden
    else if quizzes.None? then ServerError
    else
      var available := Filter(quizzes.value, HasQuestions);
      var listed := AnnotateAll(available, results);
      assert QuizzesOf(listed) == available;
      QuizList(listed)
  }

  /** The listed quizzes are the available ones, in the order fetched, each
      carrying every original field. */
  lemma ListingIsOrderedSubsequence(
    user: Option<string>,
    profile: Option<Profile>,
    quizzes: Option<seq<Quiz>>,
    results: Option<seq<ResultRow>>)
    requires ListQuizzes(user, profile, quizzes, results).QuizList?
    ensures IsSubsequence(QuizzesOf(ListQuizzes(user, profile, quizzes, results).quizzes), quizzes.value)
  {
    var listed := ListQuizzes(user, profile, quizzes, results).quizzes;
    assert QuizzesOf(listed) == Filter(quizzes.value, HasQuestions);
    FilterIsSubsequence(quizzes.value, HasQuestions);
  }

  /** The role gate answers before any quiz or result is looked at: a denied
      caller gets the same answer whatever the database holds. */
  lemma GateIgnoresQueries(
    user: Option<string>,
    profile: Option<Profile>,
    quizzes: Option<seq<Quiz>>, quizzes': Option<seq<Quiz>>,
    results: Option<seq<ResultRow>>, results': Option<seq<ResultRow>>)
    requires user.None? || !IsStudent(profile)
    ensures ListQuizzes(user, profile, quizzes, results) == ListQuizzes(user, profile, quizzes', results')
  {
  }
}
