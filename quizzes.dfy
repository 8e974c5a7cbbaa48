/** The quiz record as the student listing, both dashboards and the quiz card
    receive it: the quiz row, the `questions(count)` aggregate and the creating
    teacher's name, and on the student side the attempt status the listing adds. */
module Quizzes {
  import opened Basics

  datatype Quiz = Quiz(
    id: string,
    title: string,
    subject: string,
    grade: string,
    createdAt: string,
    /** `questions`: the `count` of each aggregate row; `None` when the aggregate is null. */
    questions: Option<seq<nat>>,
    /** `users.name` of the creating teacher, when present. */
    teacherName: Option<string>)

  /** The student listing's availability test: the aggregate is present, non-empty
      and its first count is positive. */
  predicate HasQuestions(q: Quiz) {
    q.questions.Some? && |q.questions.value| > 0 && q.questions.value[0] > 0
  }

  /** `quiz.questions?.[0]?.count || 0`. */
  function QuestionCount(q: Quiz): (n: nat)
    ensures n > 0 <==> HasQuestions(q)
    ensures n > 0 ==> n == q.questions.value[0]
  {
    match q.questions
    case Some(counts) => if |counts| > 0 then counts[0] else 0
    case None => 0
  }

  /** `quizzes.reduce((sum, q) => sum + (q.questions?.[0]?.count || 0), 0)`:
      the question total both dashboards compute. */
  function TotalQuestions(quizzes: seq<Quiz>): nat {
    if quizzes == [] then 0 else QuestionCount(quizzes[0]) + TotalQuestions(quizzes[1..])
  }

  /** A quiz annotated with the requesting student's attempt status. */
  datatype ListedQuiz = ListedQuiz(
    quiz: Quiz,
    attempted: bool,
    lastScore: Option<nat>,
    lastAttempt: Option<string>)

  /** The quiz records of annotated entries: `.quiz` at each index. */
  function QuizzesOf(listed: seq<ListedQuiz>): (r: seq<Quiz>)
    ensures |r| == |listed|
    ensures forall i :: 0 <= i < |r| ==> r[i] == listed[i].quiz
  {
    if listed == [] then [] else [listed[0].quiz] + QuizzesOf(listed[1..])
  }
}
