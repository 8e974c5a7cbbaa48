/** The card a student sees for one listed quiz: defaults for the question
    count and teacher name, the previous-score percentage and its performance
    band, the action label and links, and the shortened quiz id. */
module StudentQuizCard {
  import opened Basics
  import opened Rounding
  import opened Quizzes
  import StudentQuizzesRoute

  /** `quiz.users?.name || "Unknown Teacher"`. */
  function TeacherName(q: Quiz): (name: string)
    ensures name != ""
    ensures q.teacherName.Some? && q.teacherName.value != "" ==> name == q.teacherName.value
    ensures q.teacherName.None? || q.teacherName.value == "" ==> name == "Unknown Teacher"
  {
    if q.teacherName.Some? && q.teacherName.value != "" then q.teacherName.value else "Unknown Teacher"
  }

  /** A JavaScript number as `Math.round` can leave it here: a finite integer,
      `Infinity` (a positive score over zero questions) or `NaN` (zero over zero). */
  datatype Percent = Finite(value: int) | PositiveInfinity | NaN

  /** `Math.round((lastScore / questionCount) * 100)`. */
  function ScorePercent(score: nat, count: nat): (p: Percent)
    ensures count > 0 ==>
              p.Finite? && p.value as real - 0.5 <= score as real / count as real * 100.0 < p.value as real + 0.5
    ensures count == 0 ==> (p == PositiveInfinity <==> score > 0) && (p == NaN <==> score == 0)
  {
    if count > 0 then Finite(RoundedPercent(score as real, count as real))
    else if score > 0 then PositiveInfinity
    else NaN
  }

  datatype Band = Excellent | GreatJob | GoodWork | TryAgain {
    /** The band's `grade` text. */
    function Label(): string {
      match this
      case Excellent => "Excellent!"
      case GreatJob => "Great job!"
      case GoodWork => "Good work!"
      case TryAgain => "Try again!"
    }

    /** The order of the bands, `TryAgain` lowest. */
    function Rank(): nat {
      match this
      case Excellent => 3
      case GreatJob => 2
      case GoodWork => 1
      case TryAgain => 0
    }
  }

  /** The `if (percentage >= 90) … else if …` chain. `Infinity` passes the first
      test; `NaN` fails every comparison. */
  function BandOf(p: Percent): (b: Band)
    ensures p == PositiveInfinity ==> b == Excellent
    ensures p == NaN ==> b == TryAgain
  {
    match p
    case Finite(v) =>
      if v >= 90 then Excellent
      else if v >= 80 then GreatJob
      else if v >= 70 then GoodWork
      else TryAgain
    case PositiveInfinity => Excellent
    case NaN => TryAgain
  }

  /** Each band covers one range of percentages; the ranges are disjoint and
      cover every integer. */
  lemma BandRanges(v: int)
    ensures BandOf(Finite(v)) == Excellent <==> 90 <= v
    ensures BandOf(Finite(v)) == GreatJob <==> 80 <= v < 90
    ensures BandOf(Finite(v)) == GoodWork <==> 70 <= v < 80
    ensures BandOf(Finite(v)) == TryAgain <==> v < 70
  {
  }

  /** Each band shows its own text: no two bands share a label. */
  lemma LabelsDistinct(a: Band, b: Band)
    ensures a.Label() == b.Label() <==> a == b
  {
  }

  /** A higher percentage never earns a lower band. */
  lemma BandMonotone(v: int, w: int)
    requires v <= w
    ensures BandOf(Finite(v)).Rank() <= BandOf(Finite(w)).Rank()
  {
  }

  /** `getPerformanceDetails`: no band for a quiz never attempted or without a
      previous score. */
  function PerformanceBand(q: ListedQuiz): (b: Option<Band>)
    ensures b.None? <==> !q.attempted || q.lastScore.None?
    ensures b.Some? ==> b.value == BandOf(ScorePercent(q.lastScore.value, QuestionCount(q.quiz)))
  {
    if !q.attempted || q.lastScore.None? then None
    else Some(BandOf(ScorePercent(q.lastScore.value, QuestionCount(q.quiz))))
  }

  /** A previous score no larger than the question count shows as a finite
      percentage between 0 and 100. */
  lemma {:induction false} ShownPercentInRange(score: nat, count: nat)
    requires 0 < count && score <= count
    ensures ScorePercent(score, count).Finite?
    ensures 0 <= ScorePercent(score, count).value <= 100
  {
    PercentInRange(score as real, count as real);
  }

  /** Every attempted quiz the student listing returns shows a finite
      percentage: the listing keeps only quizzes with a positive question count. */
  lemma {:induction false} ListedQuizPercentIsFinite(
    user: Option<string>,
    profile: Option<StudentQuizzesRoute.Profile>,
    quizzes: Option<seq<Quiz>>,
    results: Option<seq<StudentQuizzesRoute.ResultRow>>,
    i: nat)
    requires StudentQuizzesRoute.ListQuizzes(user, profile, quizzes, results).QuizList?
    requires i < |StudentQuizzesRoute.ListQuizzes(user, profile, quizzes, results).quizzes|
    requires StudentQuizzesRoute.ListQuizzes(user, profile, quizzes, results).quizzes[i].attempted
    ensures var q := StudentQuizzesRoute.ListQuizzes(user, profile, quizzes, results).quizzes[i];
            PerformanceBand(q).Some? &&
            ScorePercent(q.lastScore.value, QuestionCount(q.quiz)).Finite?
  {
    var q := StudentQuizzesRoute.ListQuizzes(user, profile, quizzes, results).quizzes[i];
    assert HasQuestions(q.quiz);
    assert q == StudentQuizzesRoute.Annotate(q.quiz, results);
  }

  /** The main button's text. */
  function ActionLabel(q: ListedQuiz): (text: string)
    ensures text == "Retake Quiz" <==> q.attempted
    ensures text == "Start Quiz" <==> !q.attempted
  {
    if q.attempted then "Retake Quiz" else "Start Quiz"
  }

  /** The main button's target. */
  function QuizLink(q: ListedQuiz): (link: string)
    ensures |link| == 24 + |q.quiz.id|
    ensures link[..24] == "/dashboard/student/quiz/" && link[24..] == q.quiz.id
  {
    "/dashboard/student/quiz/" + q.quiz.id
  }

  /** The "View Results" link, present only for an attempted quiz. */
  function ResultsLink(q: ListedQuiz): (link: Option<string>)
    ensures link.Some? <==> q.attempted
    ensures link.Some? ==> link.value == QuizLink(q) + "/results"
  {
    if q.attempted then Some(QuizLink(q) + "/results") else None
  }

  /** `quiz.id.slice(0, 8)`. */
  function ShortId(id: string): (short: string)
    ensures |short| == if |id| < 8 then |id| else 8
    ensures short == id[..|short|]
  {
    if |id| < 8 then id else id[..8]
  }
}
