# Quiz platform core in Dafny

This project models the decision logic of a quiz web application. Teachers
create quizzes; students browse and take them. The model covers:

- **the student quiz listing endpoint** (`GET /api/student/quizzes`). It
  answers 401 without a signed-in user and 403 to anyone who is not a
  student. It answers 500 when the quiz query fails. Otherwise it lists the
  quizzes that have questions, each marked as attempted or not, with the
  score and date of the student's first matching result;
- **the student dashboard**: its statistics (quizzes, attempted quizzes,
  average score, questions answered), the search/subject/grade/status
  filters, and the subject and grade choices. The component is a class
  whose filtered list always equals the filter of its fetched list;
- **the teacher dashboard**: its search, its statistics (total questions,
  attempts, mean score) and the removal of a deleted quiz;
- **the student quiz card**: the teacher name fallback, the score
  percentage (including JavaScript's division by zero), the performance
  bands, the action label, the results link and the shortened id;
- **the navigation bar**: `getInitials` (including the inputs that make it
  throw), the avatar fallback, the dashboard link and the menu state;
- **the middleware**: which requests go to the login page, which go to a
  dashboard, and the path matcher. The model proves that it never
  redirects twice in a row.

Modules:

- `Basics`: `Option` and `Eval`.
- `Seqs`: filtering, de-duplication and character-by-character sorting, with lemmas.
- `Text`: JavaScript's `toLowerCase`/`toUpperCase` on ASCII, `includes`,
  `startsWith`, `trim` and `split` on one character.
- `Rounding`: `Math.round` on exact reals.
- `Quizzes`: the quiz and listed-quiz records, the availability test, a quiz's question count, the question total over a list, and the projection from listed quizzes to their quiz records.
- `Roles`: the role default shared by the middleware and the navigation bar.
- One module per core file: `StudentQuizzesRoute`, `StudentDashboard`,
  `TeacherDashboard`, `StudentQuizCard`, `Navbar`, `Middleware`.

Database queries, authentication, `fetch` responses and clocks are inputs
to the model. Stateful React components become classes whose fields are
the component's state and whose methods are its handlers and effects.

## Model

| member | source | states |
|---|---|---|
| Seqs.Filter | app/api/student/quizzes/route.ts:53-58 | `Array.prototype.filter`: the result is no longer than the input and holds exactly the input elements that pass the predicate |
| Seqs.FilterIsSubsequence | app/api/student/quizzes/route.ts:53-58 | filtering keeps the kept elements in their original order (an ordered subsequence) |
| Seqs.FilterFilter | app/components/StudentDashboardClient.tsx:110-145 | filtering twice in a row is the same as filtering once by the conjunction, so the stage-by-stage filter equals one combined filter |
| Seqs.FilterKeepsAll | app/components/StudentDashboardClient.tsx:113-145 | a predicate that every element passes leaves the list unchanged |
| Seqs.FilterPartition | app/components/StudentDashboardClient.tsx:141-145 | a predicate and its negation split the list: the two lengths add up and the two multisets join to the input's |
| Seqs.Distinct | app/components/StudentDashboardClient.tsx:151 | `[...new Set(xs)]`: no duplicates, the same members as the input, a subsequence of it, and each element placed before every element whose first occurrence comes later |
| Seqs.CharLessEq | app/components/StudentDashboardClient.tsx:152 | the default `sort` comparison on strings: the empty string comes first, otherwise the first characters decide, and equal first characters defer to the rest |
| Seqs.CharOrderTotal | app/components/StudentDashboardClient.tsx:152 | the default `sort` order on strings compares any two strings |
| Seqs.CharOrderTransitive | app/components/StudentDashboardClient.tsx:152 | the default `sort` order is transitive |
| Seqs.CharOrderAntisymmetric | app/components/StudentDashboardClient.tsx:152 | two strings that are each at most the other are equal |
| Seqs.InsertByChars | app/components/StudentDashboardClient.tsx:152 | inserting into a sorted list keeps it sorted and adds exactly one copy of the element |
| Seqs.SortByChars | app/components/StudentDashboardClient.tsx:152 | default `sort`: the result is sorted character by character, is a permutation of the input, and is duplicate-free when the input is |
| Text.UpperChar | app/components/Navbar.tsx:24-25 | `toUpperCase` on one character: a letter a-z becomes the capital whose lower case it is; every other character is unchanged |
| Text.Lower | app/components/StudentDashboardClient.tsx:114-120 | `toLowerCase`: same length, no capital A-Z left, and each character equal to the original up to case |
| Text.Contains | app/components/StudentDashboardClient.tsx:123-125 | `includes`: defined as an occurrence of the needle at some index of the haystack |
| Text.StartsWith | middleware.ts:14 | `startsWith`: defined as the prefix of the string's length of the prefix being equal to it |
| Text.ContainsEmpty | app/components/TeacherDashboardClient.tsx:66-71 | `includes("")` holds for every string |
| Text.TrimStart | app/components/Navbar.tsx:22 | the result is a suffix of the input, every removed character is white space, and it does not start with white space |
| Text.TrimEnd | app/components/Navbar.tsx:22 | the result is a prefix of the input, every removed character is white space, and it does not end with white space |
| Text.Trim | app/components/Navbar.tsx:22 | `trim()`: the result is a slice of the input with only white space outside it, and is empty or starts and ends with a non-white-space character |
| Text.IsTrimmable | app/components/Navbar.tsx:22 | the characters `trim()` removes: ECMAScript white space and line terminators |
| Text.TrimFixed | app/components/Navbar.tsx:22 | a string with no white space at either end is its own trim |
| Text.TrimIdempotent | app/components/Navbar.tsx:22 | trimming twice is trimming once |
| Text.TrimEmptyIffBlank | app/components/StudentDashboardClient.tsx:113 | `s.trim() !== ""` exactly when some character of `s` is not white space |
| Text.Split | app/components/Navbar.tsx:22 | `split(" ")`: at least one piece, no piece contains the separator, and joining the pieces with the separator gives back the input |
| Text.SplitWithoutSeparator | app/components/Navbar.tsx:22 | a string without the separator splits into itself alone |
| Text.SplitAfterWord | app/components/Navbar.tsx:22-24 | a word, the separator and a remainder split into the word followed by the remainder's pieces |
| Text.SplitFirstEmpty | app/components/Navbar.tsx:22-24 | the first piece is empty exactly when the string is empty or starts with the separator |
| Rounding.RoundHalfUp | app/components/StudentQuizCard.tsx:62 | `Math.round`: the result is within one half of the argument, halves rounding up |
| Rounding.RoundedPercent | app/components/StudentDashboardClient.tsx:97 | `Math.round(part / whole * 100)` lies within one half of the exact percentage |
| Rounding.PercentInRange | app/components/StudentDashboardClient.tsx:95-98 | a part between zero and the whole gives a percentage between 0 and 100 |
| Rounding.PercentMonotone | app/components/StudentQuizCard.tsx:62-96 | a larger part of the same whole never gives a smaller rounded percentage |
| Quizzes.QuestionCount | app/components/StudentQuizCard.tsx:37 | `questions?.[0]?.count \|\| 0` is positive exactly when the quiz has a positive first count, and is then that count |
| Quizzes.HasQuestions | app/api/student/quizzes/route.ts:53-58 | the availability test: the `questions` aggregate is present, non-empty and its first count is positive |
| Quizzes.TotalQuestions | app/components/TeacherDashboardClient.tsx:90-93 | the sum of the question counts, shared by the teacher's statistics and the student's sum over attempted quizzes (StudentDashboardClient.tsx:81-84) |
| Roles.RoleOrStudent | middleware.ts:28 | `role \|\| "student"`: never empty; the role when one is set, "student" otherwise |
| Roles.DashboardPath | middleware.ts:29 | the redirect target is "/dashboard/" followed by the role or "student" |
| StudentQuizzesRoute.FirstResultFor | app/api/student/quizzes/route.ts:70-72 | `find` on the results: none exactly when no row has the quiz id, otherwise the row with the smallest index that has it |
| StudentQuizzesRoute.IsStudent | app/api/student/quizzes/route.ts:23 | the gate's test: a profile exists and its role is exactly "student" |
| StudentQuizzesRoute.Response.Status | app/api/student/quizzes/route.ts:13-75 | each answer's HTTP status: 401 unauthenticated, 403 not a student, 500 failed quiz query, 200 for the list |
| StudentQuizzesRoute.Annotate | app/api/student/quizzes/route.ts:67-73 | the quiz is kept; `attempted` holds exactly when some result row has its id; score and date are present exactly when attempted and come from the first such row |
| StudentQuizzesRoute.AnnotateAll | app/api/student/quizzes/route.ts:67-73 | `map`: one annotated entry per quiz, in order, each wrapping the quiz at the same position |
| StudentQuizzesRoute.ListQuizzes | app/api/student/quizzes/route.ts:12-75 | 401 exactly without a user; 403 exactly for a user whose profile is missing or not "student"; 500 exactly when a student's quiz query fails; otherwise 200 listing exactly the quizzes with questions, each from the input and each carrying the attempt status, score and date `Annotate` gives it from the result rows |
| StudentQuizzesRoute.ListingIsOrderedSubsequence | app/api/student/quizzes/route.ts:42-73 | the listed quizzes are an ordered subsequence of the query's rows, so the query's newest-first order is kept |
| StudentQuizzesRoute.GateIgnoresQueries | app/api/student/quizzes/route.ts:12-28 | the 401 and 403 answers do not depend on the quiz or result queries |
| StudentDashboard.ComputeStats | app/components/StudentDashboardClient.tsx:76-100 | total is the list length; attempted is the number of attempted quizzes, at most the total; questions answered sums the counts of attempted quizzes; the average is 0 without possible points and otherwise the rounded percentage of earned over possible |
| StudentDashboard.TotalScore | app/components/StudentDashboardClient.tsx:77-80 | the sum of the last scores, a missing score counting 0 |
| Quizzes.QuizzesOf | app/components/StudentDashboardClient.tsx:81-84 | the quiz records of annotated entries, index by index, on which the student dashboard sums question counts |
| StudentDashboard.EarnedAtMostPossible | app/components/StudentDashboardClient.tsx:77-90 | when no score exceeds its quiz's question count, the earned total is at most the possible total |
| StudentDashboard.AverageScoreInRange | app/components/StudentDashboardClient.tsx:95-98 | with such scores the average score lies between 0 and 100 |
| StudentDashboard.SearchHit | app/components/StudentDashboardClient.tsx:114-126 | the lower-cased term occurs in the lower-cased title, subject or teacher name, a missing name counting as empty |
| StudentDashboard.PassesSearch | app/components/StudentDashboardClient.tsx:113 | the search applies only when the trimmed term is non-empty, and then matches with the untrimmed term |
| StudentDashboard.PassesSubject | app/components/StudentDashboardClient.tsx:131-133 | "all" or the quiz's subject |
| StudentDashboard.PassesGrade | app/components/StudentDashboardClient.tsx:136-138 | "all" or the quiz's grade |
| StudentDashboard.PassesStatus | app/components/StudentDashboardClient.tsx:141-145 | "attempted" keeps attempted quizzes, "not-attempted" the others, any other choice keeps all |
| StudentDashboard.Matches | app/components/StudentDashboardClient.tsx:109-148 | a quiz passes all four criteria |
| StudentDashboard.Visible | app/components/StudentDashboardClient.tsx:109-148 | the reference list: the quizzes that match, in order |
| StudentDashboard.NarrowBySearch | app/components/StudentDashboardClient.tsx:113-128 | the search stage leaves exactly the quizzes passing the search |
| StudentDashboard.NarrowBySubject | app/components/StudentDashboardClient.tsx:131-133 | after the subject stage, exactly the quizzes passing search and subject remain |
| StudentDashboard.NarrowByGrade | app/components/StudentDashboardClient.tsx:136-138 | after the grade stage, exactly the quizzes passing search, subject and grade remain |
| StudentDashboard.NarrowByStatus | app/components/StudentDashboardClient.tsx:141-145 | after the status stage the list is the reference list |
| StudentDashboard.FilterQuizzes | app/components/StudentDashboardClient.tsx:109-148 | the stage-by-stage filter keeps exactly the quizzes that match the search, subject, grade and status, in their original order |
| StudentDashboard.DefaultCriteriaShowEverything | app/components/StudentDashboardClient.tsx:113-145 | a blank search with every selector on "all" shows the whole list |
| StudentDashboard.ShowAllShowsEverything | app/components/StudentDashboardClient.tsx:48-51 | the initial selectors show the whole list |
| StudentDashboard.StatusChoicesPartition | app/components/StudentDashboardClient.tsx:141-145 | "attempted" and "not-attempted" split every list into two parts that together hold each quiz once |
| StudentDashboard.AttemptedChoiceMatchesStats | app/components/StudentDashboardClient.tsx:141-142 | the "attempted" choice shows as many quizzes as the statistics count as attempted |
| StudentDashboard.SearchFindsSubject | app/components/StudentDashboardClient.tsx:113-127 | a non-blank term equal to a quiz's subject up to upper and lower case finds that quiz |
| StudentDashboard.SubjectsOf | app/components/StudentDashboardClient.tsx:151 | `map` to the subjects: one per quiz, at the same index |
| StudentDashboard.Subjects | app/components/StudentDashboardClient.tsx:151 | the subject choices are duplicate-free, are exactly the subjects of the listed quizzes, and come in the order they first appear |
| StudentDashboard.GradesOf | app/components/StudentDashboardClient.tsx:152 | `map` to the grades: one per quiz, at the same index |
| StudentDashboard.Grades | app/components/StudentDashboardClient.tsx:152 | the grade choices are duplicate-free, sorted, and are exactly the grades of the listed quizzes |
| StudentDashboard.Dashboard.constructor | app/components/StudentDashboardClient.tsx:45-58 | the initial state: empty list, every selector on "all", zero statistics, loading |
| StudentDashboard.Dashboard.Refilter | app/components/StudentDashboardClient.tsx:64-66 | after the filtering effect the list on screen is the filter of the fetched list |
| StudentDashboard.Dashboard.FetchQuizzes | app/components/StudentDashboardClient.tsx:68-107 | an ok response replaces the list and its statistics; a failed one changes neither; loading ends in both cases and the list on screen stays filtered |
| StudentDashboard.Dashboard.SetCriteria | app/components/StudentDashboardClient.tsx:316-383 | a new search term or selector is stored and the list on screen re-filtered; list, statistics and loading are unchanged |
| StudentDashboard.Dashboard.ClearFilters | app/components/StudentDashboardClient.tsx:459-464 | "Clear filters" resets every selector and the whole list is shown |
| TeacherDashboard.SearchFilter | app/components/TeacherDashboardClient.tsx:65-73 | keeps, in order, exactly the quizzes whose lower-cased title, subject or grade contains the lower-cased term |
| TeacherDashboard.SearchHit | app/components/TeacherDashboardClient.tsx:67-70 | the lower-cased term occurs in the lower-cased title, subject or grade |
| TeacherDashboard.EmptySearchShowsEverything | app/components/TeacherDashboardClient.tsx:66-71 | an empty search shows every quiz |
| TeacherDashboard.ComputeStats | app/components/TeacherDashboardClient.tsx:90-116 | quiz and attempt totals are the list lengths; total questions is `TotalQuestions` of the quizzes; the average is 0 without results and otherwise the rounded mean of the per-result ratios, as a percentage |
| TeacherDashboard.Ratio | app/components/TeacherDashboardClient.tsx:101-103 | score over total, or 0 when the score is null or the total is missing or zero |
| TeacherDashboard.SumOfRatios | app/components/TeacherDashboardClient.tsx:98-104 | the sum of the per-result ratios |
| TeacherDashboard.SumOfRatiosBounded | app/components/TeacherDashboardClient.tsx:98-104 | when every scored result is within its total, the ratios add up to between 0 and the number of results |
| TeacherDashboard.ScoredRowWellFormed | app/components/TeacherDashboardClient.tsx:101-103 | a result whose score lies between 0 and a positive total has a ratio between 0 and 1 |
| TeacherDashboard.AverageScoreInRange | app/components/TeacherDashboardClient.tsx:95-109 | with such results the average score lies between 0 and 100 |
| TeacherDashboard.RemoveQuiz | app/components/TeacherDashboardClient.tsx:174 | the quiz with the deleted id is gone; every other quiz stays, in order |
| TeacherDashboard.RemoveAbsentQuiz | app/components/TeacherDashboardClient.tsx:174 | removing an id that is not listed leaves the list unchanged |
| TeacherDashboard.Dashboard.constructor | app/components/TeacherDashboardClient.tsx:45-59 | the initial state: empty list, empty search, zero statistics, loading |
| TeacherDashboard.Dashboard.Refilter | app/components/TeacherDashboardClient.tsx:65-73 | after the search effect the list on screen is the search of the fetched list |
| TeacherDashboard.Dashboard.FetchData | app/components/TeacherDashboardClient.tsx:75-122 | a not-ok response counts as an empty list; a rejected quiz fetch keeps the old list and statistics; a rejected results fetch replaces the list but keeps the old statistics; otherwise the statistics come from both responses; loading ends and the search is re-applied |
| TeacherDashboard.Fetched.RowsOrEmpty | app/components/TeacherDashboardClient.tsx:79-88 | `response.ok ? await response.json() : []`: the parsed rows of an ok response, otherwise the empty list |
| TeacherDashboard.Dashboard.SetSearchTerm | app/components/TeacherDashboardClient.tsx:351 | the term is stored and the list on screen re-searched; nothing else changes |
| TeacherDashboard.Dashboard.PerformDelete | app/components/TeacherDashboardClient.tsx:163-186 | a successful delete removes that quiz from the list and the view; a failed one changes nothing |
| StudentQuizCard.TeacherName | app/components/StudentQuizCard.tsx:38 | never empty: the teacher's name when set, "Unknown Teacher" otherwise |
| StudentQuizCard.ScorePercent | app/components/StudentQuizCard.tsx:62 | with questions, the rounded percentage within one half of score/count*100; with none, Infinity for a positive score and NaN for zero |
| StudentQuizCard.BandOf | app/components/StudentQuizCard.tsx:64-96 | Infinity passes the first test and is "Excellent!"; NaN fails every comparison and is "Try again!" |
| StudentQuizCard.Band.Label | app/components/StudentQuizCard.tsx:70-94 | each band's `grade` text |
| StudentQuizCard.LabelsDistinct | app/components/StudentQuizCard.tsx:70-94 | two bands have the same text exactly when they are the same band |
| StudentQuizCard.BandRanges | app/components/StudentQuizCard.tsx:64-96 | the bands are 90 and up, 80 to 89, 70 to 79, and below 70, each as an if-and-only-if |
| StudentQuizCard.BandMonotone | app/components/StudentQuizCard.tsx:64-96 | a higher percentage never gets a lower band |
| StudentQuizCard.PerformanceBand | app/components/StudentQuizCard.tsx:59-97 | a band is shown exactly when the quiz was attempted with a score, and it is the band of that score's percentage |
| StudentQuizCard.ShownPercentInRange | app/components/StudentQuizCard.tsx:203 | a score within a positive question count shows a finite percentage between 0 and 100 |
| StudentQuizCard.ListedQuizPercentIsFinite | app/components/StudentQuizCard.tsx:60-62 | every attempted quiz the listing endpoint returns has questions and a score, so its card percentage is finite |
| StudentQuizCard.ActionLabel | app/components/StudentQuizCard.tsx:235 | "Retake Quiz" exactly when attempted, "Start Quiz" exactly when not |
| StudentQuizCard.QuizLink | app/components/StudentQuizCard.tsx:231 | the main button's target: "/dashboard/student/quiz/" followed by exactly the quiz's id |
| StudentQuizCard.ResultsLink | app/components/StudentQuizCard.tsx:238-246 | a results link exists exactly when attempted and is the quiz link followed by "/results" |
| StudentQuizCard.ShortId | app/components/StudentQuizCard.tsx:254 | `slice(0, 8)`: the first eight characters of the id, or the whole id when shorter |
| Navbar.Initials | app/components/Navbar.tsx:20-26 | the empty name gives the empty string; when `getInitials` returns, its result has at most two characters and no lower-case letter |
| Navbar.TrimmedNonEmpty | app/components/Navbar.tsx:21-22 | a name whose trim is non-empty is itself non-empty |
| Navbar.InitialsOfOneWord | app/components/Navbar.tsx:25 | a one-word name gives the upper-cased first letter |
| Navbar.InitialsOfSeveralWords | app/components/Navbar.tsx:23-24 | a name of two or more words separated by single spaces gives the upper-cased first letters of the first two words |
| Navbar.InitialsIgnoreSurroundingSpace | app/components/Navbar.tsx:22 | spaces around a non-blank name do not change its initials |
| Navbar.InitialsOfBlankNameThrow | app/components/Navbar.tsx:21-25 | a non-empty name of white space only throws a TypeError |
| Navbar.InitialsThrowOnDoubleSpace | app/components/Navbar.tsx:22-24 | two spaces after the first word make the second piece empty, and `getInitials` throws |
| Navbar.Avatar | app/components/Navbar.tsx:131-133 | with a profile name the avatar shows its initials; otherwise the upper-cased first letter of the email, or "U" |
| Navbar.DashboardLink | app/components/Navbar.tsx:154 | the link starts with "/dashboard/" and ends with the role, or "student" when no role is set |
| Navbar.Menus.constructor | app/components/Navbar.tsx:31-33 | both menus start closed and the component starts loading |
| Navbar.Menus.ToggleMenu | app/components/Navbar.tsx:194 | the mobile menu flips; nothing else changes |
| Navbar.Menus.ToggleUserMenu | app/components/Navbar.tsx:127 | the user menu flips; nothing else changes |
| Navbar.Menus.CloseUserMenu | app/components/Navbar.tsx:156 | the user menu is closed; nothing else changes |
| Navbar.Menus.CloseMenu | app/components/Navbar.tsx:263 | the mobile menu is closed; nothing else changes |
| Navbar.Menus.HandleLogout | app/components/Navbar.tsx:67-72 | loading starts; both menus close once sign-out succeeds, and stay as they were if it is rejected |
| Navbar.Menus.LogoutTimerFires | app/components/Navbar.tsx:74-77 | the timer after logout ends loading and leaves the menus alone |
| Navbar.Menus.MobileLogout | app/components/Navbar.tsx:245-248 | the mobile logout button starts loading and closes the mobile menu at once; the user menu closes once sign-out succeeds |
| Middleware.Decide | middleware.ts:14-32 | a dashboard path without a session goes to the login page, and only then; an auth path with a session goes to the dashboard of the role, and only then; everything else passes through |
| Middleware.InScope | middleware.ts:35-37 | the matcher: "/dashboard" or "/auth", alone or followed by "/" and more |
| Middleware.Handle | middleware.ts:35-37 | redirects exactly as the guard decides on paths the matcher covers (a signed-out visitor of a dashboard to the login page, a signed-in visitor of an auth page to their dashboard) and passes everything else through |
| Middleware.MatcherSkipsLookalikePaths | middleware.ts:14-36 | "/dashboards" passes the guard's prefix test, but the matcher never runs the guard on it, so a signed-out visitor is let through |
| Middleware.PrefixesExclusive | middleware.ts:14-21 | no path is both a dashboard path and an auth path |
| Middleware.RedirectTargetsPrefixes | middleware.ts:16-36 | the login page is an auth path and not a dashboard path; every dashboard link is a dashboard path and not an auth path; the matcher covers both |
| Middleware.NoRedirectLoop | middleware.ts:14-36 | following a redirect to its target, read as a plain path, with the same session and any role, passes through |
| Middleware.PassThroughCases | middleware.ts:14-32 | paths outside both areas, dashboard paths with a session and auth paths without one pass through |

## Left out

- Supabase queries, authentication and `fetch` are inputs: the user, the profile, the quiz rows, the result rows and each response. On the student dashboard a not-ok response and a rejected fetch both leave the state alone, so both are `None`. On the teacher dashboard they differ, and `Fetched` has a case for each.
- The quiz query's `.not("questions", "is", null)` and its ordering by `created_at` are not modelled; the quiz rows arrive already in the order the query returns.
- StudentQuizzesRoute.ListQuizzes: the 500 answer for exceptions thrown anywhere in the handler is not modelled; only the failed quiz query gives 500.
- StudentQuizzesRoute.ResultRow: the score is a natural number; a null score in a result row is not modelled.
- Numbers are exact (reals, naturals, integers) rather than IEEE doubles. Ratios and percentages that doubles would round differently at a .5 boundary are not modelled.
- Text.UpperChar: `toUpperCase` and `toLowerCase` map ASCII letters only. Mappings outside ASCII (such as "ß" to "SS") are not modelled.
- Seqs.SortByChars: a `char` here is a Unicode scalar value, while JavaScript strings are UTF-16 code units. Outside the Basic Multilingual Plane the two differ. JavaScript sorts such a character by its high surrogate (before U+E000 to U+FFFF); the model sorts by its scalar value, which puts it after them.
- Navbar.Initials: for a name whose first character lies outside the Basic Multilingual Plane, JavaScript takes a lone surrogate as the initial; the model takes the whole character.
- StudentQuizCard.ShortId: `slice(0, 8)` counts UTF-16 code units; the model counts characters, which differs only for ids with characters outside the Basic Multilingual Plane.
- Text.Split: splits on one character only, which is the only way the code uses it.
- The navigation bar's profile loading, its auth-state subscription and the navigation to the login page after logout are not modelled. The sign-out call is an input (succeeded or rejected), and the one-second timer is a separate `LogoutTimerFires` step.
- Navbar.Menus.HandleLogout: a rejected sign-out is unhandled in the source, so loading stays on and no timer is scheduled. The model stops at that state.
- Middleware.NoRedirectLoop: the redirect target is the plain string "/dashboard/" followed by the role. `new URL` would also resolve dot segments and backslashes in it, and that is not modelled. A role such as "../auth/login" would make the real middleware send the login page to itself, over and over; the lemma does not cover that resolution.
- TeacherDashboard.Dashboard.PerformDelete: the refetch after a successful delete is a separate `FetchData` call; the toast messages are not modelled.
- Dates (`toLocaleDateString`), icons, colours, layout and every other rendering detail are left out.
- Quiz creation, editing and taking, the other API routes and the auth helper module are not part of this model.
