# QuizSavolBot quiz core in Dafny

A model of the quiz core of QuizSavolBot, a Telegram bot for publishing and running multiple-choice quizzes. The model covers three parts:

- **The live poll-quiz engine** (`bot/handlers/poll_quiz.py`). A quiz runs per group chat, or per user in a private chat. Its questions go out one at a time as Telegram quiz polls, each open for a clamped period. A timer moves the quiz on. Answers count only while their poll's step is current. After the last question a leaderboard is sent: users are ranked by correct answers, then by speed, and the first 15 are shown.
- **The plain-text quiz parser** (`bot/utils_parser.py`). It turns a numbered text into questions, each with options A-D, a normalised answer letter and an optional explanation. Every block it cannot read yields a line-numbered error.
- **The button-driven quiz** (`bot/handlers/take_quiz.py`). It renders a question, builds its four answer buttons and the callback data they carry, and checks each button press against the stored quiz run.

Files:

- `text.dfy` (module `Text`): the Python string operations the core relies on, over `seq<char>`. These are `str.strip`/`lstrip`/`rstrip`, ASCII `upper`/`lower`, `split` on one character, `"sep".join`, `splitlines`, `int()` and `str()` of integers.
- `poll_quiz.dfy` (module `PollQuiz`): the pure helpers of the engine. These are `_truncate`, `_session_key`, `_clamp_open_period`, `_fmt_duration` and `_to_options`, plus the `Session` record.
- `leaderboard.dfy` (module `Leaderboard`): `_build_leaderboard_text`. Its score, row and output loops are methods, each proved against specification functions. The sort is an insertion sort proved sorted and a permutation.
- `engine.dfy` (module `PollEngine`): the class `Engine`.
  - Its fields are `SESSIONS`, `POLL_INDEX` and an outbox of the messages sent and timers armed.
  - Its methods are `send_poll_question`, `_start_session`, `_send_next_or_finish`, `_schedule_next` (as the timer firing), `on_poll_answer` and `stop_quiz`.
  - Two scenario methods show how steps decide races.
- `quiz_parser.dfy` (module `QuizParser`):
  - the two line regexes and `norm_answer`;
  - a recursive specification of `parse_quiz_text` over the stripped lines;
  - the loop-by-loop methods, each proved equal to that specification;
  - the properties of the parse.
- `take_quiz.dfy` (module `TakeQuiz`): `render_question`, `answer_kb` and `on_answer`. The quiz-run record of `on_answer` is the class `QuizRun`.

Time, Telegram, the database and the event loop are parameters. The poll id and message id that Telegram returns are arguments of the engine's methods. The current time is an argument of `OnPollAnswer`. The quiz found for a code, its questions and the user's time limit are arguments of `Start`. Sent messages and armed timers are appended to `outbox`.

## Model

| member | source | states |
|---|---|---|
| Text.Strip | bot/handlers/poll_quiz.py:63 | `str.strip()`: the result has no whitespace at either end and is no longer than the input |
| Text.StripEmpty | bot/utils_parser.py:22 | a text strips to nothing exactly when it is blank (the `not text.strip()` test) |
| Text.StripIdempotent | bot/handlers/poll_quiz.py:164 | stripping twice is stripping once, so the second `.strip()` on a truncated explanation changes nothing |
| Text.StripPadded | bot/utils_parser.py:58 | surrounding whitespace does not change the stripped text |
| Text.UpperStr | bot/handlers/take_quiz.py:44 | `str.upper()` maps each character and keeps the length |
| Text.Split | bot/handlers/take_quiz.py:41 | `split(":")` yields at least one part and no part holds the separator |
| Text.SplitAppend | bot/handlers/take_quiz.py:41 | splitting `a + sep + b` gives `a` followed by the split of `b` when `a` has no separator |
| Text.SplitLines | bot/utils_parser.py:25 | `splitlines()` yields lines without line-break characters |
| Text.SplitLinesBlank | bot/utils_parser.py:22-25 | every line of a blank text is blank |
| Text.ParseInt | bot/handlers/take_quiz.py:42-43 | `int()` on text succeeds only on non-blank text (optional sign, digit groups separated by single underscores, surrounding whitespace) |
| Text.IntToStringRoundTrip | bot/handlers/take_quiz.py:27 | `int(str(n)) == n` for every integer |
| Text.NatToStringValue | bot/handlers/poll_quiz.py:109 | the decimal digits of `str(n)` have the value `n` |
| PollQuiz.Head | bot/handlers/poll_quiz.py:66 | Python slice `t[:n]`, including negative `n`: a prefix of `t` |
| PollQuiz.Truncate | bot/handlers/poll_quiz.py:62-66 | a stripped text that fits is returned unchanged |
| PollQuiz.TruncateFacts | bot/handlers/poll_quiz.py:62-66 | the result is at most `limit + 2` long, is empty exactly for blank text, and is already stripped |
| PollQuiz.TruncateOverflow | bot/handlers/poll_quiz.py:66 | a text over the limit comes out exactly `limit + 2` long, because the marker is three characters |
| PollQuiz.SessionKeyFor | bot/handlers/poll_quiz.py:69-72 | the key is per chat for "group"/"supergroup" and per (chat, user) otherwise |
| PollQuiz.SessionKeyShared | bot/handlers/poll_quiz.py:69-72 | two starts share a session exactly when both are in the same group chat, or both are by the same user in the same non-group chat |
| PollQuiz.ClampOpenPeriod | bot/handlers/poll_quiz.py:75-81 | the result lies in 5..600, equals the input inside that range, and is the nearer bound outside it |
| PollQuiz.ClampIdempotent | bot/handlers/poll_quiz.py:75-81 | clamping a clamped period changes nothing |
| PollQuiz.FmtDuration | bot/handlers/poll_quiz.py:84-87 | minutes and seconds (< 60) recombine to the duration, with a negative duration read as zero |
| PollQuiz.CorrectIndex | bot/handlers/poll_quiz.py:158-161 | the correct option index is always in 0..3 |
| PollQuiz.CorrectIndexLetter | bot/handlers/poll_quiz.py:158-161 | a stored letter A-D (any case, surrounding whitespace) selects its own option; anything else selects option 0 |
| PollQuiz.RawOption | bot/handlers/poll_quiz.py:144-152 | an option is its truncation to 97, or "-" when blank; never empty |
| PollQuiz.Labelled | bot/handlers/poll_quiz.py:154-155 | an option is its label followed by the raw option |
| PollQuiz.LabelledOptions | bot/handlers/poll_quiz.py:144-155 | four options, labelled "A) ".."D) " in order, each at most 3 + 97 + 2 characters |
| PollQuiz.ExplanationText | bot/handlers/poll_quiz.py:164-166 | an explanation is dropped exactly when blank, otherwise truncated to 200 |
| PollQuiz.PollExplanation | bot/handlers/poll_quiz.py:164-166 | a missing explanation reads as "", so it is dropped |
| PollQuiz.ToOptions | bot/handlers/poll_quiz.py:139-171 | the poll's text (or "Question" when blank), its four labelled options, its correct index and its optional explanation, each tied to the stored row |
| PollQuiz.NewSession | bot/handlers/poll_quiz.py:32-52 | a new session starts at question 0 and step 0, with every map empty |
| Leaderboard.ScoreBounds | bot/handlers/poll_quiz.py:96-105 | a score never exceeds the number of scored steps, and a user with points is a participant |
| Leaderboard.TallyStep | bot/handlers/poll_quiz.py:101-105 | after one step's answers, each answering user has an entry, one point higher exactly when they chose the correct index |
| Leaderboard.ComputeScores | bot/handlers/poll_quiz.py:94-105 | the scores hold exactly the users who answered a scored step, each with the number of steps they got right |
| Leaderboard.ScoresAfterStep | bot/handlers/poll_quiz.py:96-105 | one pass of the inner loop extends the per-user counts from the steps done to those steps plus one |
| Leaderboard.DisplayName | bot/handlers/poll_quiz.py:109 | the stored display name, else `str(uid)`, which reads back as the uid |
| Leaderboard.Latency | bot/handlers/poll_quiz.py:110-112 | last minus first answer time, or 10**9 when either is missing |
| Leaderboard.BuildRows | bot/handlers/poll_quiz.py:107-113 | one row per scored user, each with the user's name, score and latency |
| Leaderboard.Insert | bot/handlers/poll_quiz.py:116 | inserting adds exactly one row to the multiset of rows |
| Leaderboard.InsertSorted | bot/handlers/poll_quiz.py:116 | inserting into a sorted list keeps it sorted by (-correct, latency) |
| Leaderboard.SortRows | bot/handlers/poll_quiz.py:116 | the sort yields a permutation of the rows, ordered by more correct answers first, then lower latency |
| Leaderboard.RankingsAgree | bot/handlers/poll_quiz.py:116 | any two rankings of a session agree on score and latency at every place, so only tied rows may swap |
| Leaderboard.RankingTop | bot/handlers/poll_quiz.py:115-116 | the first row holds the best score of the session |
| Leaderboard.RankPrefix | bot/handlers/poll_quiz.py:124-131 | places 1, 2 and 3 get the three medals; every later place gets its number |
| Leaderboard.EntryFor | bot/handlers/poll_quiz.py:130-132 | a shown line carries the row's name and score and its latency as minutes and seconds |
| Leaderboard.Shown | bot/handlers/poll_quiz.py:130-132 | the first min(rows, 15) rows are shown, numbered from 1, with medals exactly on the first three |
| Leaderboard.ShowEntries | bot/handlers/poll_quiz.py:130-132 | the output loop produces exactly the shown entries |
| Leaderboard.Present | bot/handlers/poll_quiz.py:118-136 | the message carries the title and question count, and the "no answers yet" form exactly when there are no rows |
| Leaderboard.BuildLeaderboard | bot/handlers/poll_quiz.py:90-136 | the rows are a full ranking of the session and the message is built from them |
| Leaderboard.ShownFromRanking | bot/handlers/poll_quiz.py:126-132 | each shown entry is a participant's name and score, and scores never increase down the list |
| Leaderboard.LeaderboardShows | bot/handlers/poll_quiz.py:90-136 | "no answers" exactly when nobody answered a scored step; otherwise min(participants, 15) entries, medals on the first three, each a participant's name and score, non-increasing, best score first |
| PollEngine.PollContent | bot/handlers/poll_quiz.py:213-217 | the poll carries `_to_options`' options, correct index and explanation, and a non-empty title "<n>. <question>" cut to the question limit |
| PollEngine.NumberedQuestion | bot/handlers/poll_quiz.py:217 | a numbered question that fits is sent exactly as "<n>. <question>" |
| PollEngine.Dispatched | bot/handlers/poll_quiz.py:231-235 | sending advances the step by one and records that step's correct index; nothing else changes |
| PollEngine.DispatchedLive | bot/handlers/poll_quiz.py:231-235 | after sending, the session's current step has a known correct index |
| PollEngine.AnswerName | bot/handlers/poll_quiz.py:341 | "@username" when there is a username, else the full name, else "User" |
| PollEngine.Chosen | bot/handlers/poll_quiz.py:333 | the first option id, or -1 for a retracted vote |
| PollEngine.Recorded | bot/handlers/poll_quiz.py:335-345 | the answer overwrites that user's earlier one in that step, the name is replaced, the first time is kept, the last time is now; nothing else changes |
| PollEngine.RecordedLive | bot/handlers/poll_quiz.py:335-345 | recording an answer keeps every answering user timed |
| PollEngine.LaterAnswerWins | bot/handlers/poll_quiz.py:336-345 | of two answers to one step the later choice, name and time win, and the first time stays |
| PollEngine.RecordedOtherScores | bot/handlers/poll_quiz.py:336 | recording one user's answer leaves every other user's score unchanged |
| PollEngine.ParticipantsTimed | bot/handlers/poll_quiz.py:110-112 | in a running session every participant has both timestamps, so the 10**9 fallback never applies |
| PollEngine.AllLiveUpdate | bot/handlers/poll_quiz.py:278 | storing a live session keeps every registered session live |
| PollEngine.AllLiveRemove | bot/handlers/poll_quiz.py:204 | dropping a session keeps the others live |
| PollEngine.Engine.SendPollQuestion | bot/handlers/poll_quiz.py:210-239 | sends the current question's poll, stores the session one step on, indexes the poll under the new step, and arms a timer for the clamped period |
| PollEngine.Engine.Start | bot/handlers/poll_quiz.py:242-281 | an unknown quiz, an empty quiz and a key already running each give their message and change nothing else; otherwise a new session is announced, stored and its first poll sent |
| PollEngine.Engine.Launch | bot/handlers/poll_quiz.py:278-281 | a new session is registered, announced with its time limit, and its first question is sent as step 1 |
| PollEngine.Engine.SendNextOrFinish | bot/handlers/poll_quiz.py:191-207 | a missing session is ignored; past the last question a leaderboard for the session is sent and the session dropped; otherwise the next question is sent |
| PollEngine.Engine.Advance | bot/handlers/poll_quiz.py:199-207 | the quiz moves to its next question, which is sent |
| PollEngine.Engine.Finish | bot/handlers/poll_quiz.py:201-205 | the results message is a leaderboard of the session; the session is dropped and the poll index kept |
| PollEngine.Engine.TimerFire | bot/handlers/poll_quiz.py:174-188 | a timer of a dropped session or of an older step does nothing; otherwise the quiz moves on as in `_send_next_or_finish` |
| PollEngine.Engine.OnPollAnswer | bot/handlers/poll_quiz.py:317-348 | answers to unknown polls, dropped sessions or earlier steps are ignored; otherwise the answer is recorded under the poll's step |
| PollEngine.Engine.Stop | bot/handlers/poll_quiz.py:371-381 | the caller's session, if any, is dropped with its step bumped and "stopped" is said; otherwise "nothing to stop" is said and nothing changes |
| PollEngine.TimerBeatsLateAnswer | bot/handlers/poll_quiz.py:329-330 | once a timer moved the quiz on, a late answer to the old poll is ignored, an earlier one stays, and the same timer firing again does nothing |
| PollEngine.RestartRevivesOldPoll | bot/handlers/poll_quiz.py:380 | a quiz restarted under the same key counts steps from 1 again, so a vote on the stopped run's first poll is recorded in the new run |
| PollEngine.RestartStaleTimerAdvances | bot/handlers/poll_quiz.py:174-185 | after a restart under the same key, the stopped run's pending timer for step 1 passes the step check and moves the new run to its second question |
| QuizParser.Message | bot/utils_parser.py:92-111 | the four error messages, with their line numbers, word for word |
| QuizParser.QuestionText | bot/utils_parser.py:64-69 | a question text exists exactly for lines the question regex accepts |
| QuizParser.QuestionTextNotEmpty | bot/utils_parser.py:28 | the `(.+)` group of an accepted stripped line is not empty after stripping |
| QuizParser.OptionLine | bot/utils_parser.py:83-88 | an option exists exactly for lines the option regex accepts, and its key is an upper-case A-D |
| QuizParser.OptionTextNotEmpty | bot/utils_parser.py:29 | an accepted stripped option line has a non-empty option text |
| QuizParser.StartIsNotOption | bot/utils_parser.py:28-29 | no line is both a question start and an option |
| QuizParser.NumberedLine | bot/utils_parser.py:28 | "<n>. <text>" is a question start whose text is `text` |
| QuizParser.LetteredLine | bot/utils_parser.py:29 | "<letter>) <text>" in either case is the option of the upper-case letter with text `text` |
| QuizParser.DropAnswerWord | bot/utils_parser.py:33 | removing a leading answer word never lengthens the text |
| QuizParser.DropOptionNumber | bot/utils_parser.py:34 | removing a leading "answer option number" never lengthens the text |
| QuizParser.CleanedHasNoMarks | bot/utils_parser.py:35 | the cleaned answer holds no ")" and no "." |
| QuizParser.AnswerOf | bot/utils_parser.py:36-52 | an accepted answer is one of A, B, C, D |
| QuizParser.NormAnswer | bot/utils_parser.py:31-52 | `norm_answer` yields only A, B, C or D |
| QuizParser.AnswerOfAccepts | bot/utils_parser.py:36-52 | a cleaned answer is accepted exactly when it is one letter A-D (either case) or one digit 1-4; letters map to their upper case, digits 1..4 to A..D |
| QuizParser.NormAnswerLetter | bot/utils_parser.py:39-41 | a bare letter answer normalises to its upper case |
| QuizParser.NormAnswerDigit | bot/utils_parser.py:43-45 | a bare digit answer 1-4 normalises to A-D |
| QuizParser.AnswerLabelled | bot/utils_parser.py:33 | "Answer: X" normalises like "X" |
| QuizParser.NormAnswerForms | bot/utils_parser.py:31-52 | an answer word (answer, ans, correct, javob in any case) with ":", "-" or no mark, and a trailing ")" or ".", never change the answer: "Answer: C)" reads as "C", and "3." as "3" |
| QuizParser.OptionNumberAfterAnswerWord | bot/utils_parser.py:33-34 | the option-number pattern applies once the answer word is cut: "Answer answer option number X" reads as "X" |
| QuizParser.OptionNumberThree | bot/utils_parser.py:33-45 | "Answer answer option number 3" normalises to "C" |
| QuizParser.OptionNumberPattern | bot/utils_parser.py:34 | "answer option number" in any case, followed by the answer, is removed in full |
| QuizParser.OptionNumberFormRejected | bot/utils_parser.py:13 | the documented form "Answer Option Number: 2" is rejected by the code |
| QuizParser.StripAll | bot/utils_parser.py:58 | every line is read stripped |
| QuizParser.SkipBlankFirst | bot/utils_parser.py:101-102 | skipping blanks stops at the first non-blank line |
| QuizParser.SkipToQuestionFirst | bot/utils_parser.py:95-96 | skipping stops at the first question start |
| QuizParser.ReadOptionsGood | bot/utils_parser.py:76-91 | every option read from stripped lines is non-empty |
| QuizParser.CollectExplanationEnd | bot/utils_parser.py:131-142 | explanation reading stops exactly at the next question start |
| QuizParser.ExplanationOf | bot/utils_parser.py:144 | an explanation is the stripped newline-join of its parts, and is absent when that is empty |
| QuizParser.ExplanationAfter | bot/utils_parser.py:119-144 | reading the explanation never moves backwards and stays within the lines |
| QuizParser.AnswerBlock | bot/utils_parser.py:99-117 | after the answer line the scan has moved forward, unless the answer line is missing |
| QuizParser.ReadBlock | bot/utils_parser.py:64-156 | reading a question block always moves past its first line, unless the answer line is missing |
| QuizParser.AnswerBlockFacts | bot/utils_parser.py:99-156 | an accepted block holds its question, its options and a normalised answer; a rejected one reports the answer line when `norm_answer` fails on it; an unfinished one reports a missing answer at the question's line |
| QuizParser.ReadBlockWellFormed | bot/utils_parser.py:146-156 | every accepted question has non-empty text and options, an answer A-D, and a non-empty explanation if any |
| QuizParser.ReadBlockPointsAt | bot/utils_parser.py:93-111 | every error of a block names a line of the input (a question start, or the offending answer line) |
| QuizParser.ScanWellFormed | bot/utils_parser.py:57-156 | every question the parse returns is well formed |
| QuizParser.ScanPointsAt | bot/utils_parser.py:57-156 | every error the parse returns points at a real line of the input |
| QuizParser.BlockPointsAt | bot/utils_parser.py:69-116 | the errors after a question start still point at real lines |
| QuizParser.BlockWellFormed | bot/utils_parser.py:69-156 | the questions after a question start are still well formed |
| QuizParser.ScanAppends | bot/utils_parser.py:93 | the parse only appends to the questions and errors found so far |
| QuizParser.ScanKeepsQuestions | bot/utils_parser.py:146-156 | the questions found so far stay a prefix of the parse's questions |
| QuizParser.ScanKeepsErrors | bot/utils_parser.py:93-111 | the errors found so far stay a prefix of the parse's errors |
| QuizParser.FourOptions | bot/utils_parser.py:76-91 | four option lines A, B, C, D in a row fill all four options and stop right after them |
| QuizParser.NoExplanation | bot/utils_parser.py:126-128 | an answer followed by the end or a question start has no explanation |
| QuizParser.OneExplanation | bot/utils_parser.py:130-144 | a single explanation line before the end or the next question is the explanation |
| QuizParser.BlockAccepted | bot/utils_parser.py:69-156 | a question line, four option lines and an accepted answer line make one accepted question with exactly those fields |
| QuizParser.ScanBlock | bot/utils_parser.py:57-156 | a complete six-line block followed by the end or a question start adds its question, with no explanation, and the parse goes on after it |
| QuizParser.ScanExplainedBlock | bot/utils_parser.py:57-156 | a complete block with one explanation line adds its question with that explanation, and the parse goes on after it |
| QuizParser.ScanQuestionLines | bot/utils_parser.py:57-156 | the written form "<n>. q", "A) a" .. "D) d", "Answer: X" is read as the question (q, a, b, c, d) with X's normalised answer |
| QuizParser.ScanExplainedLines | bot/utils_parser.py:57-156 | the same form followed by "Explanation: e" is read with explanation e |
| QuizParser.ParseOneBlock | bot/utils_parser.py:5-158 | a text that is exactly one such block parses to that one question and no errors |
| QuizParser.ScanMissingOptions | bot/utils_parser.py:76-97 | fewer than four option lines before a non-option line or the end give "Missing options" at the question's line, and the parse resumes at the next question start |
| QuizParser.MissingAnswerLast | bot/utils_parser.py:104-106 | a "Missing Answer line" error can only be the last error |
| QuizParser.StartsShrink | bot/utils_parser.py:57-67 | fewer question starts lie further down the text |
| QuizParser.ScanCount | bot/utils_parser.py:57-156 | the parse yields at most one question or error per question start |
| QuizParser.PreambleIgnored | bot/utils_parser.py:63-67 | lines before the first question start are ignored |
| QuizParser.Parse | bot/utils_parser.py:22-23 | an empty or blank text gives no questions and the single error "Empty file." |
| QuizParser.ParseFacts | bot/utils_parser.py:5-158 | blank text gives "Empty file."; every question is well formed; every error points at a real line; "Missing Answer line" is only ever last |
| QuizParser.ParseQuizText | bot/utils_parser.py:19-26 | the imperative parse computes exactly the specified parse |
| QuizParser.ScanLines | bot/utils_parser.py:57-67 | the main loop computes the specified scan of the stripped lines |
| QuizParser.ReadQuestionBlock | bot/utils_parser.py:69-97 | reading one block computes the specified block |
| QuizParser.ReadAnswer | bot/utils_parser.py:99-117 | the answer part computes the specified answer block |
| QuizParser.ReadExplanation | bot/utils_parser.py:119-144 | the explanation part computes the specified explanation and the next position |
| QuizParser.ReadOptionsLoop | bot/utils_parser.py:76-91 | the option loop computes the specified option scan |
| QuizParser.SkipBlankLoop | bot/utils_parser.py:101-102 | the blank-skipping loop stops where the specification does |
| QuizParser.SkipToQuestionLoop | bot/utils_parser.py:95-96 | the skip-to-question loop stops where the specification does |
| QuizParser.CollectExplanationLoop | bot/utils_parser.py:131-142 | the explanation loop computes the specified position and lines |
| TakeQuiz.RenderQuestion | bot/handlers/take_quiz.py:11-20 | the message opens with the header "Q<n>/<total>: <text>" and is longer than the text and the four options together |
| TakeQuiz.RenderLines | bot/handlers/take_quiz.py:14-20 | for single-line fields the message is exactly six lines: "Q<n>/<total>: <text>", a blank line, then "A) a" .. "D) d" |
| TakeQuiz.CallbackData | bot/handlers/take_quiz.py:27 | the callback data starts with "ans:" |
| TakeQuiz.ParseCallback | bot/handlers/take_quiz.py:40-47 | data is accepted only when it has exactly four ":"-separated fields |
| TakeQuiz.CallbackRoundTrip | bot/handlers/take_quiz.py:41-44 | the data of each button reads back as its quiz id, question index and letter |
| TakeQuiz.ButtonGrading | bot/handlers/take_quiz.py:55-59 | a pressed button is graded correct exactly when its letter is the stored correct letter in upper case |
| TakeQuiz.AnswerKeyboard | bot/handlers/take_quiz.py:23-29 | four buttons A-D in order, each labelled with its letter and carrying its callback data |
| TakeQuiz.KeyboardFor | bot/handlers/take_quiz.py:23-29 | an answer keyboard has four buttons |
| TakeQuiz.Feedback | bot/handlers/take_quiz.py:59-66 | the check mark exactly for a right answer, the right letter after a wrong one, and the explanation as the last paragraph when there is one |
| TakeQuiz.QuizRun.Clear | bot/handlers/take_quiz.py:83 | every key of the record is gone |
| TakeQuiz.QuizRun.OnAnswer | bot/handlers/take_quiz.py:31-94 | no quiz, malformed data and a stale question each give their alert and leave the record unchanged; otherwise the press is scored: after the last question the result with the record cleared, else the feedback followed by the next rendered question, that question's four buttons, and the record one question further with everything else kept |
| TakeQuiz.QuizRun.Accept | bot/handlers/take_quiz.py:54-94 | one point exactly for the right letter; after the last question the result (title or "Quiz", score, total) with the record cleared; otherwise the next question with feedback and its keyboard, the index one further |

## Left out

- Telegram, aiogram, the event loop, logging and the database are left out. Their results are parameters. Router registration and filters are not modelled: the `ans:` prefix filter of `on_answer` and the `pq_start:` prefix.
- The command handlers `start_poll_from_button`, `start_quiz_in_group` and `start_anywhere` only parse a code from the message and call `_start_session`, which is modelled as `PollEngine.Engine.Start`. Lines 284-291 of `bot/handlers/poll_quiz.py` are a body without a function header; they are not modelled.
- Concurrency is not modelled. Each handler and each timer firing is one atomic call. The sleep of `_schedule_next` is the gap between events, and `TimerFire` is the moment it ends. A failed `send_poll` or a raised exception is not modelled.
- Timestamps are whole seconds (`nat`), not floats. `_fmt_duration` is modelled on whole seconds and yields the (minutes, seconds) pair rather than its Russian text.
- Several display texts are modelled as structure rather than strings: the leaderboard message, the medals, "Starting", "quiz not found", "no questions", "already running", "stopped" and "nothing to stop". These texts are mis-encoded in the source (UTF-8 read back as Mac Roman).
- The truncation marker is kept as the three characters that stand in the source. A truncated text is therefore `limit + 2` long, not `limit` (`PollQuiz.TruncateOverflow`). A labelled option can then reach 102 characters, two more than Telegram's 100. The model keeps the source's behaviour and does not correct it.
- Leaderboard ties: Python's stable sort over a dict's insertion order decides the order of rows with equal score and latency. Sets have no order here, so `Leaderboard.IsLeaderboard` admits every order of tied rows (`Leaderboard.RankingsAgree` shows that only tied rows can differ).
- `PollEngine.Engine.SendNextOrFinish` builds the leaderboard from the session before `q_index += 1`. The board does not depend on `q_index`, so it is the same board.
- `Session` is a value in `SESSIONS`, not a shared object. The only aliasing in the source is `stop_quiz` bumping `step_id` on the popped session, which nothing reads afterwards. `PollEngine.Engine.Stop` returns the bumped session instead.
- Character classes: `\s` and `str.isspace` use the Unicode whitespace list. `\d` and `int()` digits, `upper`/`lower` and `re.IGNORECASE` are ASCII only. Non-ASCII digits and case mappings are not modelled.
- Regexes are applied to single lines, which never hold a line break after `splitlines()`.
- QuizParser.OptionNumberFormRejected: the docstring of `parse_quiz_text` lists "Answer Option Number: 2" as a supported answer. The code's first substitution removes "Answer" and leaves "Option Number: 2", which is rejected. The model follows the code.
- QuizParser.PointsAt: for a rejected answer it states only that the error names a non-empty line and quotes it. That `norm_answer` fails on that line is stated by `QuizParser.AnswerBlockFacts`.
- PollEngine.Engine.Valid: it keeps each session's current step tied to a known correct index, but not to `CorrectIndex` of the current question (`PollEngine.Dispatched` states that tie when the question is sent).
- TakeQuiz.QuizRun.constructor: the handler that stores the quiz-run record for `on_answer` is not part of this model. The constructor stands for a run at its first question with no correct answers.
- TakeQuiz.QuizRun.Valid: it requires the stored question index to lie within the questions and below the total, with the total at most the number of questions. `on_answer` would raise on an index outside the list. That crash is not modelled.
- TakeQuiz.QuizRun.Accept: the score percentage `round(correct / total * 100)` is a float computation and is not modelled. `Finished` carries the title, the count and the total.
- The removal of the old keyboard (`edit_reply_markup`) and the empty `cb.answer()` are Telegram side effects and are not modelled.
- `bot/db.py` is not part of this model; rows come in as `PollQuiz.QuestionRow` values whose columns other than `explanation` are never NULL.
