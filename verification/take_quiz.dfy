/** The button-driven quiz of bot/handlers/take_quiz.py: a question is shown
    as text with four answer buttons, and each press is checked against the
    quiz run's record (active quiz, current question, score so far). */
module TakeQuiz {
  import opened Text
  import opened PollQuiz

  /** `render_question`: a header "Q<n>/<total>: <text>", a blank line and
      the four lettered options, one per line. The lemma `RenderLines` below
      states that line structure; the contract here says the text starts with
      the header and holds every field. */
  function RenderQuestion(q: QuestionRow, idx: int, total: int): (r: string)
    ensures Header(q, idx, total) <= r
    ensures |r| > |q.qText| + |q.optA| + |q.optB| + |q.optC| + |q.optD|
  {
    Header(q, idx, total) + "\n\n" + "A) " + q.optA + "\n" + "B) " + q.optB + "\n"
      + "C) " + q.optC + "\n" + "D) " + q.optD
  }

  /** The first line of a rendered question. */
  function Header(q: QuestionRow, idx: int, total: int): string {
    "Q" + IntToString(idx + 1) + "/" + IntToString(total) + ": " + q.qText
  }

  /** The decimal rendering of an integer holds no separator of the formats here. */
  lemma IntToStringHasNo(n: int, c: char)
    requires c != '-' && !IsDigit(c)
    ensures c !in IntToString(n)
  {
    var s := IntToString(n);
    forall k | 0 <= k < |s|
      ensures s[k] != c
    {
    }
  }

  lemma NotInConcat(x: string, y: string, c: char)
    requires c !in x && c !in y
    ensures c !in x + y
  {
  }

  /** The header of a rendered question is a single line. */
  lemma HeaderOneLine(q: QuestionRow, idx: int, total: int)
    requires '\n' !in q.qText
    ensures '\n' !in Header(q, idx, total)
  {
    var x := IntToString(idx + 1);
    var y := IntToString(total);
    IntToStringHasNo(idx + 1, '\n');
    IntToStringHasNo(total, '\n');
    NotInConcat("Q", x, '\n');
    NotInConcat("Q" + x, "/", '\n');
    NotInConcat("Q" + x + "/", y, '\n');
    NotInConcat("Q" + x + "/" + y, ": ", '\n');
    NotInConcat("Q" + x + "/" + y + ": ", q.qText, '\n');
  }

  /** A line in front of text splits off as the first line. */
  lemma LineThen(x: string, rest: string)
    requires '\n' !in x
    ensures Split(x + "\n" + rest, '\n') == [x] + Split(rest, '\n')
  {
    SplitAppend(x, '\n', rest);
  }

  /** Splitting the four option lines. */
  lemma OptionLines(a: string, b: string, c: string, d: string)
    requires '\n' !in a && '\n' !in b && '\n' !in c && '\n' !in d
    ensures Split(a + "\n" + (b + "\n" + (c + "\n" + d)), '\n') == [a, b, c, d]
  {
    SplitNone(d, '\n');
    LineThen(c, d);
    LineThen(b, c + "\n" + d);
    LineThen(a, b + "\n" + (c + "\n" + d));
  }

  /** The rendered question as a header line followed by the rest. */
  lemma RenderShape(q: QuestionRow, idx: int, total: int)
    ensures RenderQuestion(q, idx, total) == Header(q, idx, total) + "\n" + ("\n" +
      (("A) " + q.optA) + "\n" + (("B) " + q.optB) + "\n" + (("C) " + q.optC) + "\n" + ("D) " + q.optD)))))
  {
  }

  lemma LabelOneLine(tag: string, o: string)
    requires '\n' !in tag && '\n' !in o
    ensures '\n' !in tag + o
  {
    NotInConcat(tag, o, '\n');
  }

  /** A leading newline splits off an empty first line. */
  lemma BlankLineFirst(rest: string)
    ensures Split("\n" + rest, '\n') == [""] + Split(rest, '\n')
  {
    SplitAppend("", '\n', rest);
    assert "" + "\n" + rest == "\n" + rest;
  }

  /** When neither the question nor its options hold a newline, the rendered
      question has exactly six lines: the header, a blank line, and the four
      options in order. */
  lemma RenderLines(q: QuestionRow, idx: int, total: int)
    requires '\n' !in q.qText && '\n' !in q.optA && '\n' !in q.optB && '\n' !in q.optC && '\n' !in q.optD
    ensures Split(RenderQuestion(q, idx, total), '\n') ==
      [Header(q, idx, total), "", "A) " + q.optA, "B) " + q.optB, "C) " + q.optC, "D) " + q.optD]
  {
    var h := Header(q, idx, total);
    HeaderOneLine(q, idx, total);
    var a := "A) " + q.optA;
    var b := "B) " + q.optB;
    var c := "C) " + q.optC;
    var d := "D) " + q.optD;
    LabelOneLine("A) ", q.optA);
    LabelOneLine("B) ", q.optB);
    LabelOneLine("C) ", q.optC);
    LabelOneLine("D) ", q.optD);
    var opts := a + "\n" + (b + "\n" + (c + "\n" + d));
    OptionLines(a, b, c, d);
    BlankLineFirst(opts);
    RenderShape(q, idx, total);
    LineThen(h, "\n" + opts);
  }

  /** The callback data of an answer button: "ans:<quiz_id>:<q_index>:<letter>". */
  function CallbackData(quizId: int, qIndex: int, letter: string): (r: string)
    ensures |r| > 4 && r[..4] == "ans:"
  {
    "ans:" + IntToString(quizId) + ":" + IntToString(qIndex) + ":" + letter
  }

  /** How `on_answer` reads the callback data: exactly four ":"-separated
      fields, the two middle ones read by `int()`, the last upper-cased.
      Anything else is "Bad data.". The first field is not checked here: the
      handler is only registered for data that starts with "ans:". */
  function ParseCallback(data: string): (r: Option<(int, int, string)>)
    ensures r.Some? ==> |Split(data, ':')| == 4
  {
    var parts := Split(data, ':');
    if |parts| != 4 then None
    else
      match (ParseInt(parts[1]), ParseInt(parts[2]))
      case (Some(quizId), Some(qIndex)) => Some((quizId, qIndex, UpperStr(parts[3])))
      case _ => None
  }

  /** The data of every button of `answer_kb` reads back as the quiz, the
      question and the letter it was made for. */
  lemma CallbackRoundTrip(quizId: int, qIndex: int, letter: string)
    requires letter in Letters
    ensures ParseCallback(CallbackData(quizId, qIndex, letter)) == Some((quizId, qIndex, letter))
  {
    var x := IntToString(quizId);
    var y := IntToString(qIndex);
    IntToStringHasNo(quizId, ':');
    IntToStringHasNo(qIndex, ':');
    assert ':' !in letter && UpperStr(letter) == letter;
    assert CallbackData(quizId, qIndex, letter) == "ans" + [':'] + (x + [':'] + (y + [':'] + letter));
    SplitNone(letter, ':');
    SplitAppend(y, ':', letter);
    SplitAppend(x, ':', y + [':'] + letter);
    SplitAppend("ans", ':', x + [':'] + (y + [':'] + letter));
    IntToStringRoundTrip(quizId);
    IntToStringRoundTrip(qIndex);
  }

  /** One inline button: its label and its callback data. */
  datatype Button = Button(text: string, callbackData: string)

  /** `answer_kb`: one button per letter A-D, in one row of four. */
  method AnswerKeyboard(quizId: int, qIndex: int) returns (buttons: seq<Button>)
    ensures |buttons| == 4
    ensures forall i :: 0 <= i < 4 ==> buttons[i] == Button(Letters[i], CallbackData(quizId, qIndex, Letters[i]))
    ensures buttons == KeyboardFor(quizId, qIndex)
  {
    buttons := [];
    var i := 0;
    while i < |Letters|
      invariant 0 <= i <= 4 && |buttons| == i
      invariant forall j :: 0 <= j < i ==> buttons[j] == Button(Letters[j], CallbackData(quizId, qIndex, Letters[j]))
    {
      var letter := Letters[i];
      buttons := buttons + [Button(letter, "ans:" + IntToString(quizId) + ":" + IntToString(qIndex) + ":" + letter)];
      i := i + 1;
    }
  }

  /** A button press is graded correct exactly when its letter is the
      question's stored letter, read case-insensitively. */
  lemma ButtonGrading(quizId: int, qIndex: int, letter: string, q: QuestionRow)
    requires letter in Letters
    ensures ParseCallback(CallbackData(quizId, qIndex, letter)).Some?
    ensures ParseCallback(CallbackData(quizId, qIndex, letter)).value.2 == UpperStr(q.correct) <==>
      UpperStr(q.correct) == letter
  {
    CallbackRoundTrip(quizId, qIndex, letter);
  }

  const RightMark := "\U{2705} Correct!"
  const WrongMark := "\U{274C} Wrong. Correct: "
  const InfoMark := "\U{2139}\U{FE0F} "

  /** The feedback shown after an accepted answer: a check mark exactly for a
      right answer, the right letter after a wrong one, and the explanation,
      when there is one, as the last paragraph. */
  function Feedback(right: bool, correctLetter: string, explanation: string): (r: string)
    ensures |r| > 0 && (r[0] == '\U{2705}' <==> right)
    ensures explanation == [] ==> r == (if right then RightMark else WrongMark + correctLetter)
    ensures explanation != [] ==> |r| > |explanation| + 2 && r[|r| - |explanation|..] == explanation
  {
    var head := if right then RightMark else WrongMark + correctLetter;
    if explanation != [] then head + "\n\n" + InfoMark + explanation else head
  }

  /** What the user is sent in reply to a button press. */
  datatype Reply =
    | Alert(text: string)
    | Finished(title: string, correctCount: int, total: int)
    | Next(text: string, keyboard: seq<Button>)

  const NoActiveQuiz := "No active quiz."
  const BadData := "Bad data."
  const NotActive := "This question is no longer active."

  /** The quiz-run record `on_answer` keeps in the conversation state. A key
      that is absent reads as `None` (for `correct_count`: as 0), and the
      questions as the empty list. */
  class QuizRun {
    var questions: seq<QuestionRow>
    var activeQuizId: Option<int>
    var qIndex: Option<int>
    var correctCount: int
    var total: Option<int>
    var title: Option<string>

    /** The record a run keeps: the current question exists, the total does
        not exceed the questions, and no more answers were correct than were
        given. */
    predicate Valid()
      reads this
    {
      && 0 <= correctCount
      && (qIndex.Some? ==> 0 <= qIndex.value && correctCount <= qIndex.value)
      && (qIndex.None? ==> correctCount == 0)
      && (questions != [] && qIndex.Some? ==> qIndex.value < |questions| && qIndex.value < Total())
      && (total.Some? ==> total.value <= |questions|)
    }

    /** `int(data.get("total", len(questions)))`. */
    function Total(): int
      reads this
    {
      if total.Some? then total.value else |questions|
    }

    /** A record as the start of a run leaves it: the first question, no
        correct answers. */
    constructor (questions: seq<QuestionRow>, quizId: int, title: string)
      ensures this.questions == questions && activeQuizId == Some(quizId) && qIndex == Some(0)
      ensures correctCount == 0 && total == Some(|questions|) && this.title == Some(title)
      ensures Valid()
    {
      this.questions := questions;
      activeQuizId := Some(quizId);
      qIndex := Some(0);
      correctCount := 0;
      total := Some(|questions|);
      this.title := Some(title);
    }

    /** `state.clear()`. */
    method Clear()
      modifies this
      ensures questions == [] && activeQuizId.None? && qIndex.None? && correctCount == 0
      ensures total.None? && title.None?
      ensures Valid()
    {
      questions := [];
      activeQuizId := None;
      qIndex := None;
      correctCount := 0;
      total := None;
      title := None;
    }

    /** `on_answer`. A press is rejected, with the record unchanged, when no
        quiz is running, when its data is malformed, or when it is not for
        the current question of the active quiz. Otherwise it is accepted. */
    method OnAnswer(data: string) returns (reply: Reply)
      requires Valid()
      modifies this
      ensures Valid()
      ensures old(questions) == [] ==> reply == Alert(NoActiveQuiz) && unchanged(this)
      ensures var p := ParseCallback(data);
        old(questions) != [] && p.None? ==> reply == Alert(BadData) && unchanged(this)
      ensures var p := ParseCallback(data);
        old(questions) != [] && p.Some? && (old(activeQuizId) != Some(p.value.0) || old(qIndex) != Some(p.value.1)) ==>
        reply == Alert(NotActive) && unchanged(this)
      ensures var p := ParseCallback(data);
        old(questions) != [] && p.Some? && old(activeQuizId) == Some(p.value.0) && old(qIndex) == Some(p.value.1) ==>
        Accepted(old(questions), old(correctCount), old(Total()), old(title), p.value.0, p.value.1, p.value.2, reply)
    {
      if questions == [] {
        return Alert(NoActiveQuiz);
      }
      var parsed := ParseCallback(data);
      if parsed.None? {
        return Alert(BadData);
      }
      var (quizId, qi, letter) := parsed.value;
      if activeQuizId != Some(quizId) || qIndex != Some(qi) {
        return Alert(NotActive);
      }
      reply := Accept(quizId, qi, letter);
    }

    /** What an accepted press does: one point exactly when its letter is the
        stored correct letter (read case-insensitively), then the next
        question, or after the last one the result, with the record cleared. */
    ghost predicate Accepted(questions0: seq<QuestionRow>, count0: int, total0: int, title0: Option<string>,
                             quizId: int, qi: int, letter: string, reply: Reply)
      requires 0 <= qi < |questions0| && total0 <= |questions0|
      reads this
    {
      var correctLetter := UpperStr(questions0[qi].correct);
      var count := count0 + (if letter == correctLetter then 1 else 0);
      if qi + 1 >= total0 then
        reply == Finished(if title0.Some? then title0.value else "Quiz", count, total0) &&
        questions == [] && activeQuizId.None? && qIndex.None? && correctCount == 0 && total.None? && title.None?
      else
        && reply.Next?
        && reply.keyboard == KeyboardFor(quizId, qi + 1)
        && reply.text == Feedback(letter == correctLetter, correctLetter, ExplanationOf(questions0[qi])) + "\n\n" +
                         RenderQuestion(questions0[qi + 1], qi + 1, total0)
        && questions == questions0 && activeQuizId == Some(quizId) && correctCount == count
        && qIndex == Some(qi + 1) && Total() == total0 && title == title0
    }

    /** The accepted branch of `on_answer`. */
    method Accept(quizId: int, qi: int, letter: string) returns (reply: Reply)
      requires Valid() && questions != [] && activeQuizId == Some(quizId) && qIndex == Some(qi)
      modifies this
      ensures Valid()
      ensures Accepted(old(questions), old(correctCount), old(Total()), old(title), quizId, qi, letter, reply)
    {
      var q := questions[qi];
      var correctLetter := UpperStr(q.correct);
      var right := letter == correctLetter;
      var count := correctCount;
      if right {
        count := count + 1;
      }
      var nextIndex := qi + 1;
      var tot := Total();
      if nextIndex >= tot {
        var t := if title.Some? then title.value else "Quiz";
        Clear();
        return Finished(t, count, tot);
      }
      var text := Feedback(right, correctLetter, ExplanationOf(q)) + "\n\n" +
                  RenderQuestion(questions[nextIndex], nextIndex, tot);
      var keyboard := AnswerKeyboard(quizId, nextIndex);
      correctCount := count;
      qIndex := Some(nextIndex);
      reply := Next(text, keyboard);
      assert Total() == tot;
    }
  }

  /** `(q[7] or "").strip()`. */
  function ExplanationOf(q: QuestionRow): string {
    if q.explanation.Some? then Strip(q.explanation.value) else ""
  }

  /** The buttons `answer_kb` makes, as a value. */
  function KeyboardFor(quizId: int, qIndex: int): (r: seq<Button>)
    ensures |r| == 4
  {
    seq(4, i requires 0 <= i < 4 => Button(Letters[i], CallbackData(quizId, qIndex, Letters[i])))
  }
}
