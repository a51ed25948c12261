/** Pure helpers of the live poll quiz (bot/handlers/poll_quiz.py): text limits,
    session keys, the open-period clamp, duration formatting, and the
    normalisation of a stored question into a four-option quiz poll. */
module PollQuiz {
  import opened Text

  /** The truncation marker as it stands in the source file: the UTF-8 bytes of
      a horizontal ellipsis read back as three Mac Roman characters. */
  const Ellipsis: string := "\U{201A}\U{C4}\U{B6}"

  const QuestionLimit := 300
  const OptionLimit := 97
  const ExplanationLimit := 200

  /** Python `t[:n]`: a negative `n` counts from the end. */
  function Head(t: string, n: int): (r: string)
    ensures 0 <= n <= |t| ==> r == t[..n]
    ensures |r| <= |t| && r == t[..|r|]
  {
    if n >= 0 then t[..if n <= |t| then n else |t|]
    else t[..if -n <= |t| then |t| + n else 0]
  }

  /** `_truncate`: strip, then keep the text if it fits, else cut it to
      `maxLen - 1` characters and append the marker. */
  function Truncate(text: string, maxLen: int): (r: string)
    ensures |Strip(text)| <= maxLen ==> r == Strip(text)
  {
    var t := Strip(text);
    if |t| <= maxLen then t else Head(t, maxLen - 1) + Ellipsis
  }

  /** What callers rely on: the bound, emptiness exactly for blank text, and
      a result with no surrounding whitespace. */
  lemma TruncateFacts(text: string, maxLen: int)
    requires maxLen >= 1
    ensures |Truncate(text, maxLen)| <= maxLen + 2
    ensures Truncate(text, maxLen) == [] <==> IsBlank(text)
    ensures Strip(Truncate(text, maxLen)) == Truncate(text, maxLen)
  {
    var t := Strip(text);
    var r := Truncate(text, maxLen);
    StripEmpty(text);
    assert |Ellipsis| == 3;
    if |t| <= maxLen {
      StripIdempotent(text);
    } else {
      assert r[|r| - 1] == Ellipsis[2];
      assert r[0] == (if maxLen == 1 then Ellipsis[0] else t[0]);
      StripTrimmed(r);
    }
  }

  /** With the three-character marker a truncated text is two characters longer
      than the limit it was cut for. */
  lemma TruncateOverflow(text: string, maxLen: int)
    requires maxLen >= 1 && |Strip(text)| > maxLen
    ensures |Truncate(text, maxLen)| == maxLen + 2
  {
  }

  /** A session runs per group chat, or per user in a private chat. */
  datatype SessionKey = Group(chatId: int) | Private(chatId: int, userId: int)

  /** `_session_key`. */
  function SessionKeyFor(chatType: string, chatId: int, userId: int): (k: SessionKey)
    ensures k.chatId == chatId
    ensures k.Group? <==> chatType == "group" || chatType == "supergroup"
    ensures k.Private? ==> k.userId == userId
  {
    if chatType == "group" || chatType == "supergroup" then Group(chatId) else Private(chatId, userId)
  }

  /** Two starts share a session exactly when they come from the same group
      chat, or from the same user in the same non-group chat. */
  lemma SessionKeyShared(t1: string, c1: int, u1: int, t2: string, c2: int, u2: int)
    ensures SessionKeyFor(t1, c1, u1) == SessionKeyFor(t2, c2, u2) <==>
      c1 == c2 &&
      (t1 == "group" || t1 == "supergroup") == (t2 == "group" || t2 == "supergroup") &&
      ((t1 == "group" || t1 == "supergroup") || u1 == u2)
  {
  }

  /** `_clamp_open_period`: Telegram accepts open periods of 5..600 seconds. */
  function ClampOpenPeriod(seconds: int): (r: int)
    ensures 5 <= r <= 600
    ensures 5 <= seconds <= 600 ==> r == seconds
    ensures seconds < 5 ==> r == 5
    ensures seconds > 600 ==> r == 600
  {
    if seconds < 5 then 5
    else if seconds > 600 then 600
    else seconds
  }

  lemma ClampIdempotent(seconds: int)
    ensures ClampOpenPeriod(ClampOpenPeriod(seconds)) == ClampOpenPeriod(seconds)
  {
  }

  datatype Duration = Duration(minutes: nat, seconds: nat)

  /** `_fmt_duration` over whole seconds: negative durations count as zero,
      the rest is split into minutes and seconds. */
  function FmtDuration(sec: int): (r: Duration)
    ensures r.seconds < 60
    ensures r.minutes * 60 + r.seconds == (if sec < 0 then 0 else sec)
  {
    var s: nat := if sec < 0 then 0 else sec;
    Duration(s / 60, s % 60)
  }

  /** A row of the `questions` table: (id, q_text, opt_a..opt_d, correct, explanation).
      All columns but `explanation` are NOT NULL. */
  datatype QuestionRow = QuestionRow(
    id: int, qText: string,
    optA: string, optB: string, optC: string, optD: string,
    correct: string, explanation: Option<string>)

  /** What is sent as a quiz poll for one question. */
  datatype PollQuestion = PollQuestion(text: string, options: seq<string>, correctIndex: nat, explanation: Option<string>)

  const Letters: seq<string> := ["A", "B", "C", "D"]
  const OptionLabels: seq<string> := ["A) ", "B) ", "C) ", "D) "]

  /** The letter-to-index lookup of `_to_options`: A..D give 0..3, anything else 0. */
  function CorrectIndex(correct: string): (i: nat)
    ensures i < 4
  {
    var l := UpperStr(Strip(correct));
    if l == "A" then 0 else if l == "B" then 1 else if l == "C" then 2 else if l == "D" then 3 else 0
  }

  /** The index names the stored letter, read case-insensitively and ignoring
      surrounding whitespace; an unknown letter falls back to the first option. */
  lemma CorrectIndexLetter(correct: string)
    ensures var l := UpperStr(Strip(correct)); var i := CorrectIndex(correct);
      (l in Letters ==> Letters[i] == l) && (l !in Letters ==> i == 0)
  {
  }

  /** One answer option without its label: truncated, "-" when empty. */
  function RawOption(o: string): (r: string)
    ensures r != [] && |r| <= OptionLimit + 2
    ensures IsBlank(o) ==> r == "-"
    ensures !IsBlank(o) ==> r == Truncate(o, OptionLimit)
  {
    TruncateFacts(o, OptionLimit);
    var t := Truncate(o, OptionLimit);
    if t == [] then "-" else t
  }

  /** One option with its letter label in front. */
  function Labelled(tag: string, o: string): (r: string)
    requires |tag| == 3
    ensures |r| > 3 && r[..3] == tag && r[3..] == RawOption(o) && |r| <= 3 + OptionLimit + 2
  {
    tag + RawOption(o)
  }

  /** The four labelled options of `_to_options`. */
  function LabelledOptions(q: QuestionRow): (opts: seq<string>)
    ensures |opts| == 4
    ensures forall i :: 0 <= i < 4 ==>
      |opts[i]| > 3 && opts[i][..3] == OptionLabels[i] && |opts[i]| <= 3 + OptionLimit + 2
    ensures opts[0][3..] == RawOption(q.optA) && opts[1][3..] == RawOption(q.optB)
    ensures opts[2][3..] == RawOption(q.optC) && opts[3][3..] == RawOption(q.optD)
  {
    var a := Labelled("A) ", q.optA);
    var b := Labelled("B) ", q.optB);
    var c := Labelled("C) ", q.optC);
    var d := Labelled("D) ", q.optD);
    var opts := [a, b, c, d];
    assert forall i :: 0 <= i < 4 ==> |opts[i]| > 3 && opts[i][..3] == OptionLabels[i] && |opts[i]| <= 3 + OptionLimit + 2 by {
      forall i | 0 <= i < 4 ensures |opts[i]| > 3 && opts[i][..3] == OptionLabels[i] && |opts[i]| <= 3 + OptionLimit + 2 {
        if i == 0 {} else if i == 1 {} else if i == 2 {} else {}
      }
    }
    opts
  }

  /** A present explanation: truncated, dropped when it strips to nothing. */
  function ExplanationText(x: string): (e: Option<string>)
    ensures e.None? <==> IsBlank(x)
    ensures e.Some? ==> e.value == Truncate(x, ExplanationLimit) && |e.value| <= ExplanationLimit + 2
  {
    var t := Truncate(x, ExplanationLimit);
    // the truncated text is already stripped, so the second strip keeps it
    assert |t| <= ExplanationLimit + 2 && (t == [] <==> IsBlank(x)) by { TruncateFacts(x, ExplanationLimit); }
    if t == [] then None else Some(t)
  }

  /** The explanation of `_to_options`; a missing one reads as "". */
  function PollExplanation(explanation: Option<string>): (e: Option<string>)
    ensures explanation.None? ==> e.None?
    ensures explanation.Some? ==> e == ExplanationText(explanation.value)
  {
    match explanation
    case None => None
    case Some(x) => ExplanationText(x)
  }

  /** `_to_options`. */
  function ToOptions(q: QuestionRow): (p: PollQuestion)
    ensures |p.options| == 4
    ensures forall i :: 0 <= i < 4 ==>
      |p.options[i]| > 3 && p.options[i][..3] == OptionLabels[i] && |p.options[i]| <= 3 + OptionLimit + 2
    ensures p.options[0][3..] == RawOption(q.optA) && p.options[1][3..] == RawOption(q.optB)
    ensures p.options[2][3..] == RawOption(q.optC) && p.options[3][3..] == RawOption(q.optD)
    ensures p.correctIndex < 4 && p.correctIndex == CorrectIndex(q.correct)
    ensures IsBlank(q.qText) ==> p.text == "Question"
    ensures !IsBlank(q.qText) ==> p.text == Truncate(q.qText, QuestionLimit)
    ensures p.explanation.None? <==> q.explanation.None? || IsBlank(q.explanation.value)
    ensures p.explanation.Some? ==>
      p.explanation.value == Truncate(q.explanation.value, ExplanationLimit) &&
      |p.explanation.value| <= ExplanationLimit + 2
  {
    var qText := Truncate(q.qText, QuestionLimit);
    TruncateFacts(q.qText, QuestionLimit);
    PollQuestion(if qText == [] then "Question" else qText, LabelledOptions(q), CorrectIndex(q.correct), PollExplanation(q.explanation))
  }

  /** The mutable state of one running quiz (the `Session` dataclass).
      Timestamps are whole seconds. */
  datatype Session = Session(
    quizId: int, title: string, questions: seq<QuestionRow>,
    qIndex: int, seconds: int, stepId: int,
    answers: map<int, map<int, int>>,
    correctByStep: map<int, int>,
    firstSeen: map<int, nat>, lastSeen: map<int, nat>,
    display: map<int, string>)

  /** A session as `_start_session` creates it: first question, no step yet. */
  function NewSession(quizId: int, title: string, questions: seq<QuestionRow>, seconds: int): (s: Session)
    ensures s.qIndex == 0 && s.stepId == 0
    ensures s.answers == map[] && s.correctByStep == map[]
    ensures s.firstSeen == map[] && s.lastSeen == map[] && s.display == map[]
    ensures s.quizId == quizId && s.title == title && s.questions == questions && s.seconds == seconds
  {
    Session(quizId, title, questions, 0, seconds, 0, map[], map[], map[], map[], map[])
  }
}
