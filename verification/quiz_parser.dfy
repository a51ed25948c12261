/** The plain-text quiz importer of bot/utils_parser.py: `parse_quiz_text`,
    its answer normaliser `norm_answer`, and the two line patterns it uses.

    Every pattern is applied to one line (a piece of `splitlines()`, so it
    holds no line break). `\s` is Python's whitespace (`Text.IsSpace`), `\d`
    and case-insensitive matching are taken as ASCII. */
module QuizParser {
  import opened Text

  /** A question the importer accepts (the dict `parse_quiz_text` appends). */
  datatype ParsedQuestion = ParsedQuestion(
    qText: string, optA: string, optB: string, optC: string, optD: string,
    correct: string, explanation: Option<string>)

  /** The errors the importer reports; `Message` gives their text. Line
      numbers count from 1. */
  datatype ParseError =
    | EmptyFile
    | MissingOptions(line: nat)
    | BadAnswer(line: nat, got: string)
    | MissingAnswer(line: nat)

  function Message(e: ParseError): (m: string)
    ensures e.EmptyFile? ==> m == "Empty file."
    ensures e.MissingOptions? ==> m == "Line " + IntToString(e.line) + ": Missing options A-D."
    ensures e.BadAnswer? ==> m == "Line " + IntToString(e.line) + ": Answer must be 1-4 or A-D. Got: " + e.got
    ensures e.MissingAnswer? ==> m == "Line " + IntToString(e.line) + ": Missing Answer line."
  {
    match e
    case EmptyFile => "Empty file."
    case MissingOptions(n) => "Line " + IntToString(n) + ": Missing options A-D."
    case BadAnswer(n, got) => "Line " + IntToString(n) + ": Answer must be 1-4 or A-D. Got: " + got
    case MissingAnswer(n) => "Line " + IntToString(n) + ": Missing Answer line."
  }

  /** A string with no surrounding whitespace, as `.strip()` leaves it. */
  predicate Trimmed(s: string) {
    s == [] || (!IsSpace(s[0]) && !IsSpace(s[|s| - 1]))
  }

  /** The number of ASCII digits `s` starts with. */
  function LeadingDigits(s: string): (n: nat)
    ensures n <= |s|
  {
    if s != [] && IsDigit(s[0]) then 1 + LeadingDigits(s[1..]) else 0
  }

  /** `qnum_re = ^\s*(\d+)[.)]\s*(.+)\s*$` matches: after optional
      whitespace, a number, a dot or parenthesis, and at least one more
      character. This is `is_question_start`. */
  predicate IsQuestionStart(line: string) {
    var t := LStrip(line);
    var n := LeadingDigits(t);
    n >= 1 && n + 1 < |t| && (t[n] == '.' || t[n] == ')')
  }

  /** The question text of a question start (`m.group(2).strip()`). */
  function QuestionText(line: string): (r: Option<string>)
    ensures r.Some? <==> IsQuestionStart(line)
  {
    if IsQuestionStart(line) then
      var t := LStrip(line);
      Some(Strip(t[LeadingDigits(t) + 1..]))
    else None
  }

  /** A non-empty string whose last character is not whitespace does not strip to nothing. */
  lemma StripKeepsEnd(s: string)
    requires s != [] && !IsSpace(s[|s| - 1])
    ensures Strip(s) != []
  {
    assert !IsBlank(s);
    StripEmpty(s);
  }

  /** The lines the parser matches are stripped; on those a question start
      always carries some text. */
  lemma QuestionTextNotEmpty(line: string)
    requires Trimmed(line) && IsQuestionStart(line)
    ensures QuestionText(line).value != []
  {
    var t := LStrip(line);
    assert t == line;
    var n := LeadingDigits(t);
    StripKeepsEnd(t[n + 1..]);
  }

  predicate IsOptionLetter(c: char) {
    c == 'A' || c == 'B' || c == 'C' || c == 'D' || c == 'a' || c == 'b' || c == 'c' || c == 'd'
  }

  /** `opt_re = ^\s*([ABCD])[.)]\s*(.+)\s*$` (case-insensitive) matches. */
  predicate IsOptionStart(line: string) {
    var t := LStrip(line);
    |t| >= 3 && IsOptionLetter(t[0]) && (t[1] == '.' || t[1] == ')')
  }

  /** The upper-case letter and the stripped text of an option line. */
  function OptionLine(line: string): (r: Option<(char, string)>)
    ensures r.Some? <==> IsOptionStart(line)
    ensures r.Some? ==> 'A' <= r.value.0 <= 'D'
  {
    if IsOptionStart(line) then
      var t := LStrip(line);
      Some((Upper(t[0]), Strip(t[2..])))
    else None
  }

  /** On a stripped line an option always carries some text. */
  lemma OptionTextNotEmpty(line: string)
    requires Trimmed(line) && IsOptionStart(line)
    ensures OptionLine(line).value.1 != []
  {
    var t := LStrip(line);
    assert t == line;
    StripKeepsEnd(t[2..]);
  }

  /** A question start begins with a digit and an option line with a letter,
      so no line is both. */
  lemma StartIsNotOption(line: string)
    requires IsQuestionStart(line)
    ensures !IsOptionStart(line)
  {
  }

  /** A run of digits followed by a non-digit counts exactly its digits. */
  lemma {:induction false} LeadingDigitsOf(d: string, rest: string)
    requires forall k :: 0 <= k < |d| ==> IsDigit(d[k])
    requires rest == [] || !IsDigit(rest[0])
    ensures LeadingDigits(d + rest) == |d|
  {
    if d != [] {
      assert (d + rest)[1..] == d[1..] + rest;
      LeadingDigitsOf(d[1..], rest);
    }
  }

  /** A line written as "<number>. <text>" starts a question whose text is
      `text`, for any stripped non-empty text. */
  lemma NumberedLine(n: nat, text: string)
    requires text != [] && Trimmed(text)
    ensures IsQuestionStart(NatToString(n) + ". " + text)
    ensures QuestionText(NatToString(n) + ". " + text) == Some(text)
  {
    var d := NatToString(n);
    var line := d + ". " + text;
    assert line == d + (". " + text);
    assert LStrip(line) == line by {
      assert line[0] == d[0] && IsDigit(d[0]);
    }
    LeadingDigitsOf(d, ". " + text);
    assert line[|d|] == '.';
    assert line[|d| + 1..] == " " + text + "";
    StripPadded(" ", text, "");
    StripTrimmed(text);
  }

  /** A line written as "<letter>) <text>" is an option line for the
      upper-case letter, for any stripped non-empty text. */
  lemma LetteredLine(ch: char, text: string)
    requires IsOptionLetter(ch) && text != [] && Trimmed(text)
    ensures OptionLine([ch] + ") " + text) == Some((Upper(ch), text))
  {
    var line := [ch] + ") " + text;
    assert LStrip(line) == line;
    assert line[2..] == " " + text + "";
    StripPadded(" ", text, "");
    StripTrimmed(text);
  }

  /** Case-insensitive `startswith` for an all-lower-case word. */
  predicate StartsWithWord(s: string, word: string) {
    |word| <= |s| && LowerStr(s[..|word|]) == word
  }

  /** `\s*[:\-]?\s*` at the start of `s`, removed. */
  function DropSeparator(s: string): (r: string)
    ensures |r| <= |s|
  {
    var t := LStrip(s);
    LStrip(if t != [] && (t[0] == ':' || t[0] == '-') then t[1..] else t)
  }

  /** `re.sub(r"(?i)^(answer|ans|correct|javob)\s*[:\-]?\s*", "", a)`: the first
      alternative that matches wins, so "answer" is tried before "ans". */
  function DropAnswerWord(a: string): (r: string)
    ensures |r| <= |a|
  {
    if StartsWithWord(a, "answer") then DropSeparator(a[6..])
    else if StartsWithWord(a, "ans") then DropSeparator(a[3..])
    else if StartsWithWord(a, "correct") then DropSeparator(a[7..])
    else if StartsWithWord(a, "javob") then DropSeparator(a[5..])
    else a
  }

  /** `re.sub(r"(?i)^answer\s+option\s+number\s*[:\-]?\s*", "", a)`. */
  function DropOptionNumber(a: string): (r: string)
    ensures |r| <= |a|
  {
    if !StartsWithWord(a, "answer") then a
    else
      var x := a[6..];
      var y := LStrip(x);
      if |y| == |x| || !StartsWithWord(y, "option") then a
      else
        var z := y[6..];
        var w := LStrip(z);
        if |w| == |z| || !StartsWithWord(w, "number") then a
        else DropSeparator(w[6..])
  }

  /** The answer letters. */
  const AnswerLetters: seq<string> := ["A", "B", "C", "D"]

  /** `.replace(")", "").replace(".", "").strip()`. */
  function Cleaned(b: string): (c: string)
  {
    Strip(RemoveChar(RemoveChar(b, ')'), '.'))
  }

  lemma CleanedHasNoMarks(b: string)
    ensures ')' !in Cleaned(b) && '.' !in Cleaned(b)
  {
    RemoveCharSub(RemoveChar(b, ')'), '.');
    StripSub(RemoveChar(RemoveChar(b, ')'), '.'));
  }

  /** The first four steps of `norm_answer`: strip, drop a leading answer
      word with its separator, drop a leading "answer option number", then
      delete every ")" and "." and strip again. */
  function AnswerToken(raw: string): string {
    Cleaned(Strip(DropOptionNumber(Strip(DropAnswerWord(Strip(raw))))))
  }

  /** The tests `norm_answer` makes on the token, in order. */
  function AnswerOf(c: string): (r: Option<string>)
    ensures r.Some? ==> r.value in AnswerLetters
  {
    if c == [] then None
    else if |c| == 1 && IsOptionLetter(c[0]) then Some([Upper(c[0])])
    else if |c| == 1 && '1' <= c[0] <= '4' then Some(AnswerLetters[c[0] as int - '1' as int])
    else if exists k :: 0 <= k < |c| && IsOptionLetter(c[k]) then
      // `re.search` finds a letter, but then the whole token must be one of
      // A-D, which the first test already accepted
      var u := UpperStr(c);
      if u in AnswerLetters then Some(u) else None
    else None
  }

  /** `norm_answer`: a single letter A-D (any case) or digit 1-4 left in the
      token names the answer, anything else is rejected. */
  function NormAnswer(raw: string): (r: Option<string>)
    ensures r.Some? ==> r.value in AnswerLetters
  {
    AnswerOf(AnswerToken(raw))
  }

  /** The token is accepted exactly when it is one character, a letter A-D
      in either case or a digit 1-4; letters are upper-cased and digits
      count from "1" = A. The last `re.search` test accepts nothing more. */
  lemma AnswerOfAccepts(c: string)
    ensures AnswerOf(c).Some? <==> |c| == 1 && (IsOptionLetter(c[0]) || '1' <= c[0] <= '4')
    ensures |c| == 1 && IsOptionLetter(c[0]) ==> AnswerOf(c) == Some([Upper(c[0])])
    ensures |c| == 1 && '1' <= c[0] <= '4' ==> AnswerOf(c) == Some(AnswerLetters[c[0] as int - '1' as int])
  {
  }

  /** A bare letter is its own answer. */
  lemma NormAnswerLetter(ch: char)
    requires IsOptionLetter(ch)
    ensures NormAnswer([ch]) == Some([Upper(ch)])
  {
    TokenOfOneChar(ch);
    AnswerOfAccepts([ch]);
  }

  /** A bare digit 1-4 names the option it counts to. */
  lemma NormAnswerDigit(ch: char)
    requires '1' <= ch <= '4'
    ensures NormAnswer([ch]) == Some(AnswerLetters[ch as int - '1' as int])
  {
    TokenOfOneChar(ch);
    AnswerOfAccepts([ch]);
  }

  /** A single character that is neither space, ")" nor "." is its own token. */
  lemma TokenOfOneChar(ch: char)
    requires !IsSpace(ch) && ch != ')' && ch != '.'
    ensures AnswerToken([ch]) == [ch]
  {
    StripTrimmed([ch]);
    assert !StartsWithWord([ch], "answer") && !StartsWithWord([ch], "ans");
    assert !StartsWithWord([ch], "correct") && !StartsWithWord([ch], "javob");
    assert DropAnswerWord([ch]) == [ch];
    assert DropOptionNumber([ch]) == [ch];
    assert RemoveChar([ch], ')') == [ch];
    assert RemoveChar([ch], '.') == [ch];
  }

  /** "Answer: X" is read as the bare X. */
  lemma AnswerLabelled(ch: char)
    requires IsOptionLetter(ch) || '1' <= ch <= '4'
    ensures NormAnswer("Answer: " + [ch]) == NormAnswer([ch])
  {
    AnswerWordCut(ch);
    TokenOfOneChar(ch);
  }

  lemma AnswerWordCut(ch: char)
    requires IsOptionLetter(ch) || '1' <= ch <= '4'
    ensures Strip("Answer: " + [ch]) == "Answer: " + [ch]
    ensures DropAnswerWord("Answer: " + [ch]) == [ch]
  {
    AnswerColonLiteral(ch);
    LowerAnswerCapital();
    LabelledIsTrimmed("Answer", ":", [ch]);
    DropAnswerWordForms("Answer", ":", [ch]);
  }

  lemma AnswerColonLiteral(ch: char)
    ensures "Answer: " + [ch] == "Answer" + ":" + " " + [ch]
  {
  }

  /** The fifth answer form the importer's documentation lists is not
      accepted: the answer word is cut first, which leaves "Option Number: 2",
      and the "answer option number" pattern no longer applies. */
  lemma OptionNumberFormRejected()
    ensures NormAnswer("Answer Option Number: 2") == None
  {
    var rest := "Option Number: 2";
    OptionNumberWordCut();
    OptionNumberRest();
    assert AnswerToken("Answer Option Number: 2") == rest;
    AnswerOfAccepts(rest);
  }

  lemma OptionNumberWordCut()
    ensures Strip("Answer Option Number: 2") == "Answer Option Number: 2"
    ensures DropAnswerWord("Answer Option Number: 2") == "Option Number: 2"
  {
    var raw := "Answer Option Number: 2";
    StripTrimmed(raw);
    assert StartsWithWord(raw, "answer") by {
      assert raw[..6] == "Answer";
      assert LowerStr("Answer") == "answer";
    }
    OptionNumberSeparator();
  }

  lemma OptionNumberSeparator()
    ensures DropSeparator("Answer Option Number: 2"[6..]) == "Option Number: 2"
  {
    var rest := "Option Number: 2";
    assert "Answer Option Number: 2"[6..] == "" + " " + rest;
    SeparatorCut("", rest);
  }

  lemma OptionNumberRest()
    ensures Strip("Option Number: 2") == "Option Number: 2"
    ensures DropOptionNumber("Option Number: 2") == "Option Number: 2"
    ensures Cleaned("Option Number: 2") == "Option Number: 2"
  {
    var rest := "Option Number: 2";
    StripTrimmed(rest);
    assert rest[..6] == "Option";
    assert !StartsWithWord(rest, "answer");
    assert ')' !in rest && '.' !in rest by {
      assert rest == "Option" + " Num" + "ber: 2";
      assert ')' !in "Option" && '.' !in "Option";
      assert ')' !in " Num" && '.' !in " Num";
      assert ')' !in "ber: 2" && '.' !in "ber: 2";
    }
  }

  /** The answer words `norm_answer` drops, matched in any ASCII case. */
  predicate AnswerWord(w: string) {
    var l := LowerStr(w);
    l == "answer" || l == "ans" || l == "correct" || l == "javob"
  }

  /** The separators the answer word may carry before its space. */
  predicate AnswerSeparatorMark(sep: string) {
    sep == "" || sep == ":" || sep == "-"
  }

  /** What may follow the answer letter or digit: nothing, ")" or ".". */
  predicate AnswerTrailer(m: string) {
    m == "" || m == ")" || m == "."
  }

  /** A character the token may consist of. */
  predicate AnswerChar(ch: char) {
    IsOptionLetter(ch) || '1' <= ch <= '4'
  }

  /** Every written form of an answer reads as the bare letter or digit: a
      leading answer word in any case, with or without ":" or "-", and a
      trailing ")" or "." are all dropped. */
  lemma NormAnswerForms(w: string, sep: string, ch: char, m: string)
    requires AnswerWord(w) && AnswerSeparatorMark(sep) && AnswerChar(ch) && AnswerTrailer(m)
    ensures NormAnswer(w + sep + " " + ([ch] + m)) == NormAnswer([ch])
    ensures NormAnswer([ch] + m) == NormAnswer([ch])
  {
    var x := [ch] + m;
    var raw := w + sep + " " + x;
    LabelledToken(w, sep, ch, m);
    MarkedToken(ch, m);
    TokenOfOneChar(ch);
    SameToken(raw, [ch]);
    SameToken(x, [ch]);
  }

  /** `norm_answer` depends on its input only through the token. */
  lemma SameToken(r1: string, r2: string)
    requires AnswerToken(r1) == AnswerToken(r2)
    ensures NormAnswer(r1) == NormAnswer(r2)
  {
  }

  /** A labelled answer leaves the same token as the bare one. */
  lemma LabelledToken(w: string, sep: string, ch: char, m: string)
    requires AnswerWord(w) && AnswerSeparatorMark(sep) && AnswerChar(ch) && AnswerTrailer(m)
    ensures AnswerToken(w + sep + " " + ([ch] + m)) == [ch]
  {
    var x := [ch] + m;
    var raw := w + sep + " " + x;
    LabelledIsTrimmed(w, sep, x);
    DropAnswerWordForms(w, sep, x);
    MarkedToken(ch, m);
    TokenAfterWord(raw, x, [ch]);
  }

  /** The token of a raw answer, given what each step leaves. */
  lemma TokenAfterWord(raw: string, x: string, c: string)
    requires Strip(raw) == raw && DropAnswerWord(raw) == x && Strip(x) == x && DropOptionNumber(x) == x
    requires Cleaned(x) == c
    ensures AnswerToken(raw) == c
  {
  }

  lemma LabelledIsTrimmed(w: string, sep: string, x: string)
    requires AnswerWord(w) && x != [] && !IsSpace(x[0]) && !IsSpace(x[|x| - 1])
    ensures Strip(w + sep + " " + x) == w + sep + " " + x
  {
    var raw := w + sep + " " + x;
    assert |LowerStr(w)| == |w|;
    assert Lower(w[0]) == LowerStr(w)[0];
    assert raw[0] == w[0];
    assert raw[|raw| - 1] == x[|x| - 1];
    StripTrimmed(raw);
  }

  /** A word whose lower-case form is `word` starts any string it heads. */
  lemma WordStarts(w: string, rest: string, word: string)
    requires LowerStr(w) == word
    ensures StartsWithWord(w + rest, word)
  {
    assert (w + rest)[..|word|] == w;
  }

  /** A string whose `k`-th character is not the lower-case letter `word[k]`
      in either case does not start with `word`. */
  lemma WordMismatch(s: string, word: string, k: nat)
    requires k < |word| && k < |s| && Lower(s[k]) != word[k]
    ensures !StartsWithWord(s, word)
  {
    if |word| <= |s| {
      assert LowerStr(s[..|word|])[k] == Lower(s[k]);
    }
  }

  lemma DropAnswerWordForms(w: string, sep: string, x: string)
    requires AnswerWord(w) && AnswerSeparatorMark(sep)
    requires x != [] && !IsSpace(x[0]) && x[0] != ':' && x[0] != '-'
    ensures DropAnswerWord(w + sep + " " + x) == x
  {
    var l := LowerStr(w);
    var tail := sep + " " + x;
    var raw := w + tail;
    assert raw == w + sep + " " + x;
    assert |l| == |w| && raw[..|w|] == w;
    SeparatorCut(sep, x);
    WordStarts(w, tail, l);
    assert Lower(raw[0]) == l[0];
    if l == "answer" {
      assert raw[6..] == tail;
    } else if l == "ans" {
      assert raw[3] == tail[0] && Lower(tail[0]) == tail[0];
      WordMismatch(raw, "answer", 3);
      assert raw[3..] == tail;
    } else if l == "correct" {
      WordMismatch(raw, "answer", 0);
      WordMismatch(raw, "ans", 0);
      assert raw[7..] == tail;
    } else {
      WordMismatch(raw, "answer", 0);
      WordMismatch(raw, "ans", 0);
      WordMismatch(raw, "correct", 0);
      assert raw[5..] == tail;
    }
  }

  /** The separator with its following space is removed. */
  lemma SeparatorCut(sep: string, x: string)
    requires AnswerSeparatorMark(sep)
    requires x != [] && !IsSpace(x[0]) && x[0] != ':' && x[0] != '-'
    ensures DropSeparator(sep + " " + x) == x
  {
    assert LStrip(x) == x;
    assert LStrip(" " + x) == x by {
      assert (" " + x)[1..] == x;
    }
    if sep != "" {
      assert LStrip(sep + " " + x) == sep + " " + x;
      assert (sep + " " + x)[1..] == " " + x;
    }
  }

  /** A letter or digit with its trailing mark reduces to the bare character. */
  lemma MarkedToken(ch: char, m: string)
    requires AnswerChar(ch) && AnswerTrailer(m)
    ensures Strip([ch] + m) == [ch] + m && DropOptionNumber([ch] + m) == [ch] + m
    ensures Cleaned([ch] + m) == [ch]
    ensures AnswerToken([ch] + m) == [ch]
  {
    var x := [ch] + m;
    StripTrimmed(x);
    ShortHasNoWord(x);
    MarkRemoved(ch, m);
    TokenAfterWord(x, x, [ch]);
  }

  /** Too short for any answer word: nothing is cut. */
  lemma ShortHasNoWord(x: string)
    requires |x| < 3
    ensures DropAnswerWord(x) == x && DropOptionNumber(x) == x
  {
  }

  /** Deleting ")" and "." leaves the bare character. */
  lemma MarkRemoved(ch: char, m: string)
    requires AnswerChar(ch) && AnswerTrailer(m)
    ensures Cleaned([ch] + m) == [ch]
  {
    var x := [ch] + m;
    assert RemoveChar(RemoveChar(x, ')'), '.') == [ch] by {
      if m == ")" {
        assert RemoveChar(x, ')') == [ch] + RemoveChar([')'], ')');
      } else if m == "." {
        assert RemoveChar(x, ')') == x;
        assert RemoveChar(x, '.') == [ch] + RemoveChar(['.'], '.');
      }
    }
    StripTrimmed([ch]);
  }

  /** "answer" written twice before the "option number" form: the first word
      is cut as the answer word, and the second, with "option number", by the
      option-number pattern, which leaves the digit. */
  lemma OptionNumberAfterAnswerWord(ch: char)
    requires AnswerChar(ch)
    ensures NormAnswer("Answer answer option number " + [ch]) == NormAnswer([ch])
  {
    var inner := "answer option number " + [ch];
    DoubledAnswerWordCut(ch);
    OptionNumberCut(ch);
    MarkedToken(ch, "");
    assert [ch] + "" == [ch];
  }

  /** The option-number form does name an option when "answer" is written
      twice: "Answer answer option number 3" reads as C. */
  lemma OptionNumberThree()
    ensures NormAnswer("Answer answer option number 3") == Some("C")
  {
    assert "Answer answer option number 3" == "Answer answer option number " + ['3'];
    OptionNumberAfterAnswerWord('3');
    NormAnswerDigit('3');
  }

  lemma DoubledAnswerWordCut(ch: char)
    requires AnswerChar(ch)
    ensures Strip("Answer answer option number " + [ch]) == "Answer answer option number " + [ch]
    ensures DropAnswerWord("Answer answer option number " + [ch]) == "answer option number " + [ch]
    ensures Strip("answer option number " + [ch]) == "answer option number " + [ch]
  {
    var inner := "answer option number " + [ch];
    DoubledLiteral(ch);
    LowerAnswerCapital();
    LabelledIsTrimmed("Answer", "", inner);
    DropAnswerWordForms("Answer", "", inner);
    StripTrimmed(inner);
  }

  lemma DoubledLiteral(ch: char)
    ensures "Answer answer option number " + [ch] == "Answer" + "" + " " + ("answer option number " + [ch])
  {
  }

  lemma LowerAnswerCapital()
    ensures LowerStr("Answer") == "answer"
  {
  }

  lemma OptionNumberCut(ch: char)
    requires AnswerChar(ch)
    ensures DropOptionNumber("answer option number " + [ch]) == [ch]
  {
    OptionNumberLowerCase([ch]);
    OptionNumberLiteral([ch]);
  }

  lemma OptionNumberLowerCase(x: string)
    requires x != [] && !IsSpace(x[0]) && x[0] != ':' && x[0] != '-'
    ensures DropOptionNumber("answer" + " " + ("option" + " " + ("number" + " " + x))) == x
  {
    OptionWordsLower();
    OptionNumberPattern("answer", "option", "number", x);
  }

  lemma OptionNumberLiteral(x: string)
    ensures "answer option number " + x == "answer" + " " + ("option" + " " + ("number" + " " + x))
  {
    OptionNumberWords();
  }

  lemma OptionNumberWords()
    ensures "answer option number " == "answer" + " " + "option" + " " + "number" + " "
  {
  }

  lemma OptionWordsLower()
    ensures LowerStr("answer") == "answer" && LowerStr("option") == "option" && LowerStr("number") == "number"
  {
    LowerAnswer();
    LowerOption();
    LowerNumber();
  }

  lemma LowerAnswer()
    ensures LowerStr("answer") == "answer"
  {
    LowerWord("answer");
  }

  lemma LowerOption()
    ensures LowerStr("option") == "option"
  {
    LowerWord("option");
  }

  lemma LowerNumber()
    ensures LowerStr("number") == "number"
  {
    LowerWord("number");
  }

  /** A word already in lower case is its own lower-case form. */
  lemma LowerWord(w: string)
    requires forall k :: 0 <= k < |w| ==> IsLower(w[k])
    ensures LowerStr(w) == w
  {
  }

  /** "answer option number" in any case, one space between the words,
      followed by a space and the answer: only the answer is left. */
  lemma OptionNumberPattern(a: string, o: string, n: string, x: string)
    requires LowerStr(a) == "answer" && LowerStr(o) == "option" && LowerStr(n) == "number"
    requires x != [] && !IsSpace(x[0]) && x[0] != ':' && x[0] != '-'
    ensures DropOptionNumber(a + " " + (o + " " + (n + " " + x))) == x
  {
    var w := n + " " + x;
    var y := o + " " + w;
    WordThenSpace(n, "number", x);
    WordThenSpace(o, "option", w);
    WordThenSpace(a, "answer", y);
    OptionNumberSteps(a + " " + y, y, w);
    assert w[6..] == "" + " " + x;
    SeparatorCut("", x);
  }

  /** The three matches `DropOptionNumber` makes, given their results. */
  lemma OptionNumberSteps(raw: string, y: string, w: string)
    requires StartsWithWord(raw, "answer") && raw[6..] == " " + y && LStrip(" " + y) == y
    requires StartsWithWord(y, "option") && y[6..] == " " + w && LStrip(" " + w) == w
    requires StartsWithWord(w, "number")
    ensures DropOptionNumber(raw) == DropSeparator(w[6..])
  {
  }

  /** A six-letter word, a space and a non-blank rest: the word starts the
      string and one space stands between it and the rest. */
  lemma WordThenSpace(v: string, word: string, rest: string)
    requires LowerStr(v) == word && |word| == 6 && IsLower(word[0])
    requires rest != [] && !IsSpace(rest[0])
    ensures StartsWithWord(v + " " + rest, word)
    ensures (v + " " + rest)[6..] == " " + rest
    ensures LStrip(" " + rest) == rest
    ensures v + " " + rest != [] && !IsSpace((v + " " + rest)[0])
  {
    assert |LowerStr(v)| == |v|;
    assert (v + " " + rest)[..6] == v;
    assert Lower(v[0]) == word[0];
    LStripOneSpace(rest);
  }

  /** One space before a non-blank start is stripped. */
  lemma LStripOneSpace(s: string)
    requires s != [] && !IsSpace(s[0])
    ensures LStrip(" " + s) == s
  {
    assert (" " + s)[1..] == s;
  }

  /** The parser strips every line before it looks at it; `StripAll` gives
      those stripped lines. */
  function StripAll(lines: seq<string>): (r: seq<string>)
    ensures |r| == |lines|
    ensures forall k :: 0 <= k < |lines| ==> r[k] == Strip(lines[k])
  {
    if lines == [] then [] else [Strip(lines[0])] + StripAll(lines[1..])
  }

  predicate AllTrimmed(ls: seq<string>) {
    forall k :: 0 <= k < |ls| ==> Trimmed(ls[k])
  }

  lemma StripAllTrimmed(lines: seq<string>)
    ensures AllTrimmed(StripAll(lines))
  {
  }

  /** The first index at or after `i` whose line is not empty. */
  function SkipBlank(ls: seq<string>, i: nat): (j: nat)
    requires i <= |ls|
    ensures i <= j <= |ls|
    decreases |ls| - i
  {
    if i < |ls| && ls[i] == [] then SkipBlank(ls, i + 1) else i
  }

  lemma {:induction false} SkipBlankFirst(ls: seq<string>, i: nat)
    requires i <= |ls|
    ensures forall k :: i <= k < SkipBlank(ls, i) ==> ls[k] == []
    ensures SkipBlank(ls, i) < |ls| ==> ls[SkipBlank(ls, i)] != []
    decreases |ls| - i
  {
    if i < |ls| && ls[i] == [] {
      SkipBlankFirst(ls, i + 1);
    }
  }

  /** The first index at or after `i` whose line starts a question. */
  function SkipToQuestion(ls: seq<string>, i: nat): (j: nat)
    requires i <= |ls|
    ensures i <= j <= |ls|
    decreases |ls| - i
  {
    if i < |ls| && !IsQuestionStart(ls[i]) then SkipToQuestion(ls, i + 1) else i
  }

  lemma {:induction false} SkipToQuestionFirst(ls: seq<string>, i: nat)
    requires i <= |ls|
    ensures forall k :: i <= k < SkipToQuestion(ls, i) ==> !IsQuestionStart(ls[k])
    ensures SkipToQuestion(ls, i) < |ls| ==> IsQuestionStart(ls[SkipToQuestion(ls, i)])
    decreases |ls| - i
  {
    if i < |ls| && !IsQuestionStart(ls[i]) {
      SkipToQuestionFirst(ls, i + 1);
    }
  }

  /** What the option loop has read so far: where it stands, the options by
      letter, and how many option lines it took. */
  datatype OptionScan = OptionScan(next: nat, opts: map<char, string>, got: nat)

  /** The option loop of `parse_quiz_text`, from line `i`: blank lines are
      skipped, each option line sets its letter (a repeated letter
      overwrites), and the loop ends after four option lines, at the first
      other line, or at the end. */
  function ReadOptions(ls: seq<string>, i: nat, opts: map<char, string>, got: nat): (r: OptionScan)
    requires i <= |ls|
    ensures i <= r.next <= |ls|
    ensures got <= r.got
    decreases |ls| - i
  {
    if i < |ls| && got < 4 then
      if ls[i] == [] then ReadOptions(ls, i + 1, opts, got)
      else
        match OptionLine(ls[i])
        case None => OptionScan(i, opts, got)
        case Some((key, val)) => ReadOptions(ls, i + 1, opts[key := val], got + 1)
    else OptionScan(i, opts, got)
  }

  /** Options keyed by an upper-case letter, each with some text. */
  predicate GoodOptions(opts: map<char, string>) {
    forall k :: k in opts ==> 'A' <= k <= 'D' && opts[k] != []
  }

  /** Read from stripped lines, every option has a letter A-D and some text. */
  lemma {:induction false} ReadOptionsGood(ls: seq<string>, i: nat, opts: map<char, string>, got: nat)
    requires i <= |ls| && AllTrimmed(ls) && GoodOptions(opts)
    ensures GoodOptions(ReadOptions(ls, i, opts, got).opts)
    decreases |ls| - i
  {
    if i < |ls| && got < 4 {
      if ls[i] == [] {
        ReadOptionsGood(ls, i + 1, opts, got);
      } else if OptionLine(ls[i]).Some? {
        var (key, val) := OptionLine(ls[i]).value;
        OptionTextNotEmpty(ls[i]);
        ReadOptionsGood(ls, i + 1, opts[key := val], got + 1);
      }
    }
  }

  /** All four options were found. */
  predicate Complete(r: OptionScan) {
    r.got >= 4 && 'A' in r.opts && 'B' in r.opts && 'C' in r.opts && 'D' in r.opts
  }

  /** One explanation line: an "Explanation:" prefix (any case) is cut off. */
  function ExplanationPart(l: string): string {
    if StartsWithWord(l, "explanation:") then Strip(l[12..]) else l
  }

  /** The explanation loop of `parse_quiz_text`, from line `i`: it stops at
      the next question start or at the end, and keeps every non-blank
      line it passes after the ones in `parts`. (The source strips `lines[i].rstrip()` there, which
      is the same as stripping the line.) */
  function CollectExplanation(ls: seq<string>, i: nat, parts: seq<string>): (r: (nat, seq<string>))
    requires i <= |ls|
    ensures i <= r.0 <= |ls|
    ensures |r.1| <= |parts| + (r.0 - i)
    decreases |ls| - i
  {
    if i < |ls| && !IsQuestionStart(ls[i]) then
      CollectExplanation(ls, i + 1, if ls[i] != [] then parts + [ExplanationPart(ls[i])] else parts)
    else (i, parts)
  }

  /** The explanation ends where the next question starts. */
  lemma {:induction false} CollectExplanationEnd(ls: seq<string>, i: nat, parts: seq<string>)
    requires i <= |ls|
    ensures CollectExplanation(ls, i, parts).0 == SkipToQuestion(ls, i)
    decreases |ls| - i
  {
    if i < |ls| && !IsQuestionStart(ls[i]) {
      CollectExplanationEnd(ls, i + 1, if ls[i] != [] then parts + [ExplanationPart(ls[i])] else parts);
    }
  }

  /** `"\n".join(expl_lines).strip() or None`. */
  function ExplanationOf(parts: seq<string>): (e: Option<string>)
    ensures parts == [] ==> e.None?
    ensures e.Some? ==> e.value != [] && e.value == Strip(Join("\n", parts))
  {
    var x := Strip(Join("\n", parts));
    if x == [] then None else Some(x)
  }

  /** How one question block ends: a question and the line after it, an
      error and the next question start, or the missing answer that ends
      the whole parse. */
  datatype Block =
    | Accepted(question: ParsedQuestion, next: nat)
    | Rejected(error: ParseError, next: nat)
    | Unfinished(error: ParseError)

  /** After the answer line: blank lines are skipped; a question start there
      means no explanation, otherwise the explanation runs up to the next
      question start. */
  function ExplanationAfter(ls: seq<string>, j: nat): (r: (nat, Option<string>))
    requires j <= |ls|
    ensures j <= r.0 <= |ls|
  {
    var b := SkipBlank(ls, j);
    if b < |ls| && IsQuestionStart(ls[b]) then (b, None)
    else
      var c := CollectExplanation(ls, b, []);
      (c.0, ExplanationOf(c.1))
  }

  /** The rest of a question block once its four options are read: `a` is
      the first non-blank line after them, `line` the block's line number. */
  function AnswerBlock(ls: seq<string>, line: nat, qText: string, opts: map<char, string>, a: nat): (b: Block)
    requires a <= |ls| && 'A' in opts && 'B' in opts && 'C' in opts && 'D' in opts
    ensures !b.Unfinished? ==> a < b.next <= |ls|
  {
    if a == |ls| then Unfinished(MissingAnswer(line))
    else
      match NormAnswer(ls[a])
      case None => Rejected(BadAnswer(a + 1, ls[a]), SkipToQuestion(ls, a + 1))
      case Some(ans) =>
        var e := ExplanationAfter(ls, a + 1);
        Accepted(ParsedQuestion(qText, opts['A'], opts['B'], opts['C'], opts['D'], ans, e.1), e.0)
  }

  /** One question block of `parse_quiz_text`, from its question start at line `i`. */
  function ReadBlock(ls: seq<string>, i: nat): (b: Block)
    requires i < |ls| && IsQuestionStart(ls[i])
    ensures !b.Unfinished? ==> i < b.next <= |ls|
  {
    var options := ReadOptions(ls, i + 1, map[], 0);
    if !Complete(options) then Rejected(MissingOptions(i + 1), SkipToQuestion(ls, options.next))
    else AnswerBlock(ls, i + 1, QuestionText(ls[i]).value, options.opts, SkipBlank(ls, options.next))
  }

  /** The main loop of `parse_quiz_text` from line `i`, with the questions
      and errors found so far: lines that do not start a question are
      skipped, and a missing answer ends the parse. */
  function Scan(ls: seq<string>, i: nat, questions: seq<ParsedQuestion>, errors: seq<ParseError>)
    : (r: (seq<ParsedQuestion>, seq<ParseError>))
    requires i <= |ls|
    decreases |ls| - i
  {
    if i == |ls| then (questions, errors)
    else if ls[i] == [] || !IsQuestionStart(ls[i]) then Scan(ls, i + 1, questions, errors)
    else
      match ReadBlock(ls, i)
      case Accepted(q, next) => Scan(ls, next, questions + [q], errors)
      case Rejected(e, next) => Scan(ls, next, questions, errors + [e])
      case Unfinished(e) => (questions, errors + [e])
  }

  /** `[ln.rstrip() for ln in text.splitlines()]`. */
  function RStripAll(ls: seq<string>): (r: seq<string>)
    ensures |r| == |ls|
    ensures forall k :: 0 <= k < |ls| ==> r[k] == RStrip(ls[k])
  {
    if ls == [] then [] else [RStrip(ls[0])] + RStripAll(ls[1..])
  }

  /** `parse_quiz_text` as a function. */
  function Parse(text: string): (r: (seq<ParsedQuestion>, seq<ParseError>))
    ensures IsBlank(text) ==> r == ([], [EmptyFile])
  {
    if IsBlank(text) then ([], [EmptyFile]) else Scan(StripAll(RStripAll(SplitLines(text))), 0, [], [])
  }

  /** What every accepted question satisfies: a question text, four
      option texts, an answer letter A-D, and no empty explanation. */
  predicate WellFormed(q: ParsedQuestion) {
    && q.qText != [] && q.optA != [] && q.optB != [] && q.optC != [] && q.optD != []
    && q.correct in AnswerLetters
    && (q.explanation.Some? ==> q.explanation.value != [])
  }

  /** An error names the line it is about: the question start for missing
      options or a missing answer, the rejected answer line itself for a
      bad answer (which `AnswerBlockFacts` shows `norm_answer` rejected). */
  predicate PointsAt(e: ParseError, ls: seq<string>) {
    match e
    case EmptyFile => false
    case MissingOptions(n) => 1 <= n <= |ls| && IsQuestionStart(ls[n - 1])
    case MissingAnswer(n) => 1 <= n <= |ls| && IsQuestionStart(ls[n - 1])
    case BadAnswer(n, got) => 1 <= n <= |ls| && got == ls[n - 1] && got != []
  }

  lemma AnswerBlockFacts(ls: seq<string>, line: nat, qText: string, opts: map<char, string>, a: nat)
    requires a <= |ls| && 'A' in opts && 'B' in opts && 'C' in opts && 'D' in opts
    requires a < |ls| ==> ls[a] != []
    ensures AnswerBlock(ls, line, qText, opts, a).Accepted? ==>
      var q := AnswerBlock(ls, line, qText, opts, a).question;
      q.qText == qText && q.optA == opts['A'] && q.optB == opts['B'] && q.optC == opts['C'] && q.optD == opts['D'] &&
      q.correct in AnswerLetters && (q.explanation.Some? ==> q.explanation.value != [])
    ensures AnswerBlock(ls, line, qText, opts, a).Rejected? ==>
      AnswerBlock(ls, line, qText, opts, a).error == BadAnswer(a + 1, ls[a]) && NormAnswer(ls[a]).None?
    ensures AnswerBlock(ls, line, qText, opts, a).Unfinished? ==>
      AnswerBlock(ls, line, qText, opts, a).error == MissingAnswer(line)
  {
  }

  lemma ReadBlockWellFormed(ls: seq<string>, i: nat)
    requires AllTrimmed(ls) && i < |ls| && IsQuestionStart(ls[i])
    ensures ReadBlock(ls, i).Accepted? ==> WellFormed(ReadBlock(ls, i).question)
  {
    QuestionTextNotEmpty(ls[i]);
    var options := ReadOptions(ls, i + 1, map[], 0);
    ReadOptionsGood(ls, i + 1, map[], 0);
    if Complete(options) {
      var a := SkipBlank(ls, options.next);
      SkipBlankFirst(ls, options.next);
      AnswerBlockFacts(ls, i + 1, QuestionText(ls[i]).value, options.opts, a);
      assert options.opts['A'] != [] && options.opts['B'] != [] && options.opts['C'] != [] && options.opts['D'] != [];
    }
  }

  lemma ReadBlockPointsAt(ls: seq<string>, i: nat)
    requires i < |ls| && IsQuestionStart(ls[i])
    ensures !ReadBlock(ls, i).Accepted? ==> PointsAt(ReadBlock(ls, i).error, ls)
  {
    var options := ReadOptions(ls, i + 1, map[], 0);
    if !Complete(options) {
      assert ReadBlock(ls, i).error == MissingOptions(i + 1);
    } else {
      var a := SkipBlank(ls, options.next);
      SkipBlankFirst(ls, options.next);
      AnswerBlockPointsAt(ls, i, QuestionText(ls[i]).value, options.opts, a);
      assert ReadBlock(ls, i) == AnswerBlock(ls, i + 1, QuestionText(ls[i]).value, options.opts, a);
    }
  }

  lemma AnswerBlockPointsAt(ls: seq<string>, i: nat, qText: string, opts: map<char, string>, a: nat)
    requires i < |ls| && IsQuestionStart(ls[i]) && a <= |ls|
    requires 'A' in opts && 'B' in opts && 'C' in opts && 'D' in opts
    requires a < |ls| ==> ls[a] != []
    ensures !AnswerBlock(ls, i + 1, qText, opts, a).Accepted? ==> PointsAt(AnswerBlock(ls, i + 1, qText, opts, a).error, ls)
  {
    AnswerBlockFacts(ls, i + 1, qText, opts, a);
  }

  /** Every question the parser returns is well formed. */
  lemma {:induction false} ScanWellFormed(ls: seq<string>, i: nat, qs: seq<ParsedQuestion>, es: seq<ParseError>)
    requires i <= |ls| && AllTrimmed(ls)
    requires forall k :: 0 <= k < |qs| ==> WellFormed(qs[k])
    ensures forall k :: 0 <= k < |Scan(ls, i, qs, es).0| ==> WellFormed(Scan(ls, i, qs, es).0[k])
    decreases |ls| - i, 1
  {
    if i < |ls| {
      if ls[i] == [] || !IsQuestionStart(ls[i]) {
        ScanWellFormed(ls, i + 1, qs, es);
      } else {
        BlockWellFormed(ls, i, qs, es);
      }
    }
  }

  lemma {:induction false} BlockWellFormed(ls: seq<string>, i: nat, qs: seq<ParsedQuestion>, es: seq<ParseError>)
    requires i < |ls| && AllTrimmed(ls) && ls[i] != [] && IsQuestionStart(ls[i])
    requires forall k :: 0 <= k < |qs| ==> WellFormed(qs[k])
    ensures forall k :: 0 <= k < |Scan(ls, i, qs, es).0| ==> WellFormed(Scan(ls, i, qs, es).0[k])
    decreases |ls| - i, 0
  {
    ReadBlockWellFormed(ls, i);
    var b := ReadBlock(ls, i);
    if b.Accepted? {
      WellFormedAppend(qs, b.question);
      ScanWellFormed(ls, b.next, qs + [b.question], es);
    } else if b.Rejected? {
      ScanWellFormed(ls, b.next, qs, es + [b.error]);
    }
  }

  lemma WellFormedAppend(qs: seq<ParsedQuestion>, q: ParsedQuestion)
    requires forall k :: 0 <= k < |qs| ==> WellFormed(qs[k])
    requires WellFormed(q)
    ensures forall k :: 0 <= k < |qs + [q]| ==> WellFormed((qs + [q])[k])
  {
  }

  /** Every error the parser reports points at a line of the input. */
  lemma {:induction false} ScanPointsAt(ls: seq<string>, i: nat, qs: seq<ParsedQuestion>, es: seq<ParseError>)
    requires i <= |ls| && AllTrimmed(ls)
    requires forall k :: 0 <= k < |es| ==> PointsAt(es[k], ls)
    ensures forall k :: 0 <= k < |Scan(ls, i, qs, es).1| ==> PointsAt(Scan(ls, i, qs, es).1[k], ls)
    decreases |ls| - i, 1
  {
    if i < |ls| {
      if ls[i] == [] || !IsQuestionStart(ls[i]) {
        ScanPointsAt(ls, i + 1, qs, es);
      } else {
        BlockPointsAt(ls, i, qs, es);
      }
    }
  }

  lemma {:induction false} BlockPointsAt(ls: seq<string>, i: nat, qs: seq<ParsedQuestion>, es: seq<ParseError>)
    requires i < |ls| && AllTrimmed(ls) && ls[i] != [] && IsQuestionStart(ls[i])
    requires forall k :: 0 <= k < |es| ==> PointsAt(es[k], ls)
    ensures forall k :: 0 <= k < |Scan(ls, i, qs, es).1| ==> PointsAt(Scan(ls, i, qs, es).1[k], ls)
    decreases |ls| - i, 0
  {
    ReadBlockPointsAt(ls, i);
    var b := ReadBlock(ls, i);
    if b.Accepted? {
      ScanPointsAt(ls, b.next, qs + [b.question], es);
    } else if b.Rejected? {
      PointsAtAppend(ls, es, b.error);
      ScanPointsAt(ls, b.next, qs, es + [b.error]);
    } else {
      PointsAtAppend(ls, es, b.error);
    }
  }

  lemma PointsAtAppend(ls: seq<string>, es: seq<ParseError>, e: ParseError)
    requires forall k :: 0 <= k < |es| ==> PointsAt(es[k], ls)
    requires PointsAt(e, ls)
    ensures forall k :: 0 <= k < |es + [e]| ==> PointsAt((es + [e])[k], ls)
  {
  }

  /** The parser only appends: what it found before line `i` stays in
      front, in order. */
  lemma ScanAppends(ls: seq<string>, i: nat, qs: seq<ParsedQuestion>, es: seq<ParseError>)
    requires i <= |ls|
    ensures |qs| <= |Scan(ls, i, qs, es).0| && Scan(ls, i, qs, es).0[..|qs|] == qs
    ensures |es| <= |Scan(ls, i, qs, es).1| && Scan(ls, i, qs, es).1[..|es|] == es
  {
    ScanKeepsQuestions(ls, i, qs, es);
    ScanKeepsErrors(ls, i, qs, es);
  }

  lemma {:induction false} ScanKeepsQuestions(ls: seq<string>, i: nat, qs: seq<ParsedQuestion>, es: seq<ParseError>)
    requires i <= |ls|
    ensures qs <= Scan(ls, i, qs, es).0
    decreases |ls| - i
  {
    if i < |ls| {
      if ls[i] == [] || !IsQuestionStart(ls[i]) {
        ScanKeepsQuestions(ls, i + 1, qs, es);
      } else {
        match ReadBlock(ls, i)
        case Accepted(q, next) =>
          ScanKeepsQuestions(ls, next, qs + [q], es);
        case Rejected(e, next) =>
          ScanKeepsQuestions(ls, next, qs, es + [e]);
        case Unfinished(e) =>
      }
    }
  }

  lemma {:induction false} ScanKeepsErrors(ls: seq<string>, i: nat, qs: seq<ParsedQuestion>, es: seq<ParseError>)
    requires i <= |ls|
    ensures es <= Scan(ls, i, qs, es).1
    decreases |ls| - i
  {
    if i < |ls| {
      if ls[i] == [] || !IsQuestionStart(ls[i]) {
        ScanKeepsErrors(ls, i + 1, qs, es);
      } else {
        match ReadBlock(ls, i)
        case Accepted(q, next) =>
          ScanKeepsErrors(ls, next, qs + [q], es);
        case Rejected(e, next) =>
          ScanKeepsErrors(ls, next, qs, es + [e]);
        case Unfinished(e) =>
      }
    }
  }

  /** A missing answer line ends the parse: it can only be the last error. */
  lemma {:induction false} MissingAnswerLast(ls: seq<string>, i: nat, qs: seq<ParsedQuestion>, es: seq<ParseError>)
    requires i <= |ls|
    requires forall k :: 0 <= k < |es| ==> !es[k].MissingAnswer?
    ensures forall k :: 0 <= k < |Scan(ls, i, qs, es).1| - 1 ==> !Scan(ls, i, qs, es).1[k].MissingAnswer?
    decreases |ls| - i
  {
    if i < |ls| {
      if ls[i] == [] || !IsQuestionStart(ls[i]) {
        MissingAnswerLast(ls, i + 1, qs, es);
      } else {
        match ReadBlock(ls, i)
        case Accepted(q, next) => MissingAnswerLast(ls, next, qs + [q], es);
        case Rejected(e, next) =>
          assert !e.MissingAnswer?;
          MissingAnswerLast(ls, next, qs, es + [e]);
        case Unfinished(e) =>
      }
    }
  }

  /** The number of question starts at or after line `i`. */
  function Starts(ls: seq<string>, i: nat): (n: nat)
    requires i <= |ls|
    ensures n <= |ls| - i
    decreases |ls| - i
  {
    if i == |ls| then 0 else (if IsQuestionStart(ls[i]) then 1 else 0) + Starts(ls, i + 1)
  }

  lemma {:induction false} StartsShrink(ls: seq<string>, i: nat, j: nat)
    requires i <= j <= |ls|
    ensures Starts(ls, j) <= Starts(ls, i)
    decreases j - i
  {
    if i < j {
      StartsShrink(ls, i + 1, j);
    }
  }

  /** Each question start yields at most one question or one error. */
  lemma {:induction false} ScanCount(ls: seq<string>, i: nat, qs: seq<ParsedQuestion>, es: seq<ParseError>)
    requires i <= |ls|
    ensures |Scan(ls, i, qs, es).0| + |Scan(ls, i, qs, es).1| <= |qs| + |es| + Starts(ls, i)
    decreases |ls| - i
  {
    if i < |ls| {
      if ls[i] == [] || !IsQuestionStart(ls[i]) {
        ScanCount(ls, i + 1, qs, es);
      } else {
        match ReadBlock(ls, i)
        case Accepted(q, next) =>
          ScanCount(ls, next, qs + [q], es);
          StartsShrink(ls, i + 1, next);
        case Rejected(e, next) =>
          ScanCount(ls, next, qs, es + [e]);
          StartsShrink(ls, i + 1, next);
        case Unfinished(e) =>
      }
    }
  }

  /** Text before the first question start is ignored. */
  lemma {:induction false} PreambleIgnored(ls: seq<string>, i: nat, qs: seq<ParsedQuestion>, es: seq<ParseError>)
    requires i <= |ls|
    ensures Scan(ls, i, qs, es) == Scan(ls, SkipToQuestion(ls, i), qs, es)
    decreases |ls| - i
  {
    if i < |ls| && !IsQuestionStart(ls[i]) {
      PreambleIgnored(ls, i + 1, qs, es);
    }
  }

  /** What `parse_quiz_text` promises its caller. */
  lemma ParseFacts(text: string)
    ensures IsBlank(text) ==> Parse(text) == ([], [EmptyFile])
    ensures forall k :: 0 <= k < |Parse(text).0| ==> WellFormed(Parse(text).0[k])
    ensures !IsBlank(text) ==> forall k :: 0 <= k < |Parse(text).1| ==>
      PointsAt(Parse(text).1[k], StripAll(RStripAll(SplitLines(text))))
    ensures forall k :: 0 <= k < |Parse(text).1| - 1 ==> !Parse(text).1[k].MissingAnswer?
  {
    if !IsBlank(text) {
      var ls := StripAll(RStripAll(SplitLines(text)));
      StripAllTrimmed(RStripAll(SplitLines(text)));
      ScanWellFormed(ls, 0, [], []);
      ScanPointsAt(ls, 0, [], []);
      MissingAnswerLast(ls, 0, [], []);
    }
  }

  // ---- how a complete question block is read

  /** A question start is never a blank line. */
  lemma QuestionStartNotBlank(line: string)
    requires IsQuestionStart(line)
    ensures line != []
  {
  }

  /** Four option lines A, B, C and D in a row are read as the four options,
      and the option loop stops right after them. */
  lemma FourOptions(ls: seq<string>, i: nat, a: string, b: string, c: string, d: string)
    requires i + 4 <= |ls|
    requires OptionLine(ls[i]) == Some(('A', a)) && OptionLine(ls[i + 1]) == Some(('B', b))
    requires OptionLine(ls[i + 2]) == Some(('C', c)) && OptionLine(ls[i + 3]) == Some(('D', d))
    ensures ReadOptions(ls, i, map[], 0) == OptionScan(i + 4, map['A' := a, 'B' := b, 'C' := c, 'D' := d], 4)
    ensures var m := ReadOptions(ls, i, map[], 0).opts;
      'A' in m && 'B' in m && 'C' in m && 'D' in m && m['A'] == a && m['B'] == b && m['C'] == c && m['D'] == d
  {
    var m1 := map['A' := a];
    var m2 := m1['B' := b];
    var m3 := m2['C' := c];
    var m4 := m3['D' := d];
    OptionStep(ls, i, map[], 0, 'A', a);
    OptionStep(ls, i + 1, m1, 1, 'B', b);
    OptionStep(ls, i + 2, m2, 2, 'C', c);
    OptionStep(ls, i + 3, m3, 3, 'D', d);
    assert m4 == map['A' := a, 'B' := b, 'C' := c, 'D' := d];
  }

  /** One option line read by the option loop. */
  lemma OptionStep(ls: seq<string>, i: nat, opts: map<char, string>, got: nat, key: char, val: string)
    requires i < |ls| && got < 4 && OptionLine(ls[i]) == Some((key, val))
    ensures ReadOptions(ls, i, opts, got) == ReadOptions(ls, i + 1, opts[key := val], got + 1)
  {
    assert ls[i] != [];
  }

  /** An answer followed by the end or by the next question start has no
      explanation. */
  lemma NoExplanation(ls: seq<string>, j: nat)
    requires j <= |ls| && (j == |ls| || IsQuestionStart(ls[j]))
    ensures ExplanationAfter(ls, j) == (j, None)
  {
    if j < |ls| {
      QuestionStartNotBlank(ls[j]);
    }
  }

  /** One explanation line followed by the end or by the next question
      start is the explanation, with its "Explanation:" prefix cut off. */
  lemma OneExplanation(ls: seq<string>, j: nat, e: string)
    requires j < |ls| && ls[j] != [] && !IsQuestionStart(ls[j]) && ExplanationPart(ls[j]) == e
    requires e != [] && Trimmed(e)
    requires j + 1 == |ls| || IsQuestionStart(ls[j + 1])
    ensures ExplanationAfter(ls, j) == (j + 1, Some(e))
  {
    assert CollectExplanation(ls, j + 1, [e]) == (j + 1, [e]);
    assert [] + [ExplanationPart(ls[j])] == [e];
    assert CollectExplanation(ls, j, []) == (j + 1, [e]);
    assert Join("\n", [e]) == e;
    StripTrimmed(e);
  }

  /** A question start, four option lines A-D, an accepted answer line and
      the explanation found after it make one accepted question. */
  lemma BlockAccepted(ls: seq<string>, i: nat, q: string, a: string, b: string, c: string, d: string,
                      x: string, k: nat, e: Option<string>)
    requires i + 6 <= |ls| && QuestionText(ls[i]) == Some(q)
    requires OptionLine(ls[i + 1]) == Some(('A', a)) && OptionLine(ls[i + 2]) == Some(('B', b))
    requires OptionLine(ls[i + 3]) == Some(('C', c)) && OptionLine(ls[i + 4]) == Some(('D', d))
    requires ls[i + 5] != [] && NormAnswer(ls[i + 5]) == Some(x)
    requires ExplanationAfter(ls, i + 6) == (k, e)
    ensures ReadBlock(ls, i) == Accepted(ParsedQuestion(q, a, b, c, d, x, e), k)
  {
    FourOptions(ls, i + 1, a, b, c, d);
    var m := ReadOptions(ls, i + 1, map[], 0).opts;
    OptionsComplete(ls, i, q, m);
    AnswerAccepted(ls, i + 1, q, m, a, b, c, d, i + 5, x, k, e);
  }

  /** Once the four options end right before a non-blank line, the block
      goes on with that line as its answer line. */
  lemma OptionsComplete(ls: seq<string>, i: nat, q: string, m: map<char, string>)
    requires i + 6 <= |ls| && QuestionText(ls[i]) == Some(q) && ls[i + 5] != []
    requires 'A' in m && 'B' in m && 'C' in m && 'D' in m
    requires ReadOptions(ls, i + 1, map[], 0) == OptionScan(i + 5, m, 4)
    ensures ReadBlock(ls, i) == AnswerBlock(ls, i + 1, q, m, i + 5)
  {
    assert SkipBlank(ls, i + 5) == i + 5;
  }

  /** An accepted answer line completes the block with the explanation
      found after it. */
  lemma AnswerAccepted(ls: seq<string>, line: nat, qText: string, opts: map<char, string>,
                       oa: string, ob: string, oc: string, od: string, a: nat, x: string, k: nat, e: Option<string>)
    requires a < |ls| && 'A' in opts && 'B' in opts && 'C' in opts && 'D' in opts
    requires opts['A'] == oa && opts['B'] == ob && opts['C'] == oc && opts['D'] == od
    requires NormAnswer(ls[a]) == Some(x) && ExplanationAfter(ls, a + 1) == (k, e)
    ensures AnswerBlock(ls, line, qText, opts, a) == Accepted(ParsedQuestion(qText, oa, ob, oc, od, x, e), k)
  {
  }

  /** Scanning a complete block without explanation adds its question after
      the ones found so far and goes on at the line after the answer. */
  lemma ScanBlock(ls: seq<string>, i: nat, qs: seq<ParsedQuestion>, es: seq<ParseError>,
                  q: string, a: string, b: string, c: string, d: string, x: string)
    requires i + 6 <= |ls| && QuestionText(ls[i]) == Some(q)
    requires OptionLine(ls[i + 1]) == Some(('A', a)) && OptionLine(ls[i + 2]) == Some(('B', b))
    requires OptionLine(ls[i + 3]) == Some(('C', c)) && OptionLine(ls[i + 4]) == Some(('D', d))
    requires ls[i + 5] != [] && NormAnswer(ls[i + 5]) == Some(x)
    requires i + 6 == |ls| || IsQuestionStart(ls[i + 6])
    ensures Scan(ls, i, qs, es) == Scan(ls, i + 6, qs + [ParsedQuestion(q, a, b, c, d, x, None)], es)
  {
    QuestionStartNotBlank(ls[i]);
    NoExplanation(ls, i + 6);
    BlockAccepted(ls, i, q, a, b, c, d, x, i + 6, None);
  }

  /** The same with one explanation line after the answer. */
  lemma ScanExplainedBlock(ls: seq<string>, i: nat, qs: seq<ParsedQuestion>, es: seq<ParseError>,
                           q: string, a: string, b: string, c: string, d: string, x: string, e: string)
    requires i + 7 <= |ls| && QuestionText(ls[i]) == Some(q)
    requires OptionLine(ls[i + 1]) == Some(('A', a)) && OptionLine(ls[i + 2]) == Some(('B', b))
    requires OptionLine(ls[i + 3]) == Some(('C', c)) && OptionLine(ls[i + 4]) == Some(('D', d))
    requires ls[i + 5] != [] && NormAnswer(ls[i + 5]) == Some(x)
    requires ls[i + 6] != [] && !IsQuestionStart(ls[i + 6]) && ExplanationPart(ls[i + 6]) == e
    requires e != [] && Trimmed(e)
    requires i + 7 == |ls| || IsQuestionStart(ls[i + 7])
    ensures Scan(ls, i, qs, es) == Scan(ls, i + 7, qs + [ParsedQuestion(q, a, b, c, d, x, Some(e))], es)
  {
    QuestionStartNotBlank(ls[i]);
    OneExplanation(ls, i + 6, e);
    BlockAccepted(ls, i, q, a, b, c, d, x, i + 7, Some(e));
  }

  /** The lines of a question block as a user writes them: "<n>. <question>",
      "A) <option>" to "D) <option>", and "Answer: <letter or digit>". */
  function QuestionLines(n: nat, q: string, a: string, b: string, c: string, d: string, ch: char): seq<string> {
    [NatToString(n) + ". " + q, ['A'] + ") " + a, ['B'] + ") " + b, ['C'] + ") " + c, ['D'] + ") " + d,
     "Answer: " + [ch]]
  }

  /** The shape of the text fields a written block carries. */
  predicate PlainFields(q: string, a: string, b: string, c: string, d: string) {
    && q != [] && Trimmed(q) && a != [] && Trimmed(a) && b != [] && Trimmed(b)
    && c != [] && Trimmed(c) && d != [] && Trimmed(d)
  }

  /** The lines of a written block are read as the question, its options
      and the answer the answer line names. */
  lemma QuestionLinesRead(n: nat, q: string, a: string, b: string, c: string, d: string, ch: char)
    requires PlainFields(q, a, b, c, d) && AnswerChar(ch)
    ensures QuestionText(NatToString(n) + ". " + q) == Some(q)
    ensures OptionLine(['A'] + ") " + a) == Some(('A', a)) && OptionLine(['B'] + ") " + b) == Some(('B', b))
    ensures OptionLine(['C'] + ") " + c) == Some(('C', c)) && OptionLine(['D'] + ") " + d) == Some(('D', d))
    ensures "Answer: " + [ch] != [] && NormAnswer("Answer: " + [ch]) == NormAnswer([ch]) && NormAnswer([ch]).Some?
  {
    NumberedLine(n, q);
    OptionLineRead('A', a);
    OptionLineRead('B', b);
    OptionLineRead('C', c);
    OptionLineRead('D', d);
    AnswerLineRead(ch);
  }

  /** "<letter>) <text>" for an upper-case letter. */
  lemma OptionLineRead(ch: char, text: string)
    requires 'A' <= ch <= 'D' && text != [] && Trimmed(text)
    ensures OptionLine([ch] + ") " + text) == Some((ch, text))
  {
    LetteredLine(ch, text);
  }

  /** "Answer: <letter or digit>" names an answer. */
  lemma AnswerLineRead(ch: char)
    requires AnswerChar(ch)
    ensures "Answer: " + [ch] != [] && NormAnswer("Answer: " + [ch]) == NormAnswer([ch]) && NormAnswer([ch]).Some?
  {
    AnswerLabelled(ch);
    if IsOptionLetter(ch) {
      NormAnswerLetter(ch);
    } else {
      NormAnswerDigit(ch);
    }
  }

  /** The lines of a written block, found at `i`. */
  lemma LinesOfBlock(ls: seq<string>, i: nat, n: nat, q: string, a: string, b: string, c: string, d: string, ch: char)
    requires i + 6 <= |ls| && ls[i..i + 6] == QuestionLines(n, q, a, b, c, d, ch)
    ensures ls[i] == NatToString(n) + ". " + q
    ensures ls[i + 1] == ['A'] + ") " + a && ls[i + 2] == ['B'] + ") " + b
    ensures ls[i + 3] == ['C'] + ") " + c && ls[i + 4] == ['D'] + ") " + d
    ensures ls[i + 5] == "Answer: " + [ch]
  {
    var block := QuestionLines(n, q, a, b, c, d, ch);
    assert ls[i] == block[0] && ls[i + 1] == block[1] && ls[i + 2] == block[2];
    assert ls[i + 3] == block[3] && ls[i + 4] == block[4] && ls[i + 5] == block[5];
  }

  /** Scanning a written block, followed by the end or the next question,
      adds its question, with no explanation, after the ones found so far. */
  lemma ScanQuestionLines(ls: seq<string>, i: nat, qs: seq<ParsedQuestion>, es: seq<ParseError>,
                          n: nat, q: string, a: string, b: string, c: string, d: string, ch: char)
    requires PlainFields(q, a, b, c, d) && AnswerChar(ch)
    requires i + 6 <= |ls| && ls[i..i + 6] == QuestionLines(n, q, a, b, c, d, ch)
    requires i + 6 == |ls| || IsQuestionStart(ls[i + 6])
    ensures NormAnswer([ch]).Some?
    ensures Scan(ls, i, qs, es) ==
      Scan(ls, i + 6, qs + [ParsedQuestion(q, a, b, c, d, NormAnswer([ch]).value, None)], es)
  {
    QuestionLinesRead(n, q, a, b, c, d, ch);
    LinesOfBlock(ls, i, n, q, a, b, c, d, ch);
    ScanBlock(ls, i, qs, es, q, a, b, c, d, NormAnswer([ch]).value);
  }

  /** "Explanation: <text>" is an explanation line whose text is `e`. */
  lemma ExplanationLine(e: string)
    requires e != [] && Trimmed(e)
    ensures "Explanation: " + e != [] && !IsQuestionStart("Explanation: " + e)
    ensures ExplanationPart("Explanation: " + e) == e
  {
    ExplanationLineCut(e);
    var l := "Explanation: " + e;
    assert LStrip(l) == l && !IsDigit(l[0]);
  }

  lemma ExplanationLineCut(e: string)
    requires e != [] && Trimmed(e)
    ensures ExplanationPart("Explanation: " + e) == e
  {
    ExplanationPrefix(e);
    StripOneSpace(e);
  }

  lemma ExplanationPrefix(e: string)
    ensures StartsWithWord("Explanation: " + e, "explanation:")
    ensures ("Explanation: " + e)[12..] == " " + e
  {
    ExplanationHead(e);
    ExplanationWord();
  }

  lemma ExplanationHead(e: string)
    ensures |"Explanation: " + e| >= 12 && ("Explanation: " + e)[..12] == "Explanation:"
    ensures ("Explanation: " + e)[12..] == " " + e
  {
  }

  /** One space before a stripped text is all `strip` removes. */
  lemma StripOneSpace(e: string)
    requires e != [] && Trimmed(e)
    ensures Strip(" " + e) == e
  {
    assert " " + e == " " + e + "";
    StripPadded(" ", e, "");
    StripTrimmed(e);
  }

  lemma ExplanationWord()
    ensures LowerStr("Explanation:") == "explanation:"
  {
    ExplanationHalves();
    LowerStrAppend("Explan", "ation:");
    LowerExplan();
    LowerAtion();
  }

  lemma ExplanationHalves()
    ensures "Explanation:" == "Explan" + "ation:" && "explanation:" == "explan" + "ation:"
  {
  }

  lemma LowerExplan()
    ensures LowerStr("Explan") == "explan"
  {
  }

  lemma LowerAtion()
    ensures LowerStr("ation:") == "ation:"
  {
  }

  /** Lower-casing goes character by character. */
  lemma LowerStrAppend(x: string, y: string)
    ensures LowerStr(x + y) == LowerStr(x) + LowerStr(y)
  {
  }

  /** A written block with an "Explanation: <text>" line after the answer
      adds its question with that explanation. */
  lemma ScanExplainedLines(ls: seq<string>, i: nat, qs: seq<ParsedQuestion>, es: seq<ParseError>,
                           n: nat, q: string, a: string, b: string, c: string, d: string, ch: char, e: string)
    requires PlainFields(q, a, b, c, d) && AnswerChar(ch) && e != [] && Trimmed(e)
    requires i + 7 <= |ls| && ls[i..i + 6] == QuestionLines(n, q, a, b, c, d, ch)
    requires ls[i + 6] == "Explanation: " + e
    requires i + 7 == |ls| || IsQuestionStart(ls[i + 7])
    ensures NormAnswer([ch]).Some?
    ensures Scan(ls, i, qs, es) ==
      Scan(ls, i + 7, qs + [ParsedQuestion(q, a, b, c, d, NormAnswer([ch]).value, Some(e))], es)
  {
    QuestionLinesRead(n, q, a, b, c, d, ch);
    ExplanationLine(e);
    LinesOfBlock(ls, i, n, q, a, b, c, d, ch);
    ScanExplainedBlock(ls, i, qs, es, q, a, b, c, d, NormAnswer([ch]).value, e);
  }

  /** A text whose stripped lines are exactly one written block parses to
      that one question and no error. */
  lemma ParseOneBlock(text: string, n: nat, q: string, a: string, b: string, c: string, d: string, ch: char)
    requires PlainFields(q, a, b, c, d) && AnswerChar(ch)
    requires StripAll(RStripAll(SplitLines(text))) == QuestionLines(n, q, a, b, c, d, ch)
    ensures NormAnswer([ch]).Some?
    ensures Parse(text) == ([ParsedQuestion(q, a, b, c, d, NormAnswer([ch]).value, None)], [])
  {
    var ls := StripAll(RStripAll(SplitLines(text)));
    FirstLineNotBlank(n, q);
    LineMakesText(text, 0);
    WholeSlice(ls);
    OneBlockScan(ls, n, q, a, b, c, d, ch);
  }

  /** The lines of one written block alone are read as its question. */
  lemma OneBlockScan(ls: seq<string>, n: nat, q: string, a: string, b: string, c: string, d: string, ch: char)
    requires PlainFields(q, a, b, c, d) && AnswerChar(ch)
    requires |ls| == 6 && ls[0..6] == QuestionLines(n, q, a, b, c, d, ch)
    ensures NormAnswer([ch]).Some?
    ensures Scan(ls, 0, [], []) == ([ParsedQuestion(q, a, b, c, d, NormAnswer([ch]).value, None)], [])
  {
    ScanQuestionLines(ls, 0, [], [], n, q, a, b, c, d, ch);
    var pq := ParsedQuestion(q, a, b, c, d, NormAnswer([ch]).value, None);
    assert [] + [pq] == [pq];
    ScanAtEnd(ls, [pq], []);
  }

  lemma WholeSlice<T>(s: seq<T>)
    ensures s[0..|s|] == s
  {
  }

  lemma ScanAtEnd(ls: seq<string>, qs: seq<ParsedQuestion>, es: seq<ParseError>)
    ensures Scan(ls, |ls|, qs, es) == (qs, es)
  {
  }

  lemma FirstLineNotBlank(n: nat, q: string)
    requires q != [] && Trimmed(q)
    ensures NatToString(n) + ". " + q != []
  {
  }

  /** A text with a non-empty stripped line is not blank. */
  lemma LineMakesText(text: string, k: nat)
    requires k < |StripAll(RStripAll(SplitLines(text)))| && StripAll(RStripAll(SplitLines(text)))[k] != []
    ensures !IsBlank(text)
  {
    BlankTextBlankLines(text);
  }

  // ---- a block that is missing options

  /** The option loop over a run of option lines that is too short: it stops
      at the first line that is not an option, or at the end, having taken
      every option line of the run. */
  lemma {:induction false} ShortOptionRun(ls: seq<string>, j: nat, m: nat, opts: map<char, string>, got: nat)
    requires j <= m <= |ls| && got + (m - j) < 4
    requires forall k :: j <= k < m ==> OptionLine(ls[k]).Some?
    requires m == |ls| || (ls[m] != [] && OptionLine(ls[m]).None?)
    ensures ReadOptions(ls, j, opts, got).next == m && ReadOptions(ls, j, opts, got).got == got + (m - j)
    decreases m - j
  {
    if j < m {
      assert OptionLine(ls[j]).Some? && ls[j] != [];
      var (key, val) := OptionLine(ls[j]).value;
      ShortOptionRun(ls, j + 1, m, opts[key := val], got + 1);
    }
  }

  /** A question start followed by fewer than four option lines and then a
      line that is not an option (or the end) is rejected with a
      missing-options error naming the question's own line, and scanning
      resumes at the next question start. */
  lemma ScanMissingOptions(ls: seq<string>, i: nat, m: nat, qs: seq<ParsedQuestion>, es: seq<ParseError>)
    requires i < m <= |ls| && m - (i + 1) < 4 && IsQuestionStart(ls[i])
    requires forall k :: i < k < m ==> OptionLine(ls[k]).Some?
    requires m == |ls| || (ls[m] != [] && OptionLine(ls[m]).None?)
    ensures Scan(ls, i, qs, es) == Scan(ls, SkipToQuestion(ls, m), qs, es + [MissingOptions(i + 1)])
  {
    QuestionStartNotBlank(ls[i]);
    ShortOptionRun(ls, i + 1, m, map[], 0);
    assert ReadBlock(ls, i) == Rejected(MissingOptions(i + 1), SkipToQuestion(ls, m));
  }

  /** An all-whitespace text has only empty stripped lines. */
  lemma BlankTextBlankLines(text: string)
    ensures IsBlank(text) ==> forall k :: 0 <= k < |StripAll(RStripAll(SplitLines(text)))| ==>
      StripAll(RStripAll(SplitLines(text)))[k] == []
  {
    if IsBlank(text) {
      var lines := SplitLines(text);
      SplitLinesBlank(text);
      forall k | 0 <= k < |lines|
        ensures Strip(RStrip(lines[k])) == []
      {
        RStripPrefix(lines[k]);
        StripEmpty(RStrip(lines[k]));
      }
    }
  }

  /** `parse_quiz_text`, with the same index-driven loops as the source; the
      main loop is `ScanLines` and the body of one question block
      `ReadQuestionBlock`. */
  method ParseQuizText(text: string) returns (questions: seq<ParsedQuestion>, errors: seq<ParseError>)
    ensures (questions, errors) == Parse(text)
  {
    if IsBlank(text) {
      return [], [EmptyFile];
    }
    var lines := RStripAll(SplitLines(text));
    questions, errors := ScanLines(lines);
  }

  /** The main loop of `parse_quiz_text` over the right-stripped lines. */
  method ScanLines(lines: seq<string>) returns (questions: seq<ParsedQuestion>, errors: seq<ParseError>)
    ensures (questions, errors) == Scan(StripAll(lines), 0, [], [])
  {
    ghost var ls := StripAll(lines);
    ghost var goal := Scan(ls, 0, [], []);
    questions, errors := [], [];
    var i := 0;
    while i < |lines|
      invariant 0 <= i <= |lines|
      invariant Scan(ls, i, questions, errors) == goal
      decreases |lines| - i
    {
      var line := Strip(lines[i]);
      assert line == ls[i];
      if line == [] || !IsQuestionStart(line) {
        i := i + 1;
        continue;
      }
      var block := ReadQuestionBlock(lines, i);
      match block
      case Accepted(q, next) =>
        questions := questions + [q];
        i := next;
      case Rejected(e, next) =>
        errors := errors + [e];
        i := next;
      case Unfinished(e) =>
        errors := errors + [e];
        return;
    }
  }

  /** One pass of the main loop's body from a question start: the option
      loop, then the answer line and the explanation. */
  method ReadQuestionBlock(lines: seq<string>, start: nat) returns (b: Block)
    requires start < |lines| && IsQuestionStart(Strip(lines[start]))
    ensures b == ReadBlock(StripAll(lines), start)
  {
    ghost var ls := StripAll(lines);
    assert ls[start] == Strip(lines[start]);
    var qText := QuestionText(Strip(lines[start])).value;
    var startLine := start + 1;
    var i, opts, got := ReadOptionsLoop(lines, start + 1);
    if got < 4 || 'A' !in opts || 'B' !in opts || 'C' !in opts || 'D' !in opts {
      i := SkipToQuestionLoop(lines, i);
      return Rejected(MissingOptions(startLine), i);
    }
    i := SkipBlankLoop(lines, i);
    b := ReadAnswer(lines, startLine, qText, opts, i);
  }

  /** The answer line and the explanation after the options. */
  method ReadAnswer(lines: seq<string>, startLine: nat, qText: string, opts: map<char, string>, i: nat) returns (b: Block)
    requires i <= |lines| && 'A' in opts && 'B' in opts && 'C' in opts && 'D' in opts
    ensures b == AnswerBlock(StripAll(lines), startLine, qText, opts, i)
  {
    ghost var ls := StripAll(lines);
    if i >= |lines| {
      return Unfinished(MissingAnswer(startLine));
    }
    var ansLine := Strip(lines[i]);
    assert ansLine == ls[i];
    var ans := NormAnswer(ansLine);
    if ans.None? {
      var next := SkipToQuestionLoop(lines, i + 1);
      return Rejected(BadAnswer(i + 1, ansLine), next);
    }
    var next, explanation := ReadExplanation(lines, i + 1);
    return Accepted(ParsedQuestion(qText, opts['A'], opts['B'], opts['C'], opts['D'], ans.value, explanation), next);
  }

  /** The explanation after the answer line, and the line after it. */
  method ReadExplanation(lines: seq<string>, start: nat) returns (i: nat, explanation: Option<string>)
    requires start <= |lines|
    ensures (i, explanation) == ExplanationAfter(StripAll(lines), start)
  {
    i := SkipBlankLoop(lines, start);
    if i < |lines| && IsQuestionStart(Strip(lines[i])) {
      explanation := None;
    } else {
      var explLines;
      i, explLines := CollectExplanationLoop(lines, i);
      explanation := ExplanationOf(explLines);
    }
  }

  /** The option loop: at most four option lines, blank lines skipped. */
  method ReadOptionsLoop(lines: seq<string>, start: nat) returns (i: nat, opts: map<char, string>, got: nat)
    requires start <= |lines|
    ensures OptionScan(i, opts, got) == ReadOptions(StripAll(lines), start, map[], 0)
  {
    ghost var ls := StripAll(lines);
    i, opts, got := start, map[], 0;
    while i < |lines| && got < 4
      invariant start <= i <= |lines|
      invariant ReadOptions(ls, i, opts, got) == ReadOptions(ls, start, map[], 0)
      decreases |lines| - i
    {
      var l := Strip(lines[i]);
      assert l == ls[i];
      if l == [] {
        i := i + 1;
        continue;
      }
      var mo := OptionLine(l);
      if mo.None? {
        break;
      }
      var (key, val) := mo.value;
      opts := opts[key := val];
      got := got + 1;
      i := i + 1;
    }
  }

  /** `while i < len(lines) and not (lines[i] or "").strip(): i += 1`. */
  method SkipBlankLoop(lines: seq<string>, start: nat) returns (i: nat)
    requires start <= |lines|
    ensures i == SkipBlank(StripAll(lines), start)
  {
    ghost var ls := StripAll(lines);
    i := start;
    while i < |lines| && Strip(lines[i]) == []
      invariant start <= i <= |lines|
      invariant SkipBlank(ls, i) == SkipBlank(ls, start)
      decreases |lines| - i
    {
      assert ls[i] == [];
      i := i + 1;
    }
    assert i == |ls| || ls[i] != [];
  }

  /** `while i < len(lines) and not is_question_start((lines[i] or "").strip()): i += 1`. */
  method SkipToQuestionLoop(lines: seq<string>, start: nat) returns (i: nat)
    requires start <= |lines|
    ensures i == SkipToQuestion(StripAll(lines), start)
  {
    i := start;
    while i < |lines| && !IsQuestionStart(Strip(lines[i]))
      invariant start <= i <= |lines|
      invariant SkipToQuestion(StripAll(lines), i) == SkipToQuestion(StripAll(lines), start)
      decreases |lines| - i
    {
      i := i + 1;
    }
  }

  /** The explanation-reading loop. */
  method CollectExplanationLoop(lines: seq<string>, start: nat) returns (i: nat, explLines: seq<string>)
    requires start <= |lines|
    ensures (i, explLines) == CollectExplanation(StripAll(lines), start, [])
  {
    ghost var ls := StripAll(lines);
    ghost var goal := CollectExplanation(ls, start, []);
    i := start;
    explLines := [];
    while i < |lines|
      invariant start <= i <= |lines|
      invariant CollectExplanation(ls, i, explLines) == goal
      decreases |lines| - i
    {
      var l := Strip(lines[i]);
      assert l == ls[i];
      if IsQuestionStart(l) {
        break;
      }
      if l != [] {
        explLines := explLines + [ExplanationPart(l)];
      }
      i := i + 1;
    }
  }
}
