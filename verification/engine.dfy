/** The live poll-quiz engine of bot/handlers/poll_quiz.py: the session
    registry `SESSIONS`, the poll index `POLL_INDEX`, and the handlers that
    start, dispatch, advance, time out, record answers and stop.

    Each handler is one atomic method. What the bot sends (texts, quiz polls,
    the results message) and the timers it arms are appended to `outbox`;
    a timer firing later is the separate event `TimerFire`, carrying the step
    id it captured. Poll ids and message ids that Telegram hands back, the
    database lookups, the user's time limit and the clock are parameters. */
module PollEngine {
  import opened Text
  import opened PollQuiz
  import opened Leaderboard

  /** A `POLL_INDEX` entry: the session a poll belongs to, its message, and its step. */
  datatype PollRef = PollRef(key: SessionKey, messageId: int, stepId: int)

  /** The fixed texts the engine sends. */
  datatype Notice =
    | QuizNotFound                          // "Quiz not found or not published."
    | NoQuestions                           // "This quiz has no questions."
    | AlreadyRunning                        // "A quiz is already running here. ..."
    | Starting(title: string, seconds: int) // "Starting: {title}" and "Each question: {seconds} sec"
    | NothingToStop                         // "No active quiz to stop."
    | QuizStopped                           // "Quiz stopped."

  /** Everything the engine hands to Telegram or to the event loop. */
  datatype Outgoing =
    | Say(chatId: int, notice: Notice)
    | Poll(chatId: int, pollId: string, messageId: int, number: nat, row: QuestionRow, openPeriod: int)
    | Timer(key: SessionKey, stepId: int, seconds: int)
    | Results(chatId: int, board: Board)

  /** What `_start_session` reports. */
  datatype StartOutcome = NotFound | EmptyQuiz | Conflict | Started

  /** The time limit used when the user's settings have none. */
  const DefaultSeconds := 30

  /** The bookkeeping every session keeps: steps are numbered 1..stepId, each
      dispatched step has a correct index 0..3, answers exist only for
      dispatched steps, and every user who answered has a name and both
      timestamps. */
  ghost predicate StepsOk(s: Session)
  {
    && s.stepId >= 0
    && (forall st :: st in s.correctByStep ==> 1 <= st <= s.stepId && 0 <= s.correctByStep[st] < 4)
    && (forall st :: st in s.answers ==> st in s.correctByStep && s.answers[st].Keys <= s.firstSeen.Keys)
    && s.firstSeen.Keys == s.lastSeen.Keys
    && s.firstSeen.Keys == s.display.Keys
  }

  /** A session between events: its current question has been sent, as
      step `stepId`. (That the step's correct index is the question's is
      stated by `Dispatched`.) */
  ghost predicate Live(s: Session)
  {
    && StepsOk(s)
    && 0 <= s.qIndex < |s.questions|
    && s.stepId >= 1
    && s.stepId in s.correctByStep
  }

  /** What `send_poll_question` puts into a quiz poll for question number
      `number`: the numbered, truncated question and the normalised options,
      correct index and explanation of `_to_options`. */
  function PollContent(number: nat, row: QuestionRow): (p: PollQuestion)
    ensures var q := ToOptions(row);
      p.options == q.options && p.correctIndex == q.correctIndex && p.explanation == q.explanation
    ensures |p.text| <= QuestionLimit + 2 && p.text != []
  {
    var q := ToOptions(row);
    var title := IntToString(number) + ". " + q.text;
    TruncateFacts(title, QuestionLimit);
    assert title[0] == IntToString(number)[0];
    PollQuestion(Truncate(title, QuestionLimit), q.options, q.correctIndex, q.explanation)
  }

  /** A numbered question that fits the limit is sent exactly as
      "<number>. <question>": the strip inside `_truncate` finds nothing to
      remove, because the number starts it and the stripped question ends it. */
  lemma NumberedQuestion(number: nat, row: QuestionRow)
    requires |IntToString(number) + ". " + ToOptions(row).text| <= QuestionLimit
    ensures PollContent(number, row).text == IntToString(number) + ". " + ToOptions(row).text
  {
    var q := ToOptions(row);
    var title := IntToString(number) + ". " + q.text;
    if !IsBlank(row.qText) {
      TruncateFacts(row.qText, QuestionLimit);
      assert !IsSpace(q.text[|q.text| - 1]);
    }
    assert title[|title| - 1] == q.text[|q.text| - 1];
    assert title[0] == IntToString(number)[0];
    StripTrimmed(title);
  }

  /** The quiz poll `send_poll_question` sends for the current question. */
  function PollFor(s: Session, chatId: int, pollId: string, messageId: int): Outgoing
    requires 0 <= s.qIndex < |s.questions|
  {
    Poll(chatId, pollId, messageId, s.qIndex + 1, s.questions[s.qIndex], ClampOpenPeriod(s.seconds))
  }

  /** The session after its current question was sent: one more step, whose
      correct index is recorded; nothing else changes. */
  function Dispatched(s: Session): (d: Session)
    requires 0 <= s.qIndex < |s.questions|
    ensures d.stepId == s.stepId + 1
    ensures d.stepId in d.correctByStep && d.correctByStep[d.stepId] == CorrectIndex(s.questions[s.qIndex].correct)
    ensures forall st :: st != d.stepId ==>
      (st in d.correctByStep <==> st in s.correctByStep) &&
      (st in s.correctByStep ==> d.correctByStep[st] == s.correctByStep[st])
    ensures d.(stepId := s.stepId, correctByStep := s.correctByStep) == s
  {
    var step := s.stepId + 1;
    s.(stepId := step, correctByStep := s.correctByStep[step := CorrectIndex(s.questions[s.qIndex].correct)])
  }

  /** Sending the current question makes a well-kept session live. */
  lemma DispatchedLive(s: Session)
    requires StepsOk(s) && 0 <= s.qIndex < |s.questions|
    ensures Live(Dispatched(s))
  {
    var d := Dispatched(s);
    assert d.answers == s.answers && d.firstSeen == s.firstSeen && d.display == s.display;
    assert CorrectIndex(s.questions[s.qIndex].correct) < 4;
  }

  /** The name `on_poll_answer` stores: "@username", else the full name, else "User". */
  function AnswerName(username: Option<string>, fullName: string): (name: string)
    ensures name != []
    ensures username.Some? && username.value != [] ==> name == "@" + username.value
    ensures (username.None? || username.value == []) && fullName != [] ==> name == fullName
    ensures (username.None? || username.value == []) && fullName == [] ==> name == "User"
  {
    if username.Some? && username.value != [] then "@" + username.value
    else if fullName != [] then fullName
    else "User"
  }

  /** The chosen option: the first option id, or -1 when none was given
      (a retracted vote). */
  function Chosen(optionIds: seq<int>): (c: int)
    ensures optionIds == [] ==> c == -1
    ensures optionIds != [] ==> c == optionIds[0]
  {
    if |optionIds| > 0 then optionIds[0] else -1
  }

  /** The session after `user` answered step `step` with `chosen` at time
      `now`: the answer overwrites any earlier one of that user in that step,
      the name is replaced, the first time is kept when there is one, the
      last time is `now`. No other answer changes, and nothing else does. */
  function Recorded(s: Session, step: int, user: int, chosen: int, name: string, now: nat): (d: Session)
    ensures step in d.answers && user in d.answers[step] && d.answers[step][user] == chosen
    ensures forall st :: st != step ==> (st in d.answers <==> st in s.answers) && (st in s.answers ==> d.answers[st] == s.answers[st])
    ensures forall u :: u != user ==>
      (u in d.answers[step] <==> step in s.answers && u in s.answers[step]) &&
      (step in s.answers && u in s.answers[step] ==> d.answers[step][u] == s.answers[step][u])
    ensures d.display == s.display[user := name]
    ensures d.lastSeen == s.lastSeen[user := now]
    ensures user in s.firstSeen ==> d.firstSeen == s.firstSeen
    ensures user !in s.firstSeen ==> d.firstSeen == s.firstSeen[user := now]
    ensures d.(answers := s.answers, display := s.display, firstSeen := s.firstSeen, lastSeen := s.lastSeen) == s
  {
    var stepAnswers := if step in s.answers then s.answers[step] else map[];
    s.(answers := s.answers[step := stepAnswers[user := chosen]],
       display := s.display[user := name],
       firstSeen := if user in s.firstSeen then s.firstSeen else s.firstSeen[user := now],
       lastSeen := s.lastSeen[user := now])
  }

  /** Recording an answer to the current step keeps a session live. */
  lemma RecordedLive(s: Session, user: int, chosen: int, name: string, now: nat)
    requires Live(s)
    ensures Live(Recorded(s, s.stepId, user, chosen, name, now))
  {
    var d := Recorded(s, s.stepId, user, chosen, name, now);
    forall st, u | st in d.answers && u in d.answers[st] ensures u in d.firstSeen {
      if st != s.stepId || u != user {
        if st == s.stepId {
          assert u in s.answers[st];
        }
      }
    }
  }

  /** A user's first time survives later answers; the last answer and time win. */
  lemma LaterAnswerWins(s: Session, step: int, user: int, c1: int, n1: string, t1: nat, c2: int, n2: string, t2: nat)
    ensures var d := Recorded(Recorded(s, step, user, c1, n1, t1), step, user, c2, n2, t2);
      d.answers[step][user] == c2 && d.display[user] == n2 && d.lastSeen[user] == t2 &&
      d.firstSeen[user] == (if user in s.firstSeen then s.firstSeen[user] else t1)
  {
  }

  /** Recording one user's answer leaves every other user's score as it was. */
  lemma {:induction false} RecordedOtherScores(s: Session, step: int, user: int, chosen: int, name: string, now: nat, v: int)
    requires v != user
    ensures Score(Recorded(s, step, user, chosen, name, now), v) == Score(s, v)
  {
    var d := Recorded(s, step, user, chosen, name, now);
    var a := CorrectStepsIn(d, v, d.answers.Keys);
    var b := CorrectStepsIn(s, v, s.answers.Keys);
    forall st | st in a ensures st in b {
      if st == step {
        assert v in s.answers[step];
      }
    }
    forall st | st in b ensures st in a {
      assert st in d.answers;
    }
    assert a == b;
  }

  /** In a well-kept session everyone on the leaderboard has both timestamps,
      so the 10**9 latency never applies. */
  lemma ParticipantsTimed(s: Session, u: int)
    requires StepsOk(s) && u in Participants(s)
    ensures Latency(s, u) == s.lastSeen[u] as int - s.firstSeen[u]
  {
    var st, v :| st in s.answers.Keys && st in s.answers && st in s.correctByStep && v in s.answers[st] && v == u;
  }

  ghost predicate AllLive(m: map<SessionKey, Session>)
  {
    forall k :: k in m ==> Live(m[k])
  }

  lemma AllLiveUpdate(m: map<SessionKey, Session>, key: SessionKey, s: Session)
    requires forall k :: k in m && k != key ==> Live(m[k])
    requires Live(s)
    ensures AllLive(m[key := s])
  {
  }

  lemma AllLiveRemove(m: map<SessionKey, Session>, key: SessionKey)
    requires AllLive(m)
    ensures AllLive(m - {key})
  {
  }

  class Engine {
    /** `SESSIONS`: the running quiz of each key. */
    var sessions: map<SessionKey, Session>
    /** `POLL_INDEX`: every poll sent so far (entries are never removed). */
    var polls: map<string, PollRef>
    /** What has been sent and which timers have been armed, oldest first. */
    var outbox: seq<Outgoing>

    /** Every registered session is live. */
    ghost predicate Valid()
      reads this
    {
      AllLive(sessions)
    }

    constructor ()
      ensures sessions == map[] && polls == map[] && outbox == []
      ensures Valid()
    {
      sessions := map[];
      polls := map[];
      outbox := [];
    }

    /** `send_poll_question` for session `s` registered under `key`: send
        its current question as a quiz poll, advance its step, remember the
        step's correct index and the poll, and arm the timer for the open
        period. */
    method SendPollQuestion(key: SessionKey, s: Session, pollId: string, messageId: int)
      requires StepsOk(s) && 0 <= s.qIndex < |s.questions|
      requires forall k :: k in sessions && k != key ==> Live(sessions[k])
      modifies this
      ensures sessions == old(sessions)[key := Dispatched(s)]
      ensures polls == old(polls)[pollId := PollRef(key, messageId, s.stepId + 1)]
      ensures outbox == old(outbox) + [PollFor(s, key.chatId, pollId, messageId),
                                       Timer(key, s.stepId + 1, ClampOpenPeriod(s.seconds))]
      ensures Valid()
    {
      var msg := PollFor(s, key.chatId, pollId, messageId);
      var d := Dispatched(s);
      DispatchedLive(s);
      AllLiveUpdate(sessions, key, d);
      sessions := sessions[key := d];
      polls := polls[pollId := PollRef(key, messageId, d.stepId)];
      outbox := outbox + [msg, Timer(key, d.stepId, msg.openPeriod)];
    }

    /** `_start_session`. `quiz` is the published quiz the code resolves to
        (id and title), `questions` its questions, `timeLimit` the user's
        stored time limit; `pollId` and `messageId` identify the first poll. */
    method Start(chatType: string, chatId: int, userId: int, quiz: Option<(int, string)>,
                 questions: seq<QuestionRow>, timeLimit: Option<int>, pollId: string, messageId: int)
      returns (outcome: StartOutcome)
      requires Valid()
      modifies this
      ensures Valid()
      ensures quiz.None? ==>
        outcome == NotFound && sessions == old(sessions) && polls == old(polls) &&
        outbox == old(outbox) + [Say(chatId, QuizNotFound)]
      ensures quiz.Some? && questions == [] ==>
        outcome == EmptyQuiz && sessions == old(sessions) && polls == old(polls) &&
        outbox == old(outbox) + [Say(chatId, NoQuestions)]
      ensures quiz.Some? && questions != [] && SessionKeyFor(chatType, chatId, userId) in old(sessions) ==>
        outcome == Conflict && sessions == old(sessions) && polls == old(polls) &&
        outbox == old(outbox) + [Say(chatId, AlreadyRunning)]
      ensures quiz.Some? && questions != [] && SessionKeyFor(chatType, chatId, userId) !in old(sessions) ==>
        var key := SessionKeyFor(chatType, chatId, userId);
        var seconds := if timeLimit.Some? then timeLimit.value else DefaultSeconds;
        var s := NewSession(quiz.value.0, quiz.value.1, questions, seconds);
        && outcome == Started
        && sessions == old(sessions)[key := Dispatched(s)]
        && polls == old(polls)[pollId := PollRef(key, messageId, 1)]
        && outbox == old(outbox) + [Say(chatId, Starting(quiz.value.1, seconds))]
                                  + [PollFor(s, chatId, pollId, messageId), Timer(key, 1, ClampOpenPeriod(seconds))]
    {
      if quiz.None? {
        outbox := outbox + [Say(chatId, QuizNotFound)];
        return NotFound;
      }
      var (quizId, title) := quiz.value;
      if questions == [] {
        outbox := outbox + [Say(chatId, NoQuestions)];
        return EmptyQuiz;
      }
      var seconds := if timeLimit.Some? then timeLimit.value else DefaultSeconds;
      var key := SessionKeyFor(chatType, chatId, userId);
      if key in sessions {
        outbox := outbox + [Say(chatId, AlreadyRunning)];
        return Conflict;
      }
      Launch(key, quizId, title, questions, seconds, pollId, messageId);
      outcome := Started;
    }

    /** The last part of `_start_session`: register a fresh session, announce
        it, and send its first question. */
    method Launch(key: SessionKey, quizId: int, title: string, questions: seq<QuestionRow>, seconds: int,
                  pollId: string, messageId: int)
      requires Valid() && key !in sessions && questions != []
      modifies this
      ensures Valid()
      ensures var s := NewSession(quizId, title, questions, seconds);
        && sessions == old(sessions)[key := Dispatched(s)]
        && polls == old(polls)[pollId := PollRef(key, messageId, 1)]
        && outbox == old(outbox) + [Say(key.chatId, Starting(title, seconds))]
                                  + [PollFor(s, key.chatId, pollId, messageId), Timer(key, 1, ClampOpenPeriod(seconds))]
    {
      var s := NewSession(quizId, title, questions, seconds);
      outbox := outbox + [Say(key.chatId, Starting(title, seconds))];
      SendPollQuestion(key, s, pollId, messageId);
    }

    /** `_send_next_or_finish`: move the session at `key` to its next
        question; past the last one, send the results and drop the session. */
    method SendNextOrFinish(key: SessionKey, pollId: string, messageId: int)
      requires Valid()
      modifies this
      ensures Valid()
      ensures key !in old(sessions) ==> sessions == old(sessions) && polls == old(polls) && outbox == old(outbox)
      ensures key in old(sessions) && old(sessions[key]).qIndex + 1 >= |old(sessions[key]).questions| ==>
        && sessions == old(sessions) - {key}
        && polls == old(polls)
        && |outbox| == |old(outbox)| + 1 && outbox[..|old(outbox)|] == old(outbox)
        && outbox[|old(outbox)|].Results? && outbox[|old(outbox)|].chatId == key.chatId
        && IsLeaderboard(old(sessions[key]), outbox[|old(outbox)|].board)
      ensures key in old(sessions) && old(sessions[key]).qIndex + 1 < |old(sessions[key]).questions| ==>
        var s := old(sessions[key]).(qIndex := old(sessions[key]).qIndex + 1);
        && sessions == old(sessions)[key := Dispatched(s)]
        && polls == old(polls)[pollId := PollRef(key, messageId, s.stepId + 1)]
        && outbox == old(outbox) + [PollFor(s, key.chatId, pollId, messageId), Timer(key, s.stepId + 1, ClampOpenPeriod(s.seconds))]
    {
      if key !in sessions {
        return;
      }
      if sessions[key].qIndex + 1 >= |sessions[key].questions| {
        var board := Finish(key);
      } else {
        Advance(key, pollId, messageId);
      }
    }

    /** The quiz at `key` moves to its next question, which is sent. */
    method Advance(key: SessionKey, pollId: string, messageId: int)
      requires Valid() && key in sessions && sessions[key].qIndex + 1 < |sessions[key].questions|
      modifies this
      ensures Valid()
      ensures var s := old(sessions[key]).(qIndex := old(sessions[key]).qIndex + 1);
        && sessions == old(sessions)[key := Dispatched(s)]
        && polls == old(polls)[pollId := PollRef(key, messageId, s.stepId + 1)]
        && outbox == old(outbox) + [PollFor(s, key.chatId, pollId, messageId), Timer(key, s.stepId + 1, ClampOpenPeriod(s.seconds))]
    {
      SendPollQuestion(key, sessions[key].(qIndex := sessions[key].qIndex + 1), pollId, messageId);
    }

    /** The end of a quiz: the results go to the session's chat and the
        session is dropped. The board does not depend on the question index,
        so it is built from the session as it stood. */
    method Finish(key: SessionKey) returns (board: Board)
      requires Valid() && key in sessions
      modifies this
      ensures Valid()
      ensures IsLeaderboard(old(sessions[key]), board)
      ensures sessions == old(sessions) - {key} && polls == old(polls)
      ensures outbox == old(outbox) + [Results(key.chatId, board)]
    {
      var rows;
      rows, board := BuildLeaderboard(sessions[key]);
      outbox := outbox + [Results(key.chatId, board)];
      AllLiveRemove(sessions, key);
      sessions := sessions - {key};
    }

    /** `_schedule_next` when its sleep ends: a timer of a session that is gone,
        or of a step that is no longer current, does nothing; otherwise the
        quiz moves on. */
    method TimerFire(key: SessionKey, stepId: int, pollId: string, messageId: int)
      requires Valid()
      modifies this
      ensures Valid()
      ensures key !in old(sessions) || old(sessions[key]).stepId != stepId ==>
        sessions == old(sessions) && polls == old(polls) && outbox == old(outbox)
      ensures key in old(sessions) && old(sessions[key]).stepId == stepId &&
              old(sessions[key]).qIndex + 1 >= |old(sessions[key]).questions| ==>
        && sessions == old(sessions) - {key}
        && polls == old(polls)
        && |outbox| == |old(outbox)| + 1 && outbox[..|old(outbox)|] == old(outbox)
        && outbox[|old(outbox)|].Results? && outbox[|old(outbox)|].chatId == key.chatId
        && IsLeaderboard(old(sessions[key]), outbox[|old(outbox)|].board)
      ensures key in old(sessions) && old(sessions[key]).stepId == stepId &&
              old(sessions[key]).qIndex + 1 < |old(sessions[key]).questions| ==>
        var s := old(sessions[key]).(qIndex := old(sessions[key]).qIndex + 1);
        && sessions == old(sessions)[key := Dispatched(s)]
        && polls == old(polls)[pollId := PollRef(key, messageId, stepId + 1)]
        && outbox == old(outbox) + [PollFor(s, key.chatId, pollId, messageId), Timer(key, stepId + 1, ClampOpenPeriod(s.seconds))]
    {
      if key !in sessions || sessions[key].stepId != stepId {
        return;
      }
      SendNextOrFinish(key, pollId, messageId);
    }

    /** `on_poll_answer`: an answer to an unknown poll, to a poll whose session
        is gone, or to a poll of an earlier step is dropped; otherwise it is
        recorded under the poll's step. */
    method OnPollAnswer(pollId: string, userId: int, username: Option<string>, fullName: string,
                        optionIds: seq<int>, now: nat)
      requires Valid()
      modifies this
      ensures Valid()
      ensures polls == old(polls) && outbox == old(outbox)
      ensures pollId !in polls || polls[pollId].key !in old(sessions) ||
              old(sessions[polls[pollId].key]).stepId != polls[pollId].stepId ==>
        sessions == old(sessions)
      ensures pollId in polls && polls[pollId].key in old(sessions) &&
              old(sessions[polls[pollId].key]).stepId == polls[pollId].stepId ==>
        var ref := polls[pollId];
        sessions == old(sessions)[ref.key := Recorded(old(sessions[ref.key]), ref.stepId, userId,
                                                      Chosen(optionIds), AnswerName(username, fullName), now)]
    {
      if pollId !in polls {
        return;
      }
      var ref := polls[pollId];
      if ref.key !in sessions {
        return;
      }
      var s := sessions[ref.key];
      if s.stepId != ref.stepId {
        return;
      }
      var chosen := if |optionIds| > 0 then optionIds[0] else -1;
      var stepAnswers := if ref.stepId in s.answers then s.answers[ref.stepId] else map[];
      var name := AnswerName(username, fullName);
      var firstSeen := if userId in s.firstSeen then s.firstSeen else s.firstSeen[userId := now];
      RecordedLive(s, userId, chosen, name, now);
      sessions := sessions[ref.key := s.(answers := s.answers[ref.stepId := stepAnswers[userId := chosen]],
                                         display := s.display[userId := name],
                                         firstSeen := firstSeen,
                                         lastSeen := s.lastSeen[userId := now])];
    }

    /** `stop_quiz`: drop the session of the caller's key, if any, and say so.
        The dropped session is returned with its step advanced once more. */
    method Stop(chatType: string, chatId: int, userId: int) returns (stopped: Option<Session>)
      requires Valid()
      modifies this
      ensures Valid()
      ensures polls == old(polls)
      ensures var key := SessionKeyFor(chatType, chatId, userId);
        && (key in old(sessions) ==>
              && stopped == Some(old(sessions[key]).(stepId := old(sessions[key]).stepId + 1))
              && sessions == old(sessions) - {key}
              && outbox == old(outbox) + [Say(chatId, QuizStopped)])
        && (key !in old(sessions) ==>
              stopped == None && sessions == old(sessions) && outbox == old(outbox) + [Say(chatId, NothingToStop)])
    {
      var key := SessionKeyFor(chatType, chatId, userId);
      if key !in sessions {
        outbox := outbox + [Say(chatId, NothingToStop)];
        return None;
      }
      var s := sessions[key];
      sessions := sessions - {key};
      stopped := Some(s.(stepId := s.stepId + 1));
      outbox := outbox + [Say(chatId, QuizStopped)];
    }
  }

  /** The step counter decides races between events on one quiz: once the
      timer of step 1 has moved the quiz on, a late answer to the step-1 poll
      is dropped and an early one stays counted, and the same timer firing
      again does nothing. */
  method TimerBeatsLateAnswer(questions: seq<QuestionRow>, user: int, now: nat) returns (e: Engine)
    requires |questions| >= 2
    ensures Group(7) in e.sessions
    ensures e.sessions[Group(7)].stepId == 2 && e.sessions[Group(7)].qIndex == 1
    ensures 1 in e.sessions[Group(7)].answers && e.sessions[Group(7)].answers[1] == map[user := 0]
    ensures e.sessions[Group(7)].firstSeen == map[user := now]
  {
    e := new Engine();
    var started := e.Start("group", 7, user, Some((1, "Capitals")), questions, None, "p1", 100);
    e.OnPollAnswer("p1", user, None, "Ann", [0], now);
    ghost var answered := e.sessions[Group(7)];
    assert answered.stepId == 1 && answered.qIndex == 0 && answered.answers == map[1 := map[user := 0]];
    assert answered.firstSeen == map[user := now];
    e.TimerFire(Group(7), 1, "p2", 101);
    assert e.sessions == map[Group(7) := Dispatched(answered.(qIndex := 1))];
    e.OnPollAnswer("p1", user, None, "Ann", [3], now + 5);
    e.TimerFire(Group(7), 1, "p3", 102);
  }

  /** Stopping bumps the step of the session it drops, but a quiz started
      again under the same key counts its steps from 1 again: a vote on the
      first run's opening poll is then recorded in the new run. */
  method RestartRevivesOldPoll(questions: seq<QuestionRow>, user: int, now: nat) returns (e: Engine)
    requires |questions| >= 1
    ensures Group(7) in e.sessions && e.sessions[Group(7)].stepId == 1
    ensures 1 in e.sessions[Group(7)].answers && e.sessions[Group(7)].answers[1] == map[user := 2]
  {
    e := new Engine();
    var first := e.Start("supergroup", 7, user, Some((1, "Capitals")), questions, None, "p1", 100);
    var stopped := e.Stop("group", 7, user + 1);
    var second := e.Start("group", 7, user, Some((1, "Capitals")), questions, None, "p2", 200);
    e.OnPollAnswer("p1", user, Some("ann"), "Ann", [2], now);
  }

  /** The same restart seen from the timer side: the first run's pending
      timer for step 1 passes the staleness check, which compares only step
      ids, and moves the new run to its second question before the period
      of its first question has run out. */
  method RestartStaleTimerAdvances(questions: seq<QuestionRow>, user: int) returns (e: Engine)
    requires |questions| >= 2
    ensures Group(7) in e.sessions && e.sessions[Group(7)].stepId == 2 && e.sessions[Group(7)].qIndex == 1
  {
    e := new Engine();
    assert SessionKeyFor("supergroup", 7, user) == Group(7) == SessionKeyFor("group", 7, user + 1);
    var first := e.Start("supergroup", 7, user, Some((1, "Capitals")), questions, None, "p1", 100);
    var stopped := e.Stop("group", 7, user + 1);
    assert e.sessions == map[];
    var second := e.Start("group", 7, user, Some((1, "Capitals")), questions, None, "p2", 200);
    ghost var again := e.sessions[Group(7)];
    assert again.stepId == 1 && again.qIndex + 1 < |again.questions|;
    e.TimerFire(Group(7), 1, "p3", 300);
  }
}
