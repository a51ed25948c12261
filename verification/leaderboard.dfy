/** The results of a finished poll quiz (`_build_leaderboard_text` in
    bot/handlers/poll_quiz.py): per-user scores, one row per participant,
    ordered by score and then by speed, of which the first 15 are shown. */
module Leaderboard {
  import opened Text
  import opened PollQuiz

  /** The latency given to a user with a missing timestamp: 10**9 seconds,
      which sorts after every real latency. */
  const MissingLatency := 1000000000
  /** Only the first 15 ranked rows are shown. */
  const MaxShown := 15

  /** The steps among `steps` that have a known correct index and that `u`
      answered with exactly that index. */
  function CorrectStepsIn(s: Session, u: int, steps: set<int>): set<int>
  {
    set st | st in steps && st in s.answers && st in s.correctByStep && u in s.answers[st]
      && s.answers[st][u] == s.correctByStep[st]
  }

  /** The users with a recorded answer in some step among `steps` whose
      correct index is known. */
  function AnsweredIn(s: Session, steps: set<int>): set<int>
  {
    set st, u | st in steps && st in s.answers && st in s.correctByStep && u in s.answers[st] :: u
  }

  /** The users who get a row: those who answered a step with a known correct index. */
  function Participants(s: Session): set<int>
  {
    AnsweredIn(s, s.answers.Keys)
  }

  /** A user's score: the number of steps they answered correctly. */
  function Score(s: Session, u: int): nat
  {
    |CorrectStepsIn(s, u, s.answers.Keys)|
  }

  /** A user scores only by answering, and at most once per step whose
      correct index is known. */
  lemma {:induction false} ScoreBounds(s: Session, u: int)
    ensures Score(s, u) <= |s.correctByStep|
    ensures Score(s, u) > 0 ==> u in Participants(s)
  {
    var c := CorrectStepsIn(s, u, s.answers.Keys);
    assert c <= s.correctByStep.Keys;
    SubsetCard(c, s.correctByStep.Keys);
    if Score(s, u) > 0 {
      var st := Member(c);
      assert u in AnsweredIn(s, s.answers.Keys);
    }
  }

  lemma {:induction false} SubsetCard<T>(a: set<T>, b: set<T>)
    requires a <= b
    ensures |a| <= |b|
    decreases |a|
  {
    if a != {} {
      var x := Member(a);
      SubsetCard(a - {x}, b - {x});
    }
  }

  /** Some element of a non-empty set: the order in which a dict hands out its
      keys is not modelled, so the loops below may visit them in any order. */
  method Pick<T>(xs: set<T>) returns (x: T)
    requires xs != {}
    ensures x in xs
  {
    x :| x in xs;
  }

  /** The same choice for the proofs: a lemma cannot call the method above,
      and the method cannot use a lemma's ghost result as a loop's key. */
  lemma Member<T>(xs: set<T>) returns (x: T)
    requires xs != {}
    ensures x in xs
  {
    x :| x in xs;
  }

  // ---- how one more step changes the score of a user

  lemma StepScored(s: Session, u: int, done: set<int>, st: int)
    requires st !in done && st in s.answers && st in s.correctByStep
    ensures AnsweredIn(s, done + {st}) == AnsweredIn(s, done) + s.answers[st].Keys
    ensures u in s.answers[st] && s.answers[st][u] == s.correctByStep[st] ==>
      |CorrectStepsIn(s, u, done + {st})| == |CorrectStepsIn(s, u, done)| + 1
    ensures !(u in s.answers[st] && s.answers[st][u] == s.correctByStep[st]) ==>
      CorrectStepsIn(s, u, done + {st}) == CorrectStepsIn(s, u, done)
  {
    var before := AnsweredIn(s, done);
    var after := AnsweredIn(s, done + {st});
    forall v | v in after ensures v in before + s.answers[st].Keys {
      var st' :| st' in done + {st} && st' in s.answers && st' in s.correctByStep && v in s.answers[st'];
    }
    forall v | v in s.answers[st].Keys ensures v in after {
      assert st in done + {st} && st in s.answers && st in s.correctByStep && v in s.answers[st];
    }
    if u in s.answers[st] && s.answers[st][u] == s.correctByStep[st] {
      assert st !in CorrectStepsIn(s, u, done);
      assert CorrectStepsIn(s, u, done + {st}) == CorrectStepsIn(s, u, done) + {st};
    }
  }

  lemma StepSkipped(s: Session, done: set<int>, st: int)
    requires st !in s.correctByStep
    ensures AnsweredIn(s, done + {st}) == AnsweredIn(s, done)
    ensures forall u :: CorrectStepsIn(s, u, done + {st}) == CorrectStepsIn(s, u, done)
  {
  }

  /** A user with no answer in the given steps has no correct step there. */
  lemma NoAnswerNoScore(s: Session, u: int, done: set<int>)
    ensures CorrectStepsIn(s, u, done) != {} ==> u in AnsweredIn(s, done)
  {
    if CorrectStepsIn(s, u, done) != {} {
      var st := Member(CorrectStepsIn(s, u, done));
      assert st in done && st in s.answers && st in s.correctByStep && u in s.answers[st];
    }
  }

  /** One pass of the inner loop over a scored step turns the scores of the
      steps before it into the scores including it. */
  lemma ScoresAfterStep(s: Session, done: set<int>, st: int, base: map<int, nat>, score: map<int, nat>)
    requires st !in done && st in s.answers && st in s.correctByStep
    requires base.Keys == AnsweredIn(s, done)
    requires forall u :: u in base ==> base[u] == |CorrectStepsIn(s, u, done)|
    requires forall u :: u in score <==> u in base || u in s.answers[st]
    requires forall u :: u in score ==>
      score[u] == (if u in base then base[u] else 0) + (if u in s.answers[st] && s.answers[st][u] == s.correctByStep[st] then 1 else 0)
    ensures score.Keys == AnsweredIn(s, done + {st})
    ensures forall u :: u in score ==> score[u] == |CorrectStepsIn(s, u, done + {st})|
  {
    forall u | u in score.Keys ensures u in base.Keys + s.answers[st].Keys {}
    forall u | u in base.Keys + s.answers[st].Keys ensures u in score.Keys {}
    StepScored(s, 0, done, st);
    forall u | u in score ensures score[u] == |CorrectStepsIn(s, u, done + {st})| {
      StepScored(s, u, done, st);
      if u !in base {
        NoAnswerNoScore(s, u, done);
      }
    }
  }

  /** The inner loop over one step's answers: every user who answered gets a
      score entry (starting at 0), and one more point for the correct index. */
  method TallyStep(score: map<int, nat>, userMap: map<int, int>, correct: int) returns (score': map<int, nat>)
    ensures forall u :: u in score' <==> u in score || u in userMap
    ensures forall u :: u in score' ==>
      score'[u] == (if u in score then score[u] else 0) + (if u in userMap && userMap[u] == correct then 1 else 0)
  {
    score' := score;
    var users := userMap.Keys;
    ghost var seen: set<int> := {};
    while users != {}
      invariant forall u :: u in userMap <==> u in users || u in seen
      invariant forall u :: u in users ==> u !in seen
      invariant forall u :: u in score' <==> u in score || u in seen
      invariant forall u :: u in score' ==>
        score'[u] == (if u in score then score[u] else 0) + (if u in seen && userMap[u] == correct then 1 else 0)
      decreases |users|
    {
      var uid := Pick(users);
      var current := if uid in score' then score'[uid] else 0;
      score' := score'[uid := current + if userMap[uid] == correct then 1 else 0];
      users := users - {uid};
      seen := seen + {uid};
    }
  }

  /** The score loop of `_build_leaderboard_text`: every step with a known
      correct index gives each user who answered it a score entry, and one
      point when the answer was right. */
  method ComputeScores(s: Session) returns (score: map<int, nat>)
    ensures score.Keys == Participants(s)
    ensures forall u :: u in score ==> score[u] == Score(s, u)
  {
    score := map[];
    var todo := s.answers.Keys;
    ghost var done: set<int> := {};
    while todo != {}
      invariant todo + done == s.answers.Keys && todo !! done
      invariant score.Keys == AnsweredIn(s, done)
      invariant forall u :: u in score ==> score[u] == |CorrectStepsIn(s, u, done)|
      decreases |todo|
    {
      var st := Pick(todo);
      if st in s.correctByStep {
        ghost var base := score;
        score := TallyStep(score, s.answers[st], s.correctByStep[st]);
        ScoresAfterStep(s, done, st, base, score);
      } else {
        StepSkipped(s, done, st);
      }
      todo := todo - {st};
      done := done + {st};
    }
  }

  /** One leaderboard row: user, shown name, score and latency in seconds. */
  datatype Row = Row(uid: int, name: string, correct: nat, latency: int)

  /** The stored display name, or the user id in decimal. */
  function DisplayName(s: Session, u: int): (name: string)
    ensures u in s.display ==> name == s.display[u]
    ensures u !in s.display ==> ParseInt(name) == Some(u)
  {
    if u in s.display then s.display[u]
    else
      IntToStringRoundTrip(u);
      IntToString(u)
  }

  /** Time between a user's first and last answer, or `MissingLatency`
      when either is unknown. */
  function Latency(s: Session, u: int): (t: int)
    ensures u in s.firstSeen && u in s.lastSeen ==> t == s.lastSeen[u] as int - s.firstSeen[u]
    ensures u !in s.firstSeen || u !in s.lastSeen ==> t == MissingLatency
  {
    if u in s.firstSeen && u in s.lastSeen then s.lastSeen[u] as int - s.firstSeen[u] else MissingLatency
  }

  function RowFor(s: Session, u: int): Row
  {
    Row(u, DisplayName(s, u), Score(s, u), Latency(s, u))
  }

  /** `rows` holds one row for each user of `users` and no other rows. */
  predicate Covers(rows: seq<Row>, users: set<int>)
  {
    && |rows| == |users|
    && (forall i :: 0 <= i < |rows| ==> rows[i].uid in users)
    && (forall u :: u in users ==> exists i :: 0 <= i < |rows| && rows[i].uid == u)
  }

  /** Each row is the row of its user in session `s`. */
  predicate RowsOf(s: Session, rows: seq<Row>)
  {
    forall i :: 0 <= i < |rows| ==> rows[i] == RowFor(s, rows[i].uid)
  }

  /** Rows that agree wherever they name the same user. */
  predicate Consistent(a: seq<Row>, b: seq<Row>)
  {
    forall i, j :: 0 <= i < |a| && 0 <= j < |b| && a[i].uid == b[j].uid ==> a[i] == b[j]
  }

  /** The uids of the rows at places `lo..hi`. */
  function UidsBetween(rows: seq<Row>, lo: int, hi: int): set<int>
    requires 0 <= lo <= hi <= |rows|
  {
    set k | lo <= k < hi :: rows[k].uid
  }

  /** `n` rows name at most `n` users. */
  lemma {:induction false} UidsBetweenCard(rows: seq<Row>, hi: int)
    requires 0 <= hi <= |rows|
    ensures |UidsBetween(rows, 0, hi)| <= hi
    decreases hi
  {
    if hi == 0 {
      assert UidsBetween(rows, 0, hi) == {};
    } else {
      UidsBetweenCard(rows, hi - 1);
      assert UidsBetween(rows, 0, hi) == UidsBetween(rows, 0, hi - 1) + {rows[hi - 1].uid};
    }
  }

  /** Rows covering their users one for one never repeat a user. */
  lemma {:induction false} CoversDistinct(rows: seq<Row>, users: set<int>, i: int, j: int)
    requires Covers(rows, users)
    requires 0 <= i < j < |rows|
    ensures rows[i].uid != rows[j].uid
  {
    if rows[i].uid == rows[j].uid {
      var rest := rows[..j] + rows[j + 1..];
      assert users <= UidsBetween(rest, 0, |rest|) by {
        forall u | u in users ensures u in UidsBetween(rest, 0, |rest|) {
          var k :| 0 <= k < |rows| && rows[k].uid == u;
          if k < j {
            assert rest[k] == rows[k];
          } else if k == j {
            assert rest[i] == rows[i];
          } else {
            assert rest[k - 1] == rows[k];
          }
        }
      }
      UidsBetweenCard(rest, |rest|);
      SubsetCard(users, UidsBetween(rest, 0, |rest|));
      assert false;
    }
  }

  /** The first `hi` rows of a one-for-one cover name `hi` distinct users. */
  lemma {:induction false} CoversPrefix(rows: seq<Row>, users: set<int>, hi: int)
    requires Covers(rows, users) && 0 <= hi <= |rows|
    ensures |UidsBetween(rows, 0, hi)| == hi
    decreases hi
  {
    if hi == 0 {
      assert UidsBetween(rows, 0, hi) == {};
    } else {
      CoversPrefix(rows, users, hi - 1);
      var prev := UidsBetween(rows, 0, hi - 1);
      assert UidsBetween(rows, 0, hi) == prev + {rows[hi - 1].uid};
      if rows[hi - 1].uid in prev {
        var k :| 0 <= k < hi - 1 && rows[k].uid == rows[hi - 1].uid;
        CoversDistinct(rows, users, k, hi - 1);
      }
    }
  }

  /** A reordering of rows that cover some users covers them too. */
  lemma CoversPermutation(a: seq<Row>, b: seq<Row>, users: set<int>)
    requires Covers(a, users) && multiset(a) == multiset(b)
    ensures Covers(b, users)
  {
    assert |a| == |multiset(a)| == |multiset(b)| == |b|;
    forall i | 0 <= i < |b| ensures b[i].uid in users {
      assert b[i] in multiset(a);
    }
    forall u | u in users ensures exists i :: 0 <= i < |b| && b[i].uid == u {
      var k :| 0 <= k < |a| && a[k].uid == u;
      assert a[k] in multiset(b);
      var i :| 0 <= i < |b| && b[i] == a[k];
    }
  }

  /** A reordering of rows of a session holds rows of that session. */
  lemma RowsOfPermutation(s: Session, a: seq<Row>, b: seq<Row>)
    requires RowsOf(s, a) && multiset(a) == multiset(b)
    ensures RowsOf(s, b)
  {
    forall i | 0 <= i < |b| ensures b[i] == RowFor(s, b[i].uid) {
      assert b[i] in multiset(a);
    }
  }

  /** Adding the row of a new user keeps a one-for-one cover. */
  lemma CoversAppend(rows: seq<Row>, users: set<int>, r: Row)
    requires Covers(rows, users) && r.uid !in users
    ensures Covers(rows + [r], users + {r.uid})
  {
    var rows' := rows + [r];
    forall u | u in users + {r.uid} ensures exists i :: 0 <= i < |rows'| && rows'[i].uid == u {
      if u != r.uid {
        var k :| 0 <= k < |rows| && rows[k].uid == u;
        assert rows'[k] == rows[k];
      } else {
        assert rows'[|rows|] == r;
      }
    }
  }

  /** Appending the row of a user keeps every row that user's row. */
  lemma RowsOfAppend(s: Session, rows: seq<Row>, r: Row)
    requires RowsOf(s, rows) && r == RowFor(s, r.uid)
    ensures RowsOf(s, rows + [r])
  {
    var rows' := rows + [r];
    forall i | 0 <= i < |rows'| ensures rows'[i] == RowFor(s, rows'[i].uid) {
      if i < |rows| {
        assert rows'[i] == rows[i];
      }
    }
  }

  /** The row loop of `_build_leaderboard_text`: one row per scored user. */
  method BuildRows(s: Session, score: map<int, nat>) returns (rows: seq<Row>)
    requires forall u :: u in score ==> score[u] == Score(s, u)
    ensures Covers(rows, score.Keys) && RowsOf(s, rows)
  {
    rows := [];
    var todo := score.Keys;
    ghost var done: set<int> := {};
    while todo != {}
      invariant todo + done == score.Keys && todo !! done
      invariant Covers(rows, done) && RowsOf(s, rows)
      decreases |todo|
    {
      var uid := Pick(todo);
      var r := Row(uid, DisplayName(s, uid), score[uid], Latency(s, uid));
      assert r == RowFor(s, uid);
      CoversAppend(rows, done, r);
      RowsOfAppend(s, rows, r);
      rows := rows + [r];
      todo := todo - {uid};
      done := done + {uid};
    }
  }

  /** `a` ranks strictly above `b`: more correct answers, or as many and faster. */
  predicate Outranks(a: Row, b: Row)
  {
    a.correct > b.correct || (a.correct == b.correct && a.latency < b.latency)
  }

  /** The order `rows.sort(key=lambda x: (-x[2], x[3]))` establishes: no row
      ranks strictly above one placed before it. */
  predicate Sorted(rows: seq<Row>)
  {
    forall i, j :: 0 <= i < j < |rows| ==> !Outranks(rows[j], rows[i])
  }

  /** Places `r` after every row it does not outrank, so rows of equal rank
      keep their order. */
  function Insert(r: Row, rows: seq<Row>): (res: seq<Row>)
    ensures multiset(res) == multiset(rows) + multiset{r}
    ensures forall x :: x in res ==> x == r || x in rows
  {
    if rows == [] then [r]
    else if Outranks(r, rows[0]) then [r] + rows
    else
      assert rows == [rows[0]] + rows[1..];
      [rows[0]] + Insert(r, rows[1..])
  }

  /** Inserting into a sorted sequence keeps it sorted. */
  lemma {:induction false} InsertSorted(r: Row, rows: seq<Row>)
    requires Sorted(rows)
    ensures Sorted(Insert(r, rows))
    decreases |rows|
  {
    if rows != [] && !Outranks(r, rows[0]) {
      var rest := Insert(r, rows[1..]);
      assert Sorted(rows[1..]) by {
        forall i, j | 0 <= i < j < |rows[1..]| ensures !Outranks(rows[1..][j], rows[1..][i]) {
          assert rows[1..][j] == rows[j + 1] && rows[1..][i] == rows[i + 1];
        }
      }
      InsertSorted(r, rows[1..]);
      var res := [rows[0]] + rest;
      forall i, j | 0 <= i < j < |res| ensures !Outranks(res[j], res[i]) {
        assert res[j] == rest[j - 1];
        if i > 0 {
          assert res[i] == rest[i - 1];
        } else if rest[j - 1] != r {
          assert rest[j - 1] in rows[1..];
          var k :| 0 <= k < |rows[1..]| && rows[1..][k] == rest[j - 1];
          assert rows[k + 1] == rest[j - 1];
        }
      }
    }
  }

  /** The in-place sort, as an insertion sort: a sorted reordering of `rows`. */
  method SortRows(rows: seq<Row>) returns (sorted: seq<Row>)
    ensures Sorted(sorted)
    ensures multiset(sorted) == multiset(rows)
  {
    sorted := [];
    for i := 0 to |rows|
      invariant Sorted(sorted)
      invariant multiset(sorted) == multiset(rows[..i])
    {
      InsertSorted(rows[i], sorted);
      sorted := Insert(rows[i], sorted);
      assert rows[..i + 1] == rows[..i] + [rows[i]];
    }
    assert rows[..|rows|] == rows;
  }

  /** A full ranking of a session: one row per participant, best first. */
  predicate IsRanking(s: Session, rows: seq<Row>)
  {
    Covers(rows, Participants(s)) && RowsOf(s, rows) && Sorted(rows)
  }

  /** Any two rankings of one session agree on the score and latency at each
      place: only rows of equal rank may trade places. */
  lemma RankingsAgree(s: Session, a: seq<Row>, b: seq<Row>, i: int)
    requires IsRanking(s, a) && IsRanking(s, b) && 0 <= i < |a|
    ensures |a| == |b|
    ensures a[i].correct == b[i].correct && a[i].latency == b[i].latency
  {
    assert Consistent(a, b) && Consistent(b, a);
    SortedKeysAgree(a, b, Participants(s), i);
  }

  lemma {:induction false} SortedKeysAgree(a: seq<Row>, b: seq<Row>, users: set<int>, i: int)
    requires Covers(a, users) && Covers(b, users) && Consistent(a, b) && Consistent(b, a)
    requires Sorted(a) && Sorted(b) && 0 <= i < |a|
    ensures |a| == |b|
    ensures a[i].correct == b[i].correct && a[i].latency == b[i].latency
  {
    SortedPigeon(a, b, users, i);
    SortedPigeon(b, a, users, i);
  }

  /** The users whose row in `rows` ranks at least as high as `x`. */
  function AtLeast(rows: seq<Row>, x: Row): set<int>
  {
    set k | 0 <= k < |rows| && !Outranks(x, rows[k]) :: rows[k].uid
  }

  /** In a sorted sequence every row up to place i ranks at least as high as the row at i. */
  lemma PrefixAtLeast(a: seq<Row>, i: int)
    requires Sorted(a) && 0 <= i < |a|
    ensures UidsBetween(a, 0, i + 1) <= AtLeast(a, a[i])
  {
    forall u | u in UidsBetween(a, 0, i + 1) ensures u in AtLeast(a, a[i]) {
      var k :| 0 <= k < i + 1 && a[k].uid == u;
      if k < i { assert !Outranks(a[i], a[k]); }
    }
  }

  /** If `x` outranks the row at place i of the sorted `b`, every user ranking
      at least as high as `x` sits before place i in `b`. */
  lemma AtLeastInPrefix(a: seq<Row>, b: seq<Row>, users: set<int>, i: int, x: Row)
    requires Covers(a, users) && Covers(b, users) && Consistent(a, b) && Sorted(b)
    requires 0 <= i < |b| && Outranks(x, b[i])
    ensures AtLeast(a, x) <= UidsBetween(b, 0, i)
  {
    forall u | u in AtLeast(a, x) ensures u in UidsBetween(b, 0, i) {
      var k :| 0 <= k < |a| && !Outranks(x, a[k]) && a[k].uid == u;
      var m :| 0 <= m < |b| && b[m].uid == u;
      assert b[m] == a[k];
    }
  }

  /** The row at place i of a sorted `a` never strictly outranks the row at
      place i of a sorted `b` over the same rows: at least i + 1 users rank at
      least as high as it according to `a`, at most i according to `b`. */
  lemma {:induction false} SortedPigeon(a: seq<Row>, b: seq<Row>, users: set<int>, i: int)
    requires Covers(a, users) && Covers(b, users) && Consistent(a, b) && Consistent(b, a)
    requires Sorted(a) && Sorted(b)
    requires 0 <= i < |a| && i < |b|
    ensures !Outranks(a[i], b[i])
  {
    if Outranks(a[i], b[i]) {
      PrefixAtLeast(a, i);
      CoversPrefix(a, users, i + 1);
      SubsetCard(UidsBetween(a, 0, i + 1), AtLeast(a, a[i]));
      AtLeastInPrefix(a, b, users, i, a[i]);
      SubsetCard(AtLeast(a, a[i]), UidsBetween(b, 0, i));
      UidsBetweenCard(b, i);
    }
  }

  /** The first place of a ranking holds the best score of the session. */
  lemma {:induction false} RankingTop(s: Session, rows: seq<Row>, u: int)
    requires IsRanking(s, rows) && u in Participants(s)
    ensures rows != [] && Score(s, u) <= rows[0].correct
  {
    var k :| 0 <= k < |rows| && rows[k].uid == u;
    if k > 0 {
      assert !Outranks(rows[k], rows[0]);
    }
  }

  /** The rank marker of `medals.get(idx, f"{idx}.")`. */
  datatype Prefix = Gold | Silver | Bronze | Numbered(rank: nat)

  function RankPrefix(rank: nat): (p: Prefix)
    requires rank >= 1
    ensures rank == 1 <==> p == Gold
    ensures rank == 2 <==> p == Silver
    ensures rank == 3 <==> p == Bronze
    ensures rank > 3 <==> p == Numbered(rank)
  {
    if rank == 1 then Gold else if rank == 2 then Silver else if rank == 3 then Bronze else Numbered(rank)
  }

  /** One shown line: marker, name, score and formatted latency. */
  datatype Entry = Entry(prefix: Prefix, name: string, correct: nat, time: Duration)

  /** The results message: title and question count, then either the
      "no answers yet" line or the shown entries. */
  datatype Board =
    | NoAnswers(title: string, total: nat)
    | Ranking(title: string, total: nat, entries: seq<Entry>)

  function EntryFor(rank: nat, r: Row): (e: Entry)
    requires rank >= 1
    ensures e.name == r.name && e.correct == r.correct
    ensures e.time.minutes * 60 + e.time.seconds == (if r.latency < 0 then 0 else r.latency)
  {
    Entry(RankPrefix(rank), r.name, r.correct, FmtDuration(r.latency))
  }

  /** The entries shown for ranked rows: the first 15, numbered from 1. */
  function Shown(rows: seq<Row>): (es: seq<Entry>)
    ensures |es| == (if |rows| < MaxShown then |rows| else MaxShown)
    ensures forall i :: 0 <= i < |es| ==> es[i] == EntryFor(i + 1, rows[i])
    ensures forall i :: 0 <= i < |es| ==> (i < 3 <==> !es[i].prefix.Numbered?)
  {
    var n := if |rows| < MaxShown then |rows| else MaxShown;
    seq(n, i requires 0 <= i < n => EntryFor(i + 1, rows[i]))
  }

  /** The output loop over `enumerate(rows[:15], start=1)`. */
  method ShowEntries(rows: seq<Row>) returns (entries: seq<Entry>)
    ensures entries == Shown(rows)
  {
    entries := [];
    var idx := 1;
    while idx <= |rows| && idx <= MaxShown
      invariant 1 <= idx <= |rows| + 1 && idx <= MaxShown + 1
      invariant |entries| == idx - 1
      invariant forall i :: 0 <= i < |entries| ==> entries[i] == EntryFor(i + 1, rows[i])
    {
      entries := entries + [EntryFor(idx, rows[idx - 1])];
      idx := idx + 1;
    }
  }

  /** What the results message shows for the ranked rows. */
  function Present(s: Session, rows: seq<Row>): (b: Board)
    ensures b.title == s.title && b.total == |s.questions|
    ensures b.NoAnswers? <==> rows == []
    ensures b.Ranking? ==> b.entries == Shown(rows)
  {
    if rows == [] then NoAnswers(s.title, |s.questions|)
    else Ranking(s.title, |s.questions|, Shown(rows))
  }

  /** `_build_leaderboard_text`: scores, rows, the sort, and the first 15 entries. */
  method BuildLeaderboard(s: Session) returns (rows: seq<Row>, board: Board)
    ensures IsRanking(s, rows)
    ensures board == Present(s, rows)
  {
    var score := ComputeScores(s);
    var unsorted := BuildRows(s, score);
    rows := SortRows(unsorted);
    CoversPermutation(unsorted, rows, score.Keys);
    RowsOfPermutation(s, unsorted, rows);
    if rows == [] {
      board := NoAnswers(s.title, |s.questions|);
    } else {
      var entries := ShowEntries(rows);
      board := Ranking(s.title, |s.questions|, entries);
    }
  }

  /** A results message the builder may send for a session (rows of equal
      rank may come in either order). */
  ghost predicate IsLeaderboard(s: Session, b: Board)
  {
    exists rows :: IsRanking(s, rows) && b == Present(s, rows)
  }

  /** Each shown entry is the name and score of a participant, and scores
      never increase down the list. */
  lemma ShownFromRanking(s: Session, rows: seq<Row>, i: int)
    requires IsRanking(s, rows) && 0 <= i < |Shown(rows)|
    ensures rows[i].uid in Participants(s)
    ensures Shown(rows)[i].name == DisplayName(s, rows[i].uid) && Shown(rows)[i].correct == Score(s, rows[i].uid)
    ensures forall j :: i < j < |Shown(rows)| ==> Shown(rows)[i].correct >= Shown(rows)[j].correct
  {
    assert rows[i] == RowFor(s, rows[i].uid);
    forall j | i < j < |Shown(rows)| ensures Shown(rows)[i].correct >= Shown(rows)[j].correct {
      assert !Outranks(rows[j], rows[i]);
    }
  }

  /** What every results message of a session shows: "no answers" exactly when
      nobody answered a scored step, otherwise min(participants, 15) entries,
      medals on the first three, scores never increasing down the list, each
      the name and score of a participant, and the best score first. */
  lemma LeaderboardShows(s: Session, b: Board)
    requires IsLeaderboard(s, b)
    ensures b.NoAnswers? <==> Participants(s) == {}
    ensures b.Ranking? ==> |b.entries| == (if |Participants(s)| < MaxShown then |Participants(s)| else MaxShown)
    ensures b.Ranking? ==> forall i :: 0 <= i < |b.entries| ==>
      (i < 3 <==> !b.entries[i].prefix.Numbered?) &&
      (exists u :: u in Participants(s) && b.entries[i].name == DisplayName(s, u) && b.entries[i].correct == Score(s, u))
    ensures b.Ranking? ==> forall i, j :: 0 <= i < j < |b.entries| ==> b.entries[i].correct >= b.entries[j].correct
    ensures b.Ranking? ==> forall u :: u in Participants(s) ==> Score(s, u) <= b.entries[0].correct
  {
    var rows: seq<Row> :| IsRanking(s, rows) && b == Present(s, rows);
    assert |rows| == |Participants(s)|;
    if b.Ranking? {
      forall i | 0 <= i < |b.entries|
        ensures exists u :: u in Participants(s) && b.entries[i].name == DisplayName(s, u) && b.entries[i].correct == Score(s, u)
      {
        ShownFromRanking(s, rows, i);
      }
      forall i, j | 0 <= i < j < |b.entries| ensures b.entries[i].correct >= b.entries[j].correct {
        ShownFromRanking(s, rows, i);
      }
      forall u | u in Participants(s) ensures Score(s, u) <= b.entries[0].correct {
        RankingTop(s, rows, u);
      }
    }
  }
}
