/** ScoreServiceImpl: grading a submitted attempt and the score collection. */
module ScoreServices {
  import opened Wrappers
  import opened Domain
  import opened UserServices
  import opened QuestionServices

  const NO_SCORE := "No score with that id exists!"

  /** Math.round on a double, on exact reals: the nearest integer, halves rounded up. */
  function JavaRound(x: real): (n: int)
    ensures n as real - 0.5 <= x < n as real + 0.5
  {
    (x + 0.5).Floor
  }

  /** The ids of answered questions whose submitted answer is exactly the correct answer. */
  function CorrectlyAnswered(answers: map<string, string>, questions: map<string, Question>): set<string> {
    set q | q in answers && q in questions && answers[q] == questions[q].correctAnswer
  }

  /** Every answered question exists, so that no lookup throws. */
  predicate AllQuestionsExist(answers: map<string, string>, questions: map<string, Question>) {
    forall q :: q in answers ==> q in questions
  }

  lemma {:induction false} SubsetCardinality(a: set<string>, b: set<string>)
    requires a <= b
    ensures |a| <= |b|
    ensures |a| == |b| ==> a == b
  {
    assert b == a + (b - a);
    assert a !! (b - a);
    if |a| == |b| {
      assert |b - a| == 0;
      assert b - a == {};
    }
  }

  /** The stream that looks each answered question up and adds 1 per exact match. A missing
    * question throws; otherwise the count lies between 0 and the number of answers, reaching the
    * number of answers exactly when every answer is correct. */
  function CountGoodAnswers(answers: map<string, string>, questions: map<string, Question>): (r: Result<nat>)
    ensures r.Failure? <==> !AllQuestionsExist(answers, questions)
    ensures r.Failure? ==> r.error == IllegalArgument(NO_QUESTION)
    ensures r.Success? ==> r.value <= |answers|
    ensures r.Success? ==>
              (r.value == |answers| <==> forall q :: q in answers ==> answers[q] == questions[q].correctAnswer)
    ensures r.Success? ==>
              (r.value == 0 <==> forall q :: q in answers ==> answers[q] != questions[q].correctAnswer)
  {
    if !AllQuestionsExist(answers, questions) then Failure(IllegalArgument(NO_QUESTION))
    else
      var good := CorrectlyAnswered(answers, questions);
      SubsetCardinality(good, answers.Keys);
      assert |answers.Keys| == |answers|;
      assert (forall q :: q in answers ==> answers[q] == questions[q].correctAnswer) ==> good == answers.Keys;
      assert |good| == 0 ==> good == {};
      assert good == {} ==> forall q :: q in answers ==> q !in good;
      Success(|good|)
  }

  /** percentageScore in hundredths: Math.round(good / all * 10000). For no answers Java divides 0
    * by 0, and Math.round of NaN is 0. */
  function PercentageScore(good: nat, all: nat): (p: int)
    ensures all == 0 ==> p == 0
    ensures 0 < all ==> p as real - 0.5 <= good as real * 10000.0 / all as real < p as real + 0.5
  {
    if all == 0 then 0
    else
      var x := good as real / all as real * 10000.0;
      assert x == good as real * 10000.0 / all as real;
      JavaRound(x)
  }

  /** The percentage lies in [0, 100.00]; it is 100.00 when every answer is right and 0 when none is. */
  lemma {:induction false} PercentageBounds(good: nat, all: nat)
    requires good <= all
    ensures 0 <= PercentageScore(good, all) <= 10000
    ensures 0 < all ==> PercentageScore(all, all) == 10000
    ensures PercentageScore(0, all) == 0
  {
    if all > 0 {
      ScaledRatioBounds(good as real, all as real);
      ScaledRatioOne(all as real);
    }
  }

  /** A fraction g / a of at most one, scaled to hundredths of a percent, lies in [0, 10000]. */
  lemma ScaledRatioBounds(g: real, a: real)
    requires 0.0 < a && 0.0 <= g <= a
    ensures 0.0 <= g * 10000.0 / a <= 10000.0
  {
    var y := g * 10000.0 / a;
    assert y * a == g * 10000.0;
    assert (10000.0 - y) * a == (a - g) * 10000.0;
  }

  /** The whole, scaled to hundredths of a percent, is exactly 10000. */
  lemma ScaledRatioOne(a: real)
    requires 0.0 < a
    ensures a * 10000.0 / a == 10000.0
  {
    var y := a * 10000.0 / a;
    assert y * a == 10000.0 * a;
    assert (y - 10000.0) * a == 0.0;
  }

  /** More correct answers never give a lower percentage. */
  lemma {:induction false} PercentageMonotonic(good1: nat, good2: nat, all: nat)
    requires good1 <= good2
    ensures PercentageScore(good1, all) <= PercentageScore(good2, all)
  {
    if all > 0 {
      var x1 := good1 as real / all as real * 10000.0;
      var x2 := good2 as real / all as real * 10000.0;
      assert x1 == good1 as real * (10000.0 / all as real);
      assert x2 == good2 as real * (10000.0 / all as real);
      assert x1 <= x2;
    }
  }

  /** One right answer out of two is 50.00. */
  lemma HalfCorrectIsFifty()
    ensures PercentageScore(1, 2) == 5000
  {
  }

  /** Which stored scores a repository query returns. */
  datatype ScoreQuery = ByQuizId(quizId: string) | ByUserId(userId: string)

  predicate Selects(query: ScoreQuery, s: Score) {
    match query
    case ByQuizId(quizId) => s.quizId == quizId
    case ByUserId(userId) => s.userId == Some(userId)
  }

  class ScoreService {
    /** Scores by id. */
    var scores: map<string, Score>
    const userService: UserService
    const questionService: QuestionService

    ghost predicate Valid()
      reads this
    {
      forall k :: k in scores ==> scores[k].id == Some(k)
    }

    constructor (userService: UserService, questionService: QuestionService)
      ensures Valid() && scores == map[]
      ensures this.userService == userService && this.questionService == questionService
    {
      scores := map[];
      this.userService := userService;
      this.questionService := questionService;
    }

    /** `r` lists every stored score the query selects exactly once, in some order. */
    ghost predicate Lists(r: seq<Score>, query: ScoreQuery)
      reads this
    {
      && (forall i :: 0 <= i < |r| ==>
            r[i].id.Some? && r[i].id.value in scores && scores[r[i].id.value] == r[i] && Selects(query, r[i]))
      && (forall k :: k in scores && Selects(query, scores[k]) ==>
            exists i :: 0 <= i < |r| && r[i].id == Some(k))
      && (forall i, j :: 0 <= i < j < |r| ==> r[i].id != r[j].id)
    }

    /** Grades an attempt and saves it. With a username, the score takes that user's id (an unknown
      * user throws first); the elapsed time is end minus start, unchecked; each answer counts when
      * it equals its question's correct answer (a missing question throws); then the percentage.
      * Nothing is saved on a failure. The score is saved under its own id, or `freshId` without one.
      * `user` is the user the lookup found. */
    method AddScore(username: Option<string>, score: Score, freshId: string)
      returns (r: Result<Score>, ghost user: Option<User>)
      requires Valid() && userService.repository.Valid()
      requires freshId !in scores
      modifies this
      ensures Valid()
      ensures user.Some? <==> username.Some? && userService.repository.ExistsByUsername(username.value)
      ensures user.Some? ==>
                userService.repository.Stored(user.value) && user.value.username == username.value
      ensures username.Some? && user.None? ==>
                r == Failure(UsernameNotFound(NO_USER)) && scores == old(scores)
      ensures (username.None? || user.Some?)
              && !AllQuestionsExist(score.userAnswers, questionService.questions) ==>
                r == Failure(IllegalArgument(NO_QUESTION)) && scores == old(scores)
      ensures r.Success? <==>
                (username.None? || user.Some?) && AllQuestionsExist(score.userAnswers, questionService.questions)
      ensures r.Success? ==>
                var key := SaveKey(score.id, freshId);
                var good := |CorrectlyAnswered(score.userAnswers, questionService.questions)|;
                && r.value == score.(
                     id := Some(key),
                     userId := if user.Some? then Some(user.value.id) else score.userId,
                     elapsedTimeInMs := score.endDate - score.startDate,
                     goodAnswers := good,
                     allAnswers := |score.userAnswers|,
                     percentageScore := PercentageScore(good, |score.userAnswers|))
                && 0 <= r.value.goodAnswers <= r.value.allAnswers
                && 0 <= r.value.percentageScore <= 10000
                && scores == old(scores)[key := r.value]
    {
      var s := score;
      user := None;
      if username.Some? {
        var currentUser := userService.FindUserByUsername(username.value);
        if currentUser.Failure? {
          return Failure(currentUser.error), user;
        }
        user := Some(currentUser.value);
        s := s.(userId := Some(currentUser.value.id));
      }
      s := s.(elapsedTimeInMs := s.endDate - s.startDate);
      var result := CountGoodAnswers(s.userAnswers, questionService.questions);
      if result.Failure? {
        return Failure(result.error), user;
      }
      var goodAnswers := result.value;
      s := s.(goodAnswers := goodAnswers);
      var allAnswers := |s.userAnswers|;
      s := s.(allAnswers := allAnswers);
      PercentageBounds(goodAnswers, allAnswers);
      s := s.(percentageScore := PercentageScore(goodAnswers, allAnswers));
      var key := SaveKey(s.id, freshId);
      s := s.(id := Some(key));
      scores := scores[key := s];
      r := Success(s);
    }

    /** The stored score, or the "No score" error. */
    function GetScoreById(id: string): (r: Result<Score>)
      reads this
      requires Valid()
      ensures r.Success? <==> id in scores
      ensures r.Success? ==> r.value == scores[id] && r.value.id == Some(id)
      ensures r.Failure? ==> r.error == IllegalArgument(NO_SCORE)
    {
      if id in scores then Success(scores[id]) else Failure(IllegalArgument(NO_SCORE))
    }

    /** The repository query: every stored score the query selects, once each. The order is the
      * store's and is left open. */
    method FindScores(query: ScoreQuery) returns (r: seq<Score>)
      requires Valid()
      ensures Lists(r, query)
    {
      var keys := scores.Keys;
      r := [];
      while keys != {}
        invariant keys <= scores.Keys
        invariant forall i :: 0 <= i < |r| ==>
                    r[i].id.Some? && r[i].id.value in scores && r[i].id.value !in keys
                    && scores[r[i].id.value] == r[i] && Selects(query, r[i])
        invariant forall k :: k in scores && k !in keys && Selects(query, scores[k]) ==>
                    exists i :: 0 <= i < |r| && r[i].id == Some(k)
        invariant forall i, j :: 0 <= i < j < |r| ==> r[i].id != r[j].id
        decreases keys
      {
        var k :| k in keys;
        ghost var before := r;
        if Selects(query, scores[k]) {
          r := r + [scores[k]];
        }
        forall k' | k' in scores && k' !in keys - {k} && Selects(query, scores[k'])
          ensures exists i :: 0 <= i < |r| && r[i].id == Some(k')
        {
          if k' == k {
            assert r[|r| - 1].id == Some(k);
          } else {
            var i :| 0 <= i < |before| && before[i].id == Some(k');
            assert r[i] == before[i];
          }
        }
        keys := keys - {k};
      }
    }

    method GetScoresByQuizId(quizId: string) returns (r: seq<Score>)
      requires Valid()
      ensures Lists(r, ByQuizId(quizId))
    {
      r := FindScores(ByQuizId(quizId));
    }

    /** The scores of the user named `username` (found as `user`), or UsernameNotFoundException. */
    method GetScoresByUser(username: string) returns (r: Result<seq<Score>>, ghost user: Option<User>)
      requires Valid() && userService.repository.Valid()
      ensures user.None? <==> !userService.repository.ExistsByUsername(username)
      ensures r.Failure? <==> user.None?
      ensures r.Failure? ==> r.error == UsernameNotFound(NO_USER)
      ensures user.Some? ==> userService.repository.Stored(user.value) && user.value.username == username
      ensures r.Success? ==> Lists(r.value, ByUserId(user.value.id))
    {
      var currentUser := userService.FindUserByUsername(username);
      if currentUser.Failure? {
        return Failure(currentUser.error), None;
      }
      user := Some(currentUser.value);
      var found := FindScores(ByUserId(currentUser.value.id));
      r := Success(found);
    }
  }
}
