/** StatisticsService: aggregate figures over a quiz's scores and the quiz ranking. */
module StatisticsServices {
  import opened Wrappers
  import opened Domain
  import opened UserServices
  import opened ScoreServices

  /** Which figure calculateScoreStats computes. */
  datatype Stat = AVG | MIN | MAX

  /** The projection of a stored score into a ScoreDto. */
  function ToScoreDto(s: Score): ScoreDto {
    ScoreDto(s.id, s.elapsedTimeInMs, s.percentageScore, s.startDate)
  }

  /** The stream `map` to ScoreDto: one entry per score, in the same order. */
  function ToScoreDtos(scores: seq<Score>): (r: seq<ScoreDto>)
    ensures |r| == |scores|
    ensures forall i :: 0 <= i < |r| ==> r[i] == ToScoreDto(scores[i])
  {
    if scores == [] then [] else [ToScoreDto(scores[0])] + ToScoreDtos(scores[1..])
  }

  /** The personal selection: the stream `filter` keeping the scores of one quiz, in order.
    * Each score of that quiz occurs as often as in the input, any other score not at all. */
  function ScoresOfQuiz(scores: seq<Score>, quizId: string): (r: seq<Score>)
    ensures forall s :: multiset(r)[s] == if s.quizId == quizId then multiset(scores)[s] else 0
    ensures |scores| == 1 ==> r == if scores[0].quizId == quizId then scores else []
  {
    if scores == [] then []
    else
      assert scores == [scores[0]] + scores[1..];
      (if scores[0].quizId == quizId then [scores[0]] else []) + ScoresOfQuiz(scores[1..], quizId)
  }

  lemma ConcatAssociative<T>(p: seq<T>, q: seq<T>, r: seq<T>)
    ensures p + (q + r) == (p + q) + r
  {
  }

  /** The filter keeps encounter order: filtering a concatenation filters each part in turn, so
    * with the one-element case the selection is the input with the other quizzes' scores removed. */
  lemma ScoresOfQuizCons(y: Score, rest: seq<Score>, quizId: string)
    ensures ScoresOfQuiz([y] + rest, quizId)
            == (if y.quizId == quizId then [y] else []) + ScoresOfQuiz(rest, quizId)
  {
    assert ([y] + rest)[1..] == rest;
  }

  lemma {:induction false} ScoresOfQuizKeepsOrder(a: seq<Score>, b: seq<Score>, quizId: string)
    ensures ScoresOfQuiz(a + b, quizId) == ScoresOfQuiz(a, quizId) + ScoresOfQuiz(b, quizId)
  {
    if a == [] {
      assert a + b == b;
    } else {
      var rest := a[1..];
      assert a == [a[0]] + rest;
      ConcatAssociative([a[0]], rest, b);
      ScoresOfQuizCons(a[0], rest + b, quizId);
      ScoresOfQuizCons(a[0], rest, quizId);
      ScoresOfQuizKeepsOrder(rest, b, quizId);
      var head := if a[0].quizId == quizId then [a[0]] else [];
      ConcatAssociative(head, ScoresOfQuiz(rest, quizId), ScoresOfQuiz(b, quizId));
    }
  }

  function Percentages(dtos: seq<ScoreDto>): (r: seq<int>)
    ensures |r| == |dtos|
    ensures forall i :: 0 <= i < |r| ==> r[i] == dtos[i].percentageScore
  {
    if dtos == [] then [] else [dtos[0].percentageScore] + Percentages(dtos[1..])
  }

  function ElapsedTimes(dtos: seq<ScoreDto>): (r: seq<int>)
    ensures |r| == |dtos|
    ensures forall i :: 0 <= i < |r| ==> r[i] == dtos[i].elapsedTime
  {
    if dtos == [] then [] else [dtos[0].elapsedTime] + ElapsedTimes(dtos[1..])
  }

  function Sum(xs: seq<int>): int {
    if xs == [] then 0 else xs[0] + Sum(xs[1..])
  }

  /** The largest element: one of the elements, and no element exceeds it. */
  function Max(xs: seq<int>): (m: int)
    requires xs != []
    ensures exists i :: 0 <= i < |xs| && xs[i] == m
    ensures forall i :: 0 <= i < |xs| ==> xs[i] <= m
  {
    if |xs| == 1 then xs[0]
    else
      var rest := Max(xs[1..]);
      assert forall i :: 1 <= i < |xs| ==> xs[i] == xs[1..][i - 1];
      if xs[0] >= rest then xs[0] else rest
  }

  /** The smallest element: one of the elements, and no element is below it. */
  function Min(xs: seq<int>): (m: int)
    requires xs != []
    ensures exists i :: 0 <= i < |xs| && xs[i] == m
    ensures forall i :: 0 <= i < |xs| ==> m <= xs[i]
  {
    if |xs| == 1 then xs[0]
    else
      var rest := Min(xs[1..]);
      assert forall i :: 1 <= i < |xs| ==> xs[i] == xs[1..][i - 1];
      if xs[0] <= rest then xs[0] else rest
  }

  /** A sum of n elements in [lo, hi] lies in [n * lo, n * hi]. */
  lemma {:induction false} SumBounds(xs: seq<int>, lo: int, hi: int)
    requires forall i :: 0 <= i < |xs| ==> lo <= xs[i] <= hi
    ensures |xs| * lo <= Sum(xs) <= |xs| * hi
  {
    if xs != [] {
      assert forall i :: 0 <= i < |xs| - 1 ==> xs[1..][i] == xs[i + 1];
      SumBounds(xs[1..], lo, hi);
      assert |xs| * lo == (|xs| - 1) * lo + lo;
      assert |xs| * hi == (|xs| - 1) * hi + hi;
    }
  }

  /** calculateScoreStats: the average, maximum or minimum of the percentages, each 0 for no scores. */
  function CalculateScoreStats(dtos: seq<ScoreDto>, stat: Stat): (r: real)
    ensures dtos == [] ==> r == 0.0
    ensures dtos != [] && stat == AVG ==> r * |dtos| as real == Sum(Percentages(dtos)) as real
    ensures dtos != [] && stat == MAX ==>
              (exists i :: 0 <= i < |dtos| && r == dtos[i].percentageScore as real)
              && forall i :: 0 <= i < |dtos| ==> dtos[i].percentageScore as real <= r
    ensures dtos != [] && stat == MIN ==>
              (exists i :: 0 <= i < |dtos| && r == dtos[i].percentageScore as real)
              && forall i :: 0 <= i < |dtos| ==> r <= dtos[i].percentageScore as real
  {
    var scores := Percentages(dtos);
    if dtos == [] then 0.0
    else
      match stat
      case AVG => Sum(scores) as real / |scores| as real
      case MAX => Max(scores) as real
      case MIN => Min(scores) as real
  }

  /** calculateAvgTime: the unrounded mean elapsed time, 0 for no scores. */
  function CalculateAvgTime(dtos: seq<ScoreDto>): (r: real)
    ensures dtos == [] ==> r == 0.0
    ensures dtos != [] ==> r * |dtos| as real == Sum(ElapsedTimes(dtos)) as real
  {
    if dtos == [] then 0.0 else Sum(ElapsedTimes(dtos)) as real / |dtos| as real
  }

  /** createStatistics: the attempt count, the average rounded to a hundredth of a percent (a whole
    * number of hundredths here), the best and worst score, the mean time and the list itself. */
  function CreateStatistics(dtos: seq<ScoreDto>): (r: StatisticsDto)
    ensures r.attemptsNumber == |dtos| && r.scoreDtoList == dtos
    ensures r.averageScore == r.averageScore.Floor as real
    ensures r.averageScore - 0.5 <= CalculateScoreStats(dtos, AVG) < r.averageScore + 0.5
    ensures r.bestScore == CalculateScoreStats(dtos, MAX)
    ensures r.worstScore == CalculateScoreStats(dtos, MIN)
    ensures r.averageTimeInMs == CalculateAvgTime(dtos)
  {
    var avgScore := CalculateScoreStats(dtos, AVG);
    StatisticsDto(
      |dtos|,
      JavaRound(avgScore) as real,
      CalculateScoreStats(dtos, MAX),
      CalculateScoreStats(dtos, MIN),
      CalculateAvgTime(dtos),
      dtos)
  }

  /** With no scores every figure is 0. */
  lemma EmptyStatistics()
    ensures CreateStatistics([]) == StatisticsDto(0, 0.0, 0.0, 0.0, 0.0, [])
  {
  }

  /** Dividing a bound on a total by the count bounds the mean. */
  lemma MeanBounds(total: int, n: int, lo: int, hi: int)
    requires 0 < n && n * lo <= total <= n * hi
    ensures lo as real <= total as real / n as real <= hi as real
  {
    assert (n * lo) as real == n as real * lo as real;
    assert (n * hi) as real == n as real * hi as real;
  }

  /** Rounding to the nearest integer cannot leave an interval with integer ends. */
  lemma RoundBetween(x: real, lo: int, hi: int)
    requires lo as real <= x <= hi as real
    ensures lo <= JavaRound(x) <= hi
  {
  }

  /** worst <= exact mean <= best. */
  lemma {:induction false} MeanBetweenWorstAndBest(dtos: seq<ScoreDto>)
    requires dtos != []
    ensures CalculateScoreStats(dtos, MIN) <= CalculateScoreStats(dtos, AVG) <= CalculateScoreStats(dtos, MAX)
  {
    var ps := Percentages(dtos);
    var lo, hi := Min(ps), Max(ps);
    SumBounds(ps, lo, hi);
    MeanBounds(Sum(ps), |ps|, lo, hi);
  }

  /** The rounded average still lies between the worst and the best score, and when every score is a
    * percentage in [0, 100.00], so is every figure. */
  lemma {:induction false} StatisticsBounds(dtos: seq<ScoreDto>)
    requires dtos != []
    ensures var r := CreateStatistics(dtos);
            r.worstScore <= r.averageScore <= r.bestScore
    ensures (forall i :: 0 <= i < |dtos| ==> 0 <= dtos[i].percentageScore <= 10000) ==>
              var r := CreateStatistics(dtos);
              0.0 <= r.worstScore && r.bestScore <= 10000.0
  {
    MeanBetweenWorstAndBest(dtos);
    var ps := Percentages(dtos);
    RoundBetween(CalculateScoreStats(dtos, AVG), Min(ps), Max(ps));
  }

  /** Two attempts of 50.00 and 0 in 12000 and 10000 ms: average 25.00, best 50.00, worst 0, 11000 ms. */
  lemma TwoAttemptsExample()
    ensures var dtos := [ScoreDto(Some("s1"), 12000, 5000, 0), ScoreDto(Some("s2"), 10000, 0, 0)];
            CreateStatistics(dtos) == StatisticsDto(2, 2500.0, 5000.0, 0.0, 11000.0, dtos)
  {
    var dtos := [ScoreDto(Some("s1"), 12000, 5000, 0), ScoreDto(Some("s2"), 10000, 0, 0)];
    assert Percentages(dtos) == [5000, 0];
    assert ElapsedTimes(dtos) == [12000, 10000];
    assert Sum([5000, 0]) == 5000;
    assert Sum([12000, 10000]) == 22000;
  }

  // ---- ranking ----

  /** The comparator puts `a` strictly before `b`: a higher percentage, or the same percentage in
    * less time. */
  predicate RanksBefore(a: ScoreDto, b: ScoreDto) {
    a.percentageScore > b.percentageScore
    || (a.percentageScore == b.percentageScore && a.elapsedTime < b.elapsedTime)
  }

  /** `a` may stay in front of `b`. */
  predicate InOrder(a: ScoreDto, b: ScoreDto) {
    !RanksBefore(b, a)
  }

  predicate Ranked(s: seq<ScoreDto>) {
    forall i, j :: 0 <= i < j < |s| ==> InOrder(s[i], s[j])
  }

  /** Inserts `x` in front of the first entry it may precede, so before entries with the same key. */
  function Insert(x: ScoreDto, s: seq<ScoreDto>): (r: seq<ScoreDto>)
    ensures multiset(r) == multiset(s) + multiset{x}
  {
    if s == [] then [x]
    else if InOrder(x, s[0]) then [x] + s
    else
      assert s == [s[0]] + s[1..];
      [s[0]] + Insert(x, s[1..])
  }

  /** The stable sort that `sorted` performs with that comparator: the ranking holds exactly the
    * given entries and is ordered by percentage descending, then elapsed time ascending. */
  function Rank(s: seq<ScoreDto>): (r: seq<ScoreDto>)
    ensures multiset(r) == multiset(s)
    ensures Ranked(r)
  {
    if s == [] then []
    else
      var rest := Rank(s[1..]);
      InsertKeepsRanked(s[0], rest);
      assert s == [s[0]] + s[1..];
      Insert(s[0], rest)
  }

  lemma {:induction false} InsertKeepsRanked(x: ScoreDto, s: seq<ScoreDto>)
    requires Ranked(s)
    ensures Ranked(Insert(x, s))
  {
    if s != [] && !InOrder(x, s[0]) {
      var rest := s[1..];
      assert Ranked(rest) by {
        forall i, j | 0 <= i < j < |rest| ensures InOrder(rest[i], rest[j]) {
          assert rest[i] == s[i + 1] && rest[j] == s[j + 1];
        }
      }
      InsertKeepsRanked(x, rest);
      var ins := Insert(x, rest);
      forall j | 0 <= j < |ins| ensures InOrder(s[0], ins[j]) {
        assert ins[j] in multiset(ins);
        if ins[j] != x {
          assert ins[j] in multiset(rest);
          var k :| 0 <= k < |rest| && rest[k] == ins[j];
          assert s[k + 1] == ins[j];
        }
      }
      var r := [s[0]] + ins;
      forall i, j | 0 <= i < j < |r| ensures InOrder(r[i], r[j]) {
        if i == 0 {
          assert r[j] == ins[j - 1];
        } else {
          assert r[i] == ins[i - 1] && r[j] == ins[j - 1];
        }
      }
    }
  }

  /** The entries with percentage `p` and time `t`, in order. */
  function WithKey(s: seq<ScoreDto>, p: int, t: int): seq<ScoreDto> {
    if s == [] then [] else KeyPart(s[0], p, t) + WithKey(s[1..], p, t)
  }

  /** `[y]` when `y` has percentage `p` and time `t`, else nothing. */
  function KeyPart(y: ScoreDto, p: int, t: int): seq<ScoreDto> {
    if y.percentageScore == p && y.elapsedTime == t then [y] else []
  }

  lemma WithKeyCons(y: ScoreDto, rest: seq<ScoreDto>, p: int, t: int)
    ensures WithKey([y] + rest, p, t) == KeyPart(y, p, t) + WithKey(rest, p, t)
  {
    assert ([y] + rest)[1..] == rest;
  }

  lemma {:induction false} InsertStable(x: ScoreDto, s: seq<ScoreDto>, p: int, t: int)
    ensures WithKey(Insert(x, s), p, t) == KeyPart(x, p, t) + WithKey(s, p, t)
  {
    if s == [] {
      WithKeyCons(x, [], p, t);
      assert [x] + [] == [x];
    } else if InOrder(x, s[0]) {
      WithKeyCons(x, s, p, t);
    } else {
      var rest := s[1..];
      var ins := Insert(x, rest);
      assert Insert(x, s) == [s[0]] + ins;
      InsertStable(x, rest, p, t);
      WithKeyCons(s[0], ins, p, t);
      assert s == [s[0]] + rest;
      WithKeyCons(s[0], rest, p, t);
      var a, b, c := KeyPart(s[0], p, t), KeyPart(x, p, t), WithKey(rest, p, t);
      // x and s[0] have different keys, so at most one of a and b is non-empty
      assert a == [] || b == [];
      ConcatAssociative(a, b, c);
      ConcatAssociative(b, a, c);
      assert a + b == b + a;
    }
  }

  /** The sort is stable: entries that compare equal keep their relative order. */
  lemma {:induction false} RankIsStable(s: seq<ScoreDto>, p: int, t: int)
    ensures WithKey(Rank(s), p, t) == WithKey(s, p, t)
  {
    if s != [] {
      RankIsStable(s[1..], p, t);
      InsertStable(s[0], Rank(s[1..]), p, t);
    }
  }

  /** An already ranked list is left as it is, so ranking twice is ranking once. */
  lemma {:induction false} RankOfRanked(s: seq<ScoreDto>)
    requires Ranked(s)
    ensures Rank(s) == s
  {
    if s != [] {
      var rest := s[1..];
      assert Ranked(rest) by {
        forall i, j | 0 <= i < j < |rest| ensures InOrder(rest[i], rest[j]) {
          assert rest[i] == s[i + 1] && rest[j] == s[j + 1];
        }
      }
      RankOfRanked(rest);
      if rest != [] {
        assert InOrder(s[0], rest[0]) by { assert rest[0] == s[1]; }
      }
      assert s == [s[0]] + rest;
    }
  }

  lemma RankIsIdempotent(s: seq<ScoreDto>)
    ensures Rank(Rank(s)) == Rank(s)
  {
    RankOfRanked(Rank(s));
  }

  class StatisticsService {
    const scoreService: ScoreService

    constructor (scoreService: ScoreService)
      ensures this.scoreService == scoreService
    {
      this.scoreService := scoreService;
    }

    /** Global statistics cover every stored score of the quiz; personal ones the scores of the user
      * named `username` (an unknown name throws) that belong to the quiz. `listed` is what the
      * score repository returned, `user` the user the lookup found. */
    method GetQuizStatisticsById(username: string, quizId: string, globalFlag: bool)
      returns (r: Result<StatisticsDto>, ghost listed: seq<Score>, ghost user: Option<User>)
      requires scoreService.Valid() && scoreService.userService.repository.Valid()
      ensures globalFlag ==>
                && r.Success? && scoreService.Lists(listed, ByQuizId(quizId))
                && r.value == CreateStatistics(ToScoreDtos(listed))
      ensures !globalFlag ==>
                (r.Failure? <==> !scoreService.userService.repository.ExistsByUsername(username))
      ensures !globalFlag && r.Failure? ==> r.error == UsernameNotFound(NO_USER)
      ensures !globalFlag && r.Success? ==>
                && user.Some? && scoreService.userService.repository.Stored(user.value)
                && user.value.username == username
                && scoreService.Lists(listed, ByUserId(user.value.id))
                && r.value == CreateStatistics(ToScoreDtos(ScoresOfQuiz(listed, quizId)))
    {
      user := None;
      if globalFlag {
        var quizScores := scoreService.GetScoresByQuizId(quizId);
        listed := quizScores;
        r := Success(CreateStatistics(ToScoreDtos(quizScores)));
      } else {
        var found;
        found, user := scoreService.GetScoresByUser(username);
        if found.Failure? {
          return Failure(found.error), [], user;
        }
        listed := found.value;
        var quizScores := ScoresOfQuiz(found.value, quizId);
        r := Success(CreateStatistics(ToScoreDtos(quizScores)));
      }
    }

    /** The quiz's stored scores as ScoreDtos, ranked. `listed` is what the score repository returned. */
    method GetQuizRankingById(quizId: string) returns (r: seq<ScoreDto>, ghost listed: seq<Score>)
      requires scoreService.Valid()
      ensures scoreService.Lists(listed, ByQuizId(quizId))
      ensures r == Rank(ToScoreDtos(listed))
      ensures Ranked(r) && multiset(r) == multiset(ToScoreDtos(listed))
    {
      var quizScores := scoreService.GetScoresByQuizId(quizId);
      listed := quizScores;
      r := Rank(ToScoreDtos(quizScores));
    }
  }

  /** The personal selection holds exactly the stored scores of that user and that quiz. */
  lemma {:induction false} PersonalSelection(svc: ScoreService, listed: seq<Score>, userId: string, quizId: string)
    requires svc.Lists(listed, ByUserId(userId))
    ensures forall s :: s in ScoresOfQuiz(listed, quizId) <==>
              && s.id.Some? && s.id.value in svc.scores && svc.scores[s.id.value] == s
              && s.userId == Some(userId) && s.quizId == quizId
  {
  }
}
