/** QuestionServiceImpl: the question collection, and building a question from a client's DTO by
  * listing the bad answers, adding the correct one and shuffling the list in place. */
module QuestionServices {
  import opened Wrappers
  import opened Domain

  const NO_QUESTION := "No question with that id exists!"
  const QUESTION_DELETED := "Question successfully deleted"

  /** The random numbers Collections.shuffle draws for a list of `n` elements:
    * the k-th is rnd.nextInt(n - k), for k below n - 1. */
  predicate ValidDraws(draws: seq<nat>, n: nat) {
    && |draws| == (if n == 0 then 0 else n - 1)
    && forall k :: 0 <= k < |draws| ==> draws[k] < n - k
  }

  function Swap(s: seq<string>, i: nat, j: nat): seq<string>
    requires i < |s| && j < |s|
  {
    s[i := s[j]][j := s[i]]
  }

  /** The list once the shuffle has swapped position p - 1 with a drawn position below p,
    * for p from `i` down to 2. */
  function ShuffleFrom(s: seq<string>, draws: seq<nat>, i: nat): seq<string>
    requires i <= |s| && ValidDraws(draws, |s|)
    decreases i
  {
    if i <= 1 then s
    else ShuffleFrom(Swap(s, i - 1, draws[|s| - i]), draws, i - 1)
  }

  /** Collections.shuffle(s) with the random numbers `draws`: a reordering of `s`. */
  function Shuffled(s: seq<string>, draws: seq<nat>): (r: seq<string>)
    requires ValidDraws(draws, |s|)
    ensures |r| == |s| && multiset(r) == multiset(s)
  {
    ShuffleIsPermutation(s, draws, |s|);
    ShuffleFrom(s, draws, |s|)
  }

  /** Shuffling only reorders: whatever the draws, the result is a permutation of the list. */
  lemma {:induction false} ShuffleIsPermutation(s: seq<string>, draws: seq<nat>, i: nat)
    requires i <= |s| && ValidDraws(draws, |s|)
    ensures |ShuffleFrom(s, draws, i)| == |s|
    ensures multiset(ShuffleFrom(s, draws, i)) == multiset(s)
    decreases i
  {
    if i > 1 {
      var t := Swap(s, i - 1, draws[|s| - i]);
      assert multiset(t) == multiset(s);
      ShuffleIsPermutation(t, draws, i - 1);
    }
  }

  /** Collections.shuffle on an array: for i from the length down to 2, swap a[i - 1] with
    * a[nextInt(i)]. */
  method Shuffle(a: array<string>, draws: seq<nat>)
    requires ValidDraws(draws, a.Length)
    modifies a
    ensures a[..] == Shuffled(old(a[..]), draws)
  {
    var i := a.Length;
    while i > 1
      invariant 0 <= i <= a.Length
      invariant ShuffleFrom(a[..], draws, i) == Shuffled(old(a[..]), draws)
    {
      ghost var before := a[..];
      var j := draws[a.Length - i];
      a[i - 1], a[j] := a[j], a[i - 1];
      assert a[..] == Swap(before, i - 1, j);
      i := i - 1;
    }
  }

  /** The question a DTO describes, for the shuffle's random numbers `draws`: the mapped fields
    * are copied and the answers are the bad answers and the correct one, in shuffled order. */
  function QuestionFromDto(dto: QuestionDto, draws: seq<nat>): (q: Question)
    requires ValidDraws(draws, |dto.badAnswers| + 1)
    ensures q.id == dto.id && q.question == dto.question && q.correctAnswer == dto.correctAnswer
    ensures multiset(q.answers) == multiset(dto.badAnswers + [dto.correctAnswer])
    ensures q.correctAnswer in q.answers
  {
    assert dto.correctAnswer in multiset(dto.badAnswers + [dto.correctAnswer]);
    Question(dto.id, dto.question, Shuffled(dto.badAnswers + [dto.correctAnswer], draws), dto.correctAnswer)
  }

  /** createQuestionFromQuestionDto: copies the bad answers into a new list, appends the correct
    * answer and shuffles. The answers are a permutation of the bad answers plus the correct one, so
    * one to three bad answers give two to four answers, the correct one among them. */
  method CreateQuestionFromQuestionDto(dto: QuestionDto, draws: seq<nat>) returns (q: Question)
    requires ValidDraws(draws, |dto.badAnswers| + 1)
    ensures q == QuestionFromDto(dto, draws)
    ensures q.id == dto.id && q.question == dto.question && q.correctAnswer == dto.correctAnswer
    ensures multiset(q.answers) == multiset(dto.badAnswers + [dto.correctAnswer])
    ensures |q.answers| == |dto.badAnswers| + 1
    ensures q.correctAnswer in q.answers
    ensures 1 <= |dto.badAnswers| <= 3 ==> 2 <= |q.answers| <= 4
  {
    var allAnswers := new string[|dto.badAnswers| + 1];
    var k := 0;
    while k < |dto.badAnswers|
      invariant 0 <= k <= |dto.badAnswers|
      invariant allAnswers[..k] == dto.badAnswers[..k]
    {
      allAnswers[k] := dto.badAnswers[k];
      k := k + 1;
    }
    allAnswers[k] := dto.correctAnswer;
    assert allAnswers[..] == dto.badAnswers + [dto.correctAnswer];
    Shuffle(allAnswers, draws);
    q := Question(dto.id, dto.question, allAnswers[..], dto.correctAnswer);
  }

  class QuestionService {
    /** Questions by id. */
    var questions: map<string, Question>

    ghost predicate Valid()
      reads this
    {
      forall k :: k in questions ==> questions[k].id == Some(k)
    }

    constructor ()
      ensures Valid() && questions == map[]
    {
      questions := map[];
    }

    /** Builds the question and saves it: under the DTO's id if it has one, else under `freshId`. */
    method AddQuestion(dto: QuestionDto, draws: seq<nat>, freshId: string) returns (saved: Question)
      requires Valid() && ValidDraws(draws, |dto.badAnswers| + 1)
      requires freshId !in questions
      modifies this
      ensures Valid()
      ensures var key := SaveKey(dto.id, freshId);
              saved == QuestionFromDto(dto, draws).(id := Some(key))
              && questions == old(questions)[key := saved]
    {
      var newQuestion := CreateQuestionFromQuestionDto(dto, draws);
      var key := SaveKey(newQuestion.id, freshId);
      saved := newQuestion.(id := Some(key));
      questions := questions[key := saved];
    }

    /** The stored question, or the "No question" error. */
    function GetQuestionById(id: string): (r: Result<Question>)
      reads this
      requires Valid()
      ensures r.Success? <==> id in questions
      ensures r.Success? ==> r.value == questions[id] && r.value.id == Some(id)
      ensures r.Failure? ==> r.error == IllegalArgument(NO_QUESTION)
    {
      if id in questions then Success(questions[id]) else Failure(IllegalArgument(NO_QUESTION))
    }

    /** updateQuestion as written: it checks that `id` exists, builds the new question, returns the
      * stored one if they are equal, and otherwise saves the new question under the DTO's own id
      * (or `freshId` when it has none), not under `id`. */
    method UpdateQuestion(id: string, dto: QuestionDto, draws: seq<nat>, freshId: string)
      returns (r: Result<Question>)
      requires Valid() && ValidDraws(draws, |dto.badAnswers| + 1)
      requires freshId !in questions
      modifies this
      ensures Valid()
      ensures id !in old(questions) ==>
                r == Failure(IllegalArgument(NO_QUESTION)) && questions == old(questions)
      ensures id in old(questions) && QuestionFromDto(dto, draws) == old(questions)[id] ==>
                r == Success(old(questions)[id]) && questions == old(questions)
      ensures id in old(questions) && QuestionFromDto(dto, draws) != old(questions)[id] ==>
                var key := SaveKey(dto.id, freshId);
                var saved := QuestionFromDto(dto, draws).(id := Some(key));
                r == Success(saved) && questions == old(questions)[key := saved]
    {
      if id !in questions {
        return Failure(IllegalArgument(NO_QUESTION));
      }
      var questionUpdate := questions[id];
      var newQuestion := CreateQuestionFromQuestionDto(dto, draws);
      if newQuestion == questionUpdate {
        return Success(questionUpdate);
      }
      var key := SaveKey(newQuestion.id, freshId);
      var saved := newQuestion.(id := Some(key));
      questions := questions[key := saved];
      r := Success(saved);
    }

    /** updateQuestion as evidently intended, following updateQuiz: the new question takes the id
      * of the one it replaces, so the update rewrites that record and adds none. */
    method UpdateQuestionInPlace(id: string, dto: QuestionDto, draws: seq<nat>)
      returns (r: Result<Question>)
      requires Valid() && ValidDraws(draws, |dto.badAnswers| + 1)
      modifies this
      ensures Valid()
      ensures questions.Keys == old(questions).Keys
      ensures id !in old(questions) ==>
                r == Failure(IllegalArgument(NO_QUESTION)) && questions == old(questions)
      ensures id in old(questions) && QuestionFromDto(dto, draws) == old(questions)[id] ==>
                r == Success(old(questions)[id]) && questions == old(questions)
      ensures id in old(questions) && QuestionFromDto(dto, draws) != old(questions)[id] ==>
                var saved := QuestionFromDto(dto, draws).(id := Some(id));
                r == Success(saved) && questions == old(questions)[id := saved]
                && saved.question == dto.question && saved.correctAnswer == dto.correctAnswer
    {
      if id !in questions {
        return Failure(IllegalArgument(NO_QUESTION));
      }
      var questionUpdate := questions[id];
      var newQuestion := CreateQuestionFromQuestionDto(dto, draws);
      if newQuestion == questionUpdate {
        return Success(questionUpdate);
      }
      newQuestion := newQuestion.(id := Some(id));
      questions := questions[id := newQuestion];
      r := Success(newQuestion);
    }

    /** Removes exactly the question `id`, or fails when it does not exist. */
    method DeleteQuestion(id: string) returns (r: Result<string>)
      requires Valid()
      modifies this
      ensures Valid()
      ensures id !in old(questions) ==>
                r == Failure(IllegalArgument(NO_QUESTION)) && questions == old(questions)
      ensures id in old(questions) ==>
                r == Success(QUESTION_DELETED) && questions == old(questions) - {id}
    {
      if id !in questions {
        return Failure(IllegalArgument(NO_QUESTION));
      }
      questions := questions - {id};
      r := Success(QUESTION_DELETED);
    }
  }

  /** An update whose DTO carries no id leaves the record at the path id as it was and stores the
    * new content under a new id. */
  method UpdateQuestionWithoutIdAddsRecord() {
    var service := new QuestionService();
    var stored := service.AddQuestion(QuestionDto(Some("q1"), "2+2?", ["3"], "4"), [0], "fresh-0");
    var r := service.UpdateQuestion("q1", QuestionDto(None, "2+3?", ["4"], "5"), [0], "fresh-1");
    assert r.Success? && r.value.id == Some("fresh-1");
    assert service.questions["q1"] == stored;
    assert service.questions.Keys == {"q1", "fresh-1"};
  }

  /** The corrected update of the same request rewrites "q1" and adds nothing. */
  method UpdateQuestionInPlaceRewritesRecord() {
    var service := new QuestionService();
    var stored := service.AddQuestion(QuestionDto(Some("q1"), "2+2?", ["3"], "4"), [0], "fresh-0");
    var r := service.UpdateQuestionInPlace("q1", QuestionDto(None, "2+3?", ["4"], "5"), [0]);
    assert r.Success? && r.value.id == Some("q1");
    assert service.questions["q1"].question == "2+3?";
    assert service.questions.Keys == {"q1"};
  }
}
