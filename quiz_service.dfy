/** QuizService: the quiz collection. */
module QuizServices {
  import opened Wrappers
  import opened Domain

  const NO_QUIZ := "No quiz with that id exists!"
  // deleteQuiz reports a missing quiz with the question service's message.
  const NO_QUESTION := "No question with that id exists!"
  const QUIZ_DELETED := "Quiz successfully deleted"

  class QuizService {
    /** Quizzes by id. */
    var quizzes: map<string, Quiz>

    ghost predicate Valid()
      reads this
    {
      forall k :: k in quizzes ==> quizzes[k].id == Some(k)
    }

    constructor ()
      ensures Valid() && quizzes == map[]
    {
      quizzes := map[];
    }

    /** Saves the quiz under its own id, or under `freshId` when it has none, and returns it. */
    method AddQuiz(quiz: Quiz, freshId: string) returns (saved: Quiz)
      requires Valid() && freshId !in quizzes
      modifies this
      ensures Valid()
      ensures var key := SaveKey(quiz.id, freshId);
              saved == quiz.(id := Some(key)) && quizzes == old(quizzes)[key := saved]
    {
      var key := SaveKey(quiz.id, freshId);
      saved := quiz.(id := Some(key));
      quizzes := quizzes[key := saved];
    }

    /** The stored quiz, or the "No quiz" error. */
    function GetQuizById(id: string): (r: Result<Quiz>)
      reads this
      requires Valid()
      ensures r.Success? <==> id in quizzes
      ensures r.Success? ==> r.value == quizzes[id] && r.value.id == Some(id)
      ensures r.Failure? ==> r.error == IllegalArgument(NO_QUIZ)
    {
      if id in quizzes then Success(quizzes[id]) else Failure(IllegalArgument(NO_QUIZ))
    }

    /** Replaces the quiz `id` by `newQuiz`, which takes over that id. A missing id fails and an
      * update equal to the stored quiz writes nothing; no other quiz changes. */
    method UpdateQuiz(id: string, newQuiz: Quiz) returns (r: Result<Quiz>)
      requires Valid()
      modifies this
      ensures Valid()
      ensures quizzes.Keys == old(quizzes).Keys
      ensures id !in old(quizzes) ==>
                r == Failure(IllegalArgument(NO_QUIZ)) && quizzes == old(quizzes)
      ensures id in old(quizzes) && newQuiz == old(quizzes)[id] ==>
                r == Success(old(quizzes)[id]) && quizzes == old(quizzes)
      ensures id in old(quizzes) && newQuiz != old(quizzes)[id] ==>
                r == Success(newQuiz.(id := Some(id)))
                && quizzes == old(quizzes)[id := newQuiz.(id := Some(id))]
      ensures forall k :: k in old(quizzes) && k != id ==> quizzes[k] == old(quizzes)[k]
    {
      if id !in quizzes {
        return Failure(IllegalArgument(NO_QUIZ));
      }
      var quizUpdate := quizzes[id];
      if newQuiz == quizUpdate {
        return Success(quizUpdate);
      }
      var saved := newQuiz.(id := quizUpdate.id);
      quizzes := quizzes[id := saved];
      r := Success(saved);
    }

    /** Removes exactly the quiz `id`, or fails when it does not exist. */
    method DeleteQuiz(id: string) returns (r: Result<string>)
      requires Valid()
      modifies this
      ensures Valid()
      ensures id !in old(quizzes) ==>
                r == Failure(IllegalArgument(NO_QUESTION)) && quizzes == old(quizzes)
      ensures id in old(quizzes) ==>
                r == Success(QUIZ_DELETED) && quizzes == old(quizzes) - {id}
    {
      if id !in quizzes {
        return Failure(IllegalArgument(NO_QUESTION));
      }
      quizzes := quizzes - {id};
      r := Success(QUIZ_DELETED);
    }
  }
}
