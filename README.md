# quizmania service core in Dafny

This project models the service layer of quizmania, a Spring Boot REST backend for quizzes.
Users register, confirm their account through a mailed token, log in and change or reset their
password. Authors create questions and quizzes. Players submit attempts, which are graded into
scores. Per-quiz statistics and a ranking are computed from those scores.

Each MongoDB repository is a `map` field of the class that owns it. The user, question, quiz and
score stores are keyed by document id. The token store is keyed by the token string, which is what
`findByToken` looks tokens up by; a token document's own Mongo `id` is not modelled, because no
service reads it. `save` is an upsert: a record without an id is stored under a fresh id, which the
caller passes in.
The user store (`UserStore.UserRepository`) and the token store
(`TokenService.ConfirmationTokenService`) are objects shared by the services that use them.
Email and username are not unique in the model's store: enabling a user saves the copy of the user
held by its token, which may re-insert a user deleted since. A lookup by email or username is
therefore a nondeterministic choice among the matching users, and methods that depend on that
choice return it as a ghost out-parameter. The exception a single-result query may raise when
several documents match is not modelled.

ScoreServiceImpl looks users up through the interface `UserFinderService.findUserByUsername`, for
which no implementation is part of the sources (`UserService` does not declare that it implements
it). The model assumes it behaves like `UserService.findUserByUsername`: the stored user with that
username, or UsernameNotFound "No user with that email or username exists!" when there is none.
`ScoreServices.ScoreService` therefore holds a `UserServices.UserService`, and the user lookups of
`AddScore`, `GetScoresByUser` and `StatisticsServices.StatisticsService.GetQuizStatisticsById`
rest on that assumption.

The environment comes in as parameters:

- the password encoder is `matches` and `encode`;
- the JWT issuer is `generateToken`;
- the mail sender is `mailSent`, which says whether building and sending the mail succeeded;
- the clock is `now`, in milliseconds;
- `UUID.randomUUID` and Mongo's id generator are fresh strings (`uuid`, `freshId`);
- `Collections.shuffle` is its own loop, run on the random draws `draws`.

Numbers are exact. A percentage is an integer number of hundredths of a percent, so 50.00 % is
5000 and `Math.round(x)` is `floor(x + 1/2)` on reals. Statistics keep the Java doubles as
`real`. Elapsed times and dates are integer milliseconds.

Modules, one file each: `Wrappers`, `Domain`, `ConfirmationTokens`, `TokenService`, `UserStore`,
`UserServices`, `AuthServices`, `QuestionServices`, `QuizServices`, `ScoreServices` and
`StatisticsServices`.

Where the sources disagree, the model follows the service code:

- Some record classes lack fields the services use: `Question.correctAnswer` and
  `CustomUser.enabled` in `domain/`, and the id of `dto/ScoreDto.java`. The data model has the fields
  the service code and the test fixtures use.
- `UserRepository.java` declares only `findByEmail` and `findByUsername`, but `registerUser` calls
  `existsByEmail` and `existsByUsername`. `UserStore.UserRepository.ExistsByEmail` and
  `ExistsByUsername` model those missing methods as Spring derived queries: some stored user has
  that email, or that username.
- `ScoreRepository.java` declares no query methods. `getScoresByQuizId` and `getScoresByUserId` are
  read as Spring derived queries: every stored score with that field.
- In `UserService.updateUserPassword`, the message is "The Password confirmation must match New
  password" with no final "!", as in the code, although a unit test expects one.
- `deleteQuiz` on a missing id fails with "No question with that id exists!", as written.
- With no answers, `addScore` divides 0 by 0. `Math.round` of NaN is 0, and the model
  reproduces that 0 without excluding the empty map.

## Model

| member | source | states |
|---|---|---|
| ConfirmationTokens.NewConfirmationToken | src/main/java/com/springboot/rest/quizmania/domain/ConfirmationToken.java:25-31 | keeps the token string and user as given; the expiry is exactly 24 h (1440 minutes, in ms) after `now`, so strictly after creation |
| ConfirmationTokens.IsExpired | src/main/java/com/springboot/rest/quizmania/service/ConfirmationTokenServiceImpl.java:39 | a token is expired exactly when the clock has reached its expiration date, so at that very instant too |
| ConfirmationTokens.ValidityWindow | src/main/java/com/springboot/rest/quizmania/domain/ConfirmationToken.java:14 | a new token is unexpired exactly before creation + 1440 minutes and already expired at that instant |
| TokenService.ConfirmationTokenService.CreateToken | src/main/java/com/springboot/rest/quizmania/service/ConfirmationTokenServiceImpl.java:21-25 | stores one new token for the user under the fresh UUID and returns it; nothing else in the store changes |
| TokenService.ConfirmationTokenService.GetConfirmationToken | src/main/java/com/springboot/rest/quizmania/service/ConfirmationTokenServiceImpl.java:28-30 | the stored token for that string, or none exactly when no such token exists |
| TokenService.ConfirmationTokenService.ConfirmToken | src/main/java/com/springboot/rest/quizmania/service/ConfirmationTokenServiceImpl.java:33-44 | an unknown token fails with "Invalid token."; expiration − now ≤ 0 fails with "Token have expired."; otherwise returns the stored token |
| TokenService.CreatedTokenConfirms | src/main/java/com/springboot/rest/quizmania/service/ConfirmationTokenServiceImpl.java:39 | a token created at time c confirms at time t exactly when t < c + 1440 minutes, and then yields the user it was created for |
| UserStore.UserRepository.FindByEmail | src/main/java/com/springboot/rest/quizmania/repository/UserRepository.java:7 | none exactly when no stored user has that email; otherwise a stored user with that email |
| UserStore.UserRepository.FindByUsername | src/main/java/com/springboot/rest/quizmania/repository/UserRepository.java:8 | none exactly when no stored user has that username; otherwise a stored user with that username |
| UserServices.UserService.FindUserByUsername | src/main/java/com/springboot/rest/quizmania/service/UserService.java:64-69 | a stored user with that username, or UsernameNotFound "No user with that email or username exists!" exactly when there is none |
| UserServices.UserService.EnableUser | src/main/java/com/springboot/rest/quizmania/service/UserService.java:71-74 | saves the user with enabled set, under its id; every other user is unchanged |
| UserServices.UserService.UpdateUserPassword | src/main/java/com/springboot/rest/quizmania/service/UserService.java:168-180 | checks in order: unknown user, wrong old password ("Wrong password!"), unconfirmed new password; each failure leaves the store unchanged; on success only that user changes, to the encoded new password |
| UserServices.UserService.DeleteUser | src/main/java/com/springboot/rest/quizmania/service/UserService.java:182-189 | removes exactly the found user's id, or fails for an unknown username with the store unchanged |
| UserServices.UserService.ConfirmUserAccount | src/main/java/com/springboot/rest/quizmania/service/UserService.java:191-202 | missing token: "Invalid token."; expiration − now ≤ 0: "Token have expired."; both leave users unchanged; otherwise the token's user is saved enabled and nothing else changes |
| AuthServices.CreateEmailMessage | src/main/java/com/springboot/rest/quizmania/service/AuthServiceImpl.java:150-158 | addressed to the given address with the given subject and content, from and reply-to the no-reply address |
| AuthServices.NewUser | src/main/java/com/springboot/rest/quizmania/service/AuthServiceImpl.java:76-82 | the registered account: the given email and username, the encoded password, role "USER", not enabled |
| AuthServices.ConfirmationLink | src/main/java/com/springboot/rest/quizmania/service/AuthServiceImpl.java:85 | the link is APP_URL + "/confirmation?token=" followed by the token, which can be read back from its end |
| AuthServices.ResetPasswordLink | src/main/java/com/springboot/rest/quizmania/service/AuthServiceImpl.java:139 | the link is APP_URL + "/resetPassword?token=" followed by the token, which can be read back from its end |
| AuthServices.RegistrationEmail | src/main/java/com/springboot/rest/quizmania/service/AuthServiceImpl.java:84-87 | the registration mail goes to the new account's address from the no-reply address, with subject "Complete Registration" and the confirmation link in its body |
| AuthServices.ResetPasswordEmail | src/main/java/com/springboot/rest/quizmania/service/AuthServiceImpl.java:138-141 | the reset mail goes to the given address from the no-reply address, with subject "Reset password" and the reset link in its body |
| AuthServices.LinksAreInjective | src/main/java/com/springboot/rest/quizmania/service/AuthServiceImpl.java:139 | different tokens give different links of each kind, and no confirmation link equals a reset link |
| AuthServices.AuthService.FindUserByEmailOrUsername | src/main/java/com/springboot/rest/quizmania/service/AuthServiceImpl.java:53-57 | a user with that email if one exists, else one with that username, else none exactly when neither exists |
| AuthServices.AuthService.EnableUser | src/main/java/com/springboot/rest/quizmania/service/AuthServiceImpl.java:59-62 | saves the user with enabled set, under its id; every other user is unchanged |
| AuthServices.AuthService.RegisterUser | src/main/java/com/springboot/rest/quizmania/service/AuthServiceImpl.java:65-99 | email taken, then username taken, then password mismatch, each failing with its message and changing nothing; otherwise one disabled USER account and one token are stored; on mail failure the user store ends as it began and the token stays |
| AuthServices.AuthService.LoginUser | src/main/java/com/springboot/rest/quizmania/service/AuthServiceImpl.java:102-122 | unknown name fails; a password the encoder rejects fails with bad credentials; a disabled account fails with "User account is locked!"; success exactly otherwise, returning tokenType "Bearer" and the issued token; nothing changes |
| AuthServices.AuthService.ConfirmUserAccount | src/main/java/com/springboot/rest/quizmania/service/AuthServiceImpl.java:125-129 | a token that fails confirmation returns that error with users unchanged; otherwise the token's user is saved enabled and "Account successfully verified." returned |
| AuthServices.AuthService.SendResetPasswordEmail | src/main/java/com/springboot/rest/quizmania/service/AuthServiceImpl.java:132-148 | unknown email fails with "User with that email not exists!" and stores nothing; otherwise a token for that user is stored, then the reset mail with its link is sent |
| QuestionServices.Shuffled | src/main/java/com/springboot/rest/quizmania/service/QuestionServiceImpl.java:63 | Collections.shuffle under the given draws: same length and same multiset of answers |
| QuestionServices.QuestionFromDto | src/main/java/com/springboot/rest/quizmania/service/QuestionServiceImpl.java:60-66 | the mapped question keeps the DTO's id, text and correct answer; its answers are the bad answers plus the correct one in some order, so the correct one is among them |
| QuestionServices.ShuffleIsPermutation | src/main/java/com/springboot/rest/quizmania/service/QuestionServiceImpl.java:63 | every partial run of the shuffle loop keeps the length and the multiset of answers |
| QuestionServices.Shuffle | src/main/java/com/springboot/rest/quizmania/service/QuestionServiceImpl.java:63 | the array afterwards is the shuffle of its old contents under the given draws: Java's swap of i − 1 with a draw below i, for i from the length down to 2 |
| QuestionServices.CreateQuestionFromQuestionDto | src/main/java/com/springboot/rest/quizmania/service/QuestionServiceImpl.java:60-69 | keeps id, text and correct answer; the answers are a permutation of the bad answers plus the correct one, so there is one more of them than bad answers (2 to 4 for 1 to 3 bad answers) and the correct answer is among them |
| QuestionServices.QuestionService.AddQuestion | src/main/java/com/springboot/rest/quizmania/service/QuestionServiceImpl.java:26-29 | stores the built question under its id, or a fresh id, and returns it; nothing else changes |
| QuestionServices.QuestionService.GetQuestionById | src/main/java/com/springboot/rest/quizmania/service/QuestionServiceImpl.java:32-36 | the stored question, or "No question with that id exists!" exactly when the id is missing |
| QuestionServices.QuestionService.UpdateQuestion | src/main/java/com/springboot/rest/quizmania/service/QuestionServiceImpl.java:39-50 | as written: missing id fails with nothing changed; content equal to the stored question returns it without writing; otherwise saves under the DTO's own id (or a fresh one), not under the path id |
| QuestionServices.QuestionService.UpdateQuestionInPlace | src/main/java/com/springboot/rest/quizmania/service/QuestionServiceImpl.java:39-50 | as intended: the same checks, and the new content replaces the record at the path id, so the set of ids never changes |
| QuestionServices.QuestionService.DeleteQuestion | src/main/java/com/springboot/rest/quizmania/service/QuestionServiceImpl.java:53-58 | a missing id fails and changes nothing; otherwise removes exactly that id and returns "Question successfully deleted" |
| QuizServices.QuizService.AddQuiz | src/main/java/com/springboot/rest/quizmania/service/QuizService.java:16-18 | stores the quiz under its id, or a fresh id, and returns it; nothing else changes |
| QuizServices.QuizService.GetQuizById | src/main/java/com/springboot/rest/quizmania/service/QuizService.java:20-24 | the stored quiz, or "No quiz with that id exists!" exactly when the id is missing |
| QuizServices.QuizService.UpdateQuiz | src/main/java/com/springboot/rest/quizmania/service/QuizService.java:26-36 | a missing id fails with nothing changed; an equal quiz is returned without writing; otherwise the new quiz is stored under the existing id; the set of ids and all other entries are unchanged |
| QuizServices.QuizService.DeleteQuiz | src/main/java/com/springboot/rest/quizmania/service/QuizService.java:38-43 | a missing id fails, with deleteQuiz's message as written, and changes nothing; otherwise removes exactly that id |
| ScoreServices.CountGoodAnswers | src/main/java/com/springboot/rest/quizmania/service/ScoreServiceImpl.java:36-47 | fails with "No question with that id exists!" exactly when an answered question is missing; otherwise the count is at most the number of answers, equals it exactly when every answer is correct, and is 0 exactly when none is |
| ScoreServices.PercentageBounds | src/main/java/com/springboot/rest/quizmania/service/ScoreServiceImpl.java:50-51 | the percentage lies in [0, 100.00]; all correct gives 100.00, none correct gives 0 |
| ScoreServices.JavaRound | src/main/java/com/springboot/rest/quizmania/service/ScoreServiceImpl.java:51 | Math.round: the integer nearest to x, halves rounded up |
| ScoreServices.PercentageScore | src/main/java/com/springboot/rest/quizmania/service/ScoreServiceImpl.java:50-51 | 0 for no answers; otherwise the hundredth of a percent nearest to good/all·100 %, halves rounded up |
| ScoreServices.PercentageMonotonic | src/main/java/com/springboot/rest/quizmania/service/ScoreServiceImpl.java:50-51 | more correct answers out of the same total never give a lower percentage |
| ScoreServices.HalfCorrectIsFifty | src/test/java/com/springboot/rest/quizmania/common/TestData.java:86-97 | one correct answer of two gives 50.00 |
| ScoreServices.ScoreService.AddScore | src/main/java/com/springboot/rest/quizmania/service/ScoreServiceImpl.java:28-54 | an unknown username fails first, then a missing question; neither saves anything; otherwise the saved score has the user's id (userId kept when no username is given), end − start as elapsed time, the correct and total answer counts with 0 ≤ good ≤ all, and the rounded percentage in [0, 100.00] |
| ScoreServices.ScoreService.GetScoreById | src/main/java/com/springboot/rest/quizmania/service/ScoreServiceImpl.java:57-61 | the stored score, or "No score with that id exists!" exactly when the id is missing |
| ScoreServices.ScoreService.FindScores | src/main/java/com/springboot/rest/quizmania/service/ScoreServiceImpl.java:66 | the repository query lists every stored score it selects, each exactly once, and nothing else |
| ScoreServices.ScoreService.GetScoresByQuizId | src/main/java/com/springboot/rest/quizmania/service/ScoreServiceImpl.java:70-72 | every stored score of that quiz, each exactly once, and nothing else |
| ScoreServices.ScoreService.GetScoresByUser | src/main/java/com/springboot/rest/quizmania/service/ScoreServiceImpl.java:64-67 | fails exactly when the username is unknown; otherwise every stored score carrying the found user's id, each exactly once |
| StatisticsServices.ToScoreDtos | src/main/java/com/springboot/rest/quizmania/service/StatisticsService.java:85-88 | one ScoreDto per score, in the same order, carrying its id, elapsed time, percentage and start date |
| StatisticsServices.ScoresOfQuiz | src/main/java/com/springboot/rest/quizmania/service/StatisticsService.java:79-83 | keeps each score of the quiz as often as it occurs and drops every other score; a one-score list is kept or emptied |
| StatisticsServices.ScoresOfQuizKeepsOrder | src/main/java/com/springboot/rest/quizmania/service/StatisticsService.java:79-83 | filtering a concatenation filters each part in turn, so the kept scores stay in encounter order |
| StatisticsServices.CalculateScoreStats | src/main/java/com/springboot/rest/quizmania/service/StatisticsService.java:43-63 | 0 for no scores; otherwise AVG times the count is the sum of the percentages; MAX and MIN are percentages of the list that no other percentage exceeds or undercuts |
| StatisticsServices.CalculateAvgTime | src/main/java/com/springboot/rest/quizmania/service/StatisticsService.java:65-71 | 0 for no scores; otherwise the unrounded mean: times the count it gives the total elapsed time |
| StatisticsServices.CreateStatistics | src/main/java/com/springboot/rest/quizmania/service/StatisticsService.java:26-41 | the attempt count is the list's length; the average is a whole number of hundredths within half a hundredth of the exact mean; best, worst and mean time are as computed; the list is kept as given |
| StatisticsServices.EmptyStatistics | src/main/java/com/springboot/rest/quizmania/service/StatisticsService.java:26-41 | no scores give 0 attempts and 0 for every figure |
| StatisticsServices.MeanBetweenWorstAndBest | src/main/java/com/springboot/rest/quizmania/service/StatisticsService.java:43-63 | for a non-empty list, worst ≤ exact mean ≤ best |
| StatisticsServices.StatisticsBounds | src/main/java/com/springboot/rest/quizmania/service/StatisticsService.java:31-35 | the rounded average also lies between worst and best, and with percentages in [0, 100.00] so do best and worst |
| StatisticsServices.TwoAttemptsExample | src/test/java/com/springboot/rest/quizmania/controller/StatisticsControllerTest.java:41-58 | 50.00 in 12000 ms and 0 in 10000 ms give 2 attempts, average 25.00, best 50.00, worst 0 and 11000 ms |
| StatisticsServices.Insert | src/main/java/com/springboot/rest/quizmania/service/StatisticsService.java:100 | one sorting step: the result holds the entries of the list plus the inserted one |
| StatisticsServices.Rank | src/main/java/com/springboot/rest/quizmania/service/StatisticsService.java:100 | the ranking contains exactly the given entries, with multiplicity, and is ordered by percentage descending, then elapsed time ascending |
| StatisticsServices.RankIsStable | src/main/java/com/springboot/rest/quizmania/service/StatisticsService.java:100 | entries with equal percentage and time keep their relative order |
| StatisticsServices.RankOfRanked | src/main/java/com/springboot/rest/quizmania/service/StatisticsService.java:100 | an already ranked list is returned unchanged |
| StatisticsServices.RankIsIdempotent | src/main/java/com/springboot/rest/quizmania/service/StatisticsService.java:100 | ranking a ranking leaves it unchanged |
| StatisticsServices.PersonalSelection | src/main/java/com/springboot/rest/quizmania/service/StatisticsService.java:79-83 | the personal selection holds exactly the stored scores of that user and that quiz |
| StatisticsServices.StatisticsService.GetQuizStatisticsById | src/main/java/com/springboot/rest/quizmania/service/StatisticsService.java:73-91 | global: statistics over every stored score of the quiz, never failing; personal: fails exactly for an unknown username, otherwise statistics over that user's listed scores kept for the quiz |
| StatisticsServices.StatisticsService.GetQuizRankingById | src/main/java/com/springboot/rest/quizmania/service/StatisticsService.java:93-102 | the quiz's stored scores as ScoreDtos, ranked: ordered and a permutation of the listed scores |

## Left out

- Controllers, `SecurityConfig.java` and request validation: HTTP routing, status codes and Spring Security wiring.
- `JwtTokenProvider.java`: the signed JWT becomes the parameter `generateToken`.
- `EmailSenderService.java`: mail I/O and `@Async` sending become the outcome `mailSent`.
- The password encoder (BCrypt) and the authentication manager: these become `matches` and `encode`.
- `CustomUserDetailsService.java`: its email-then-username lookup is the one in `AuthServices.AuthService.FindUserByEmailOrUsername`.
- `AuthService.java` and `ScoreService.java`: older variants of the `*Impl` classes, not used by this model. `StatisticsService` holds a `ScoreService` and calls its `getScoresByQuizId` and `getScoresByUser`, which the `ScoreService.java` class does not declare; the model takes that dependency to be ScoreServiceImpl (`ScoreServices.ScoreService`).
- `DifficultyLevelServiceImpl.java`: it only lists the names of an enum.
- UserService's `registerUser`, `loginUser`, `getUserInfo` and `getAllUsersInfo`: the registration and login modelled are AuthServiceImpl's; user DTO mapping is presentation only.
- The order in which Mongo returns query results is left open.
- The exception a single-result lookup by email or username may raise when several documents match is not modelled; the model picks one of the matches instead. Under such duplicates, the authentication manager's own lookup in `CustomUserDetailsService` may also pick a different user from the one `LoginUser` checks.
- `UserFinderService`: no implementation is part of the sources; its lookup is assumed to be `UserService.findUserByUsername`, as described above.
- Java `long` and `int` wrap-around: elapsed times, counts and dates are unbounded integers.
- IEEE double rounding: percentages, means and averages are exact.
- `null` fields, such as a score without dates or answers: the model has no null, so the NullPointerExceptions the Java code would throw are not modelled.

## Findings

| source | as written | input that shows it | evidently intended | confidence | as-written member | corrected member |
|---|---|---|---|---|---|---|
| src/main/java/com/springboot/rest/quizmania/service/QuestionServiceImpl.java:39-50 | updateQuestion checks that the path id exists, then saves the new question under the DTO's own id, with no `setId(id)` as in `QuizService.updateQuiz` | a stored question "q1" and an update of "q1" whose DTO has no id: the content goes to a new record and "q1" is left as it was | the new content replaces the question at the path id, and no record is added | not executed | QuestionServices.QuestionService.UpdateQuestion | QuestionServices.QuestionService.UpdateQuestionInPlace |

`QuestionServices.UpdateQuestionWithoutIdAddsRecord` asserts the as-written outcome on that input.
`QuestionServices.UpdateQuestionInPlaceRewritesRecord` asserts the corrected outcome on the same input.
