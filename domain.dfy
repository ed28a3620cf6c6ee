/** The documents and transfer objects the services exchange.
  * Dates are epoch milliseconds; percentages are integer hundredths of a percent. */
module Domain {
  import opened Wrappers

  /** A registered account. The id is always set once the user is stored. */
  datatype User = User(
    id: string,
    email: string,
    username: string,
    password: string,   // the encoded password
    role: string,
    enabled: bool)

  /** A stored question: its answer options and the one correct answer. */
  datatype Question = Question(
    id: Option<string>,
    question: string,
    answers: seq<string>,
    correctAnswer: string)

  /** What a client sends to create or update a question. */
  datatype QuestionDto = QuestionDto(
    id: Option<string>,
    question: string,
    badAnswers: seq<string>,
    correctAnswer: string)

  datatype DifficultyLevel = EASY | NORMAL | HARD | EXPERT

  datatype Quiz = Quiz(
    id: Option<string>,
    title: string,
    category: string,
    level: DifficultyLevel,
    isPublic: bool,
    questionIds: seq<string>,
    authorId: Option<string>)

  /** One graded attempt at a quiz. `percentageScore` is in hundredths (5000 is 50.00). */
  datatype Score = Score(
    id: Option<string>,
    quizId: string,
    userId: Option<string>,
    startDate: int,
    endDate: int,
    elapsedTimeInMs: int,
    userAnswers: map<string, string>,
    goodAnswers: int,
    allAnswers: int,
    percentageScore: int)

  /** The projection of a score shown in statistics and rankings. */
  datatype ScoreDto = ScoreDto(
    id: Option<string>,
    elapsedTime: int,
    percentageScore: int,
    startDate: int)

  /** Aggregate figures over a list of scores, held as doubles are: scores in hundredths of a
    * percent, the time in milliseconds. */
  datatype StatisticsDto = StatisticsDto(
    attemptsNumber: nat,
    averageScore: real,
    bestScore: real,
    worstScore: real,
    averageTimeInMs: real,
    scoreDtoList: seq<ScoreDto>)

  datatype EmailDto = EmailDto(
    to: string,
    replyTo: string,
    from: string,
    subject: string,
    content: string)

  datatype UserRegisterDto = UserRegisterDto(
    email: string,
    username: string,
    password: string,
    passwordConfirmation: string)

  datatype UserLoginDto = UserLoginDto(username: string, password: string)

  datatype PasswordDto = PasswordDto(
    oldPassword: string,
    newPassword: string,
    passwordConfirmation: string)
}
