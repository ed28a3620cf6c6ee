/** AuthServiceImpl: registration with mail confirmation, login, account confirmation and
  * password-reset mail. Hashing, the JWT issuer, the clock, fresh ids and the mail sender are
  * parameters. */
module AuthServices {
  import opened Wrappers
  import opened Domain
  import opened ConfirmationTokens
  import opened UserStore
  import opened TokenService

  const APP_URL := "https://quizmania-app.herokuapp.com"
  const NO_REPLY := "quizmania@no-reply.com"
  const EMAIL_TAKEN := "User with this email already exists!"
  const USERNAME_TAKEN := "User with this username already exists!"
  const PASSWORD_MISMATCH := "The Password confirmation must match Password!"
  const NO_USER := "No user with that email or username exists!"
  const ACCOUNT_LOCKED := "User account is locked!"
  const ACCOUNT_VERIFIED := "Account successfully verified."
  const NO_USER_WITH_EMAIL := "User with that email not exists!"
  const RESET_MAIL_SENT := "Email successfully send"

  /** The account-confirmation link: the application URL, the confirmation path, then the token. */
  function ConfirmationLink(token: string): (link: string)
    ensures |link| == |APP_URL| + 20 + |token|
    ensures link[..|APP_URL| + 20] == APP_URL + "/confirmation?token="
    ensures link[|APP_URL| + 20..] == token
  {
    assert |"/confirmation?token="| == 20;
    (APP_URL + "/confirmation?token=") + token
  }

  /** The password-reset link: the application URL, the reset path, then the token. */
  function ResetPasswordLink(token: string): (link: string)
    ensures |link| == |APP_URL| + 21 + |token|
    ensures link[..|APP_URL| + 21] == APP_URL + "/resetPassword?token="
    ensures link[|APP_URL| + 21..] == token
  {
    assert |"/resetPassword?token="| == 21;
    (APP_URL + "/resetPassword?token=") + token
  }

  /** `part` occurs in `s` as a contiguous piece. */
  ghost predicate Contains(s: string, part: string) {
    exists i, j :: 0 <= i <= j <= |s| && j - i == |part| && s[i..j] == part
  }

  function CreateEmailMessage(emailAddress: string, subject: string, content: string): (e: EmailDto)
    ensures e.to == emailAddress && e.subject == subject && e.content == content
    ensures e.from == e.replyTo == NO_REPLY
  {
    EmailDto(emailAddress, NO_REPLY, NO_REPLY, subject, content)
  }

  /** The mail sent on registration for the confirmation token `token`: to the new account's
    * address, from the no-reply address, with the confirmation link in its body. */
  function RegistrationEmail(emailAddress: string, token: string): (e: EmailDto)
    ensures e.to == emailAddress && e.subject == "Complete Registration"
    ensures e.from == e.replyTo == NO_REPLY
    ensures Contains(e.content, ConfirmationLink(token))
  {
    var prefix := "To confirm your account, please click here: <a href=";
    var link := ConfirmationLink(token);
    var content := prefix + link + ">verify</a>";
    assert content[|prefix|..|prefix| + |link|] == link;
    CreateEmailMessage(emailAddress, "Complete Registration", content)
  }

  /** The mail sent on a password-reset request for the token `token`: to that address, from the
    * no-reply address, with the reset link in its body. */
  function ResetPasswordEmail(emailAddress: string, token: string): (e: EmailDto)
    ensures e.to == emailAddress && e.subject == "Reset password"
    ensures e.from == e.replyTo == NO_REPLY
    ensures Contains(e.content, ResetPasswordLink(token))
  {
    var prefix := "To reset your password, please click here: <a href=";
    var link := ResetPasswordLink(token);
    var content := prefix + link + ">reset</a>";
    assert content[|prefix|..|prefix| + |link|] == link;
    CreateEmailMessage(emailAddress, "Reset password", content)
  }

  /** The account registration stores before the mail goes out: disabled, role USER. */
  function NewUser(id: string, dto: UserRegisterDto, encode: string -> string): (u: User)
    ensures u.id == id && u.email == dto.email && u.username == dto.username
    ensures u.password == encode(dto.password) && u.role == "USER" && !u.enabled
  {
    User(id, dto.email, dto.username, encode(dto.password), "USER", false)
  }

  /** Different tokens give different links, and no confirmation link is a reset link. */
  lemma {:induction false} LinksAreInjective(t1: string, t2: string)
    ensures ConfirmationLink(t1) == ConfirmationLink(t2) ==> t1 == t2
    ensures ResetPasswordLink(t1) == ResetPasswordLink(t2) ==> t1 == t2
    ensures ConfirmationLink(t1) != ResetPasswordLink(t2)
  {
    var n := |APP_URL|;
    assert ConfirmationLink(t1)[n + 1] == 'c';
    assert ResetPasswordLink(t2)[n + 1] == 'r';
  }

  class AuthService {
    const repository: UserRepository
    const tokenService: ConfirmationTokenService

    constructor (repository: UserRepository, tokenService: ConfirmationTokenService)
      ensures this.repository == repository && this.tokenService == tokenService
    {
      this.repository := repository;
      this.tokenService := tokenService;
    }

    /** A user the lookup "by email, else by username" may return for `name`. */
    ghost predicate Resolves(name: string, u: User)
      reads repository
    {
      repository.Stored(u)
      && if repository.ExistsByEmail(name) then u.email == name else u.username == name
    }

    /** findUserByEmailOrUsername: a user with that email, else one with that username, else null. */
    method FindUserByEmailOrUsername(name: string) returns (u: Option<User>)
      requires repository.Valid()
      ensures u.None? <==> !repository.ExistsByEmail(name) && !repository.ExistsByUsername(name)
      ensures u.Some? ==> Resolves(name, u.value)
    {
      var byEmail := repository.FindByEmail(name);
      var byUsername := repository.FindByUsername(name);
      u := if byEmail.Some? then byEmail else byUsername;
    }

    method EnableUser(user: User) returns (saved: User)
      requires repository.Valid()
      modifies repository
      ensures repository.Valid()
      ensures saved == user.(enabled := true)
      ensures repository.users == old(repository.users)[user.id := saved]
    {
      saved := user.(enabled := true);
      repository.users := repository.users[user.id := saved];
    }

    /** Registers an account and mails its confirmation link. The checks run in order (email taken,
      * username taken, password not confirmed) and a failed check changes nothing. Otherwise the
      * user is saved under `freshId` and a token `uuid` is stored; `mailSent` says whether
      * building and sending the mail succeeded. If it did not, the user is deleted again and the
      * token stays. */
    method RegisterUser(dto: UserRegisterDto, encode: string -> string, freshId: string,
                        uuid: string, now: int, mailSent: EmailDto -> bool)
      returns (r: Result<User>)
      requires repository.Valid() && tokenService.Valid()
      requires freshId !in repository.users && uuid !in tokenService.tokens
      modifies repository, tokenService
      ensures repository.Valid() && tokenService.Valid()
      ensures old(repository.ExistsByEmail(dto.email)) ==>
                r == Failure(IllegalArgument(EMAIL_TAKEN))
      ensures !old(repository.ExistsByEmail(dto.email)) && old(repository.ExistsByUsername(dto.username)) ==>
                r == Failure(IllegalArgument(USERNAME_TAKEN))
      ensures !old(repository.ExistsByEmail(dto.email)) && !old(repository.ExistsByUsername(dto.username))
              && dto.password != dto.passwordConfirmation ==>
                r == Failure(IllegalArgument(PASSWORD_MISMATCH))
      ensures r.Failure? && r.error != MailFailure ==>
                repository.users == old(repository.users) && tokenService.tokens == old(tokenService.tokens)
      ensures !old(repository.ExistsByEmail(dto.email)) && !old(repository.ExistsByUsername(dto.username))
              && dto.password == dto.passwordConfirmation ==>
                var u := NewUser(freshId, dto, encode);
                tokenService.tokens == old(tokenService.tokens)[uuid := NewConfirmationToken(uuid, u, now)]
                && (if mailSent(RegistrationEmail(dto.email, uuid))
                    then r == Success(u) && repository.users == old(repository.users)[freshId := u]
                    else r == Failure(MailFailure) && repository.users == old(repository.users))
    {
      if repository.ExistsByEmail(dto.email) {
        return Failure(IllegalArgument(EMAIL_TAKEN));
      }
      if repository.ExistsByUsername(dto.username) {
        return Failure(IllegalArgument(USERNAME_TAKEN));
      }
      if dto.password != dto.passwordConfirmation {
        return Failure(IllegalArgument(PASSWORD_MISMATCH));
      }
      var savedUser := NewUser(freshId, dto, encode);
      repository.users := repository.users[freshId := savedUser];
      var confirmationToken := tokenService.CreateToken(savedUser, uuid, now);
      var emailDto := RegistrationEmail(dto.email, confirmationToken.token);
      if !mailSent(emailDto) {
        repository.users := repository.users - {savedUser.id};
        assert repository.users == old(repository.users);
        return Failure(MailFailure);
      }
      r := Success(savedUser);
    }

    /** Login: look the name up by email, else username; then let the authentication manager check
      * the password (`matches` is its password encoder); then refuse a disabled account. Nothing
      * changes. `target` is the user the lookup found. */
    method LoginUser(dto: UserLoginDto, matches: (string, string) -> bool, generateToken: User -> string)
      returns (r: Result<map<string, string>>, ghost target: Option<User>)
      requires repository.Valid()
      ensures target.None? <==> !repository.ExistsByEmail(dto.username) && !repository.ExistsByUsername(dto.username)
      ensures target.None? ==> r == Failure(UsernameNotFound(NO_USER))
      ensures target.Some? ==> Resolves(dto.username, target.value)
      ensures target.Some? && !matches(dto.password, target.value.password) ==> r == Failure(BadCredentials)
      ensures target.Some? && matches(dto.password, target.value.password) && !target.value.enabled ==>
                r == Failure(Disabled(ACCOUNT_LOCKED))
      ensures r.Success? <==>
                target.Some? && matches(dto.password, target.value.password) && target.value.enabled
      ensures r.Success? ==>
                r.value == map["tokenType" := "Bearer", "token" := generateToken(target.value)]
    {
      var user := FindUserByEmailOrUsername(dto.username);
      target := user;
      if user.None? {
        return Failure(UsernameNotFound(NO_USER)), target;
      }
      if !matches(dto.password, user.value.password) {
        return Failure(BadCredentials), target;
      }
      if !user.value.enabled {
        return Failure(Disabled(ACCOUNT_LOCKED)), target;
      }
      var response: map<string, string> := map[];
      response := response["tokenType" := "Bearer"];
      response := response["token" := generateToken(user.value)];
      r := Success(response);
    }

    /** Confirms the token at clock time `now` and enables the user copy it holds. */
    method ConfirmUserAccount(token: string, now: int) returns (r: Result<string>)
      requires repository.Valid() && tokenService.Valid()
      modifies repository
      ensures repository.Valid()
      ensures tokenService.ConfirmToken(token, now).Failure? ==>
                r == Failure(tokenService.ConfirmToken(token, now).error)
                && repository.users == old(repository.users)
      ensures tokenService.ConfirmToken(token, now).Success? ==>
                var u := tokenService.ConfirmToken(token, now).value.user;
                r == Success(ACCOUNT_VERIFIED)
                && repository.users == old(repository.users)[u.id := u.(enabled := true)]
    {
      var confirmed := tokenService.ConfirmToken(token, now);
      if confirmed.Failure? {
        return Failure(confirmed.error);
      }
      var _ := EnableUser(confirmed.value.user);
      r := Success(ACCOUNT_VERIFIED);
    }

    /** Mails a reset link for a new token `uuid` to the user with that email. The token is stored
      * before the mail goes out and stays if mailing fails (`mailSent` false). `target` is the user
      * the lookup found. */
    method SendResetPasswordEmail(email: string, uuid: string, now: int, mailSent: EmailDto -> bool)
      returns (r: Result<string>, ghost target: Option<User>)
      requires repository.Valid() && tokenService.Valid()
      requires uuid !in tokenService.tokens
      modifies tokenService
      ensures tokenService.Valid()
      ensures target.None? <==> !repository.ExistsByEmail(email)
      ensures target.None? ==>
                r == Failure(IllegalArgument(NO_USER_WITH_EMAIL))
                && tokenService.tokens == old(tokenService.tokens)
      ensures target.Some? ==>
                repository.Stored(target.value) && target.value.email == email
                && tokenService.tokens == old(tokenService.tokens)[uuid := NewConfirmationToken(uuid, target.value, now)]
                && r == (if mailSent(ResetPasswordEmail(email, uuid)) then Success(RESET_MAIL_SENT)
                         else Failure(MailFailure))
    {
      var user := repository.FindByEmail(email);
      target := user;
      if user.None? {
        return Failure(IllegalArgument(NO_USER_WITH_EMAIL)), target;
      }
      var confirmationToken := tokenService.CreateToken(user.value, uuid, now);
      var emailDto := ResetPasswordEmail(email, confirmationToken.token);
      if !mailSent(emailDto) {
        return Failure(MailFailure), target;
      }
      r := Success(RESET_MAIL_SENT);
    }
  }
}
