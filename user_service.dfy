/** UserService: account lookup, password change, deletion and confirmation. */
module UserServices {
  import opened Wrappers
  import opened Domain
  import opened ConfirmationTokens
  import opened UserStore
  import opened TokenService

  const NO_USER := "No user with that email or username exists!"
  const WRONG_PASSWORD := "Wrong password!"
  const NEW_PASSWORD_MISMATCH := "The Password confirmation must match New password"
  const PASSWORD_CHANGED := "Password successfully changed"
  const ACCOUNT_DELETED := "Account successfully deleted"
  const ACCOUNT_VERIFIED := "Account successfully verified."

  class UserService {
    const repository: UserRepository
    const tokenService: ConfirmationTokenService

    constructor (repository: UserRepository, tokenService: ConfirmationTokenService)
      ensures this.repository == repository && this.tokenService == tokenService
    {
      this.repository := repository;
      this.tokenService := tokenService;
    }

    /** The stored user with that username, or UsernameNotFoundException. */
    method FindUserByUsername(username: string) returns (r: Result<User>)
      requires repository.Valid()
      ensures r.Failure? <==> !repository.ExistsByUsername(username)
      ensures r.Failure? ==> r.error == UsernameNotFound(NO_USER)
      ensures r.Success? ==> repository.Stored(r.value) && r.value.username == username
    {
      var found := repository.FindByUsername(username);
      if found.None? {
        r := Failure(UsernameNotFound(NO_USER));
      } else {
        r := Success(found.value);
      }
    }

    /** Sets `enabled` on `user` and saves it under its id. */
    method EnableUser(user: User) returns (saved: User)
      requires repository.Valid()
      modifies repository
      ensures repository.Valid()
      ensures saved == user.(enabled := true)
      ensures repository.users == old(repository.users)[user.id := saved]
    {
      saved := user.(enabled := true);
      repository.users := repository.users[user.id := saved];
    }

    /** Changes the password of the user named `username`. `matches` and `encode` stand for the
      * password encoder. The checks run in order: unknown user, wrong old password, new password
      * not confirmed; a failed check changes nothing. `target` is the user the lookup found. */
    method UpdateUserPassword(username: string, passwords: PasswordDto,
                              matches: (string, string) -> bool, encode: string -> string)
      returns (r: Result<string>, ghost target: Option<User>)
      requires repository.Valid()
      modifies repository
      ensures repository.Valid()
      ensures target.None? <==> !old(repository.ExistsByUsername(username))
      ensures target.None? ==>
                r == Failure(UsernameNotFound(NO_USER)) && repository.users == old(repository.users)
      ensures target.Some? ==> old(repository.Stored(target.value)) && target.value.username == username
      ensures target.Some? && !matches(passwords.oldPassword, target.value.password) ==>
                r == Failure(IllegalArgument(WRONG_PASSWORD)) && repository.users == old(repository.users)
      ensures target.Some? && matches(passwords.oldPassword, target.value.password)
              && passwords.newPassword != passwords.passwordConfirmation ==>
                r == Failure(IllegalArgument(NEW_PASSWORD_MISMATCH))
                && repository.users == old(repository.users)
      ensures target.Some? && matches(passwords.oldPassword, target.value.password)
              && passwords.newPassword == passwords.passwordConfirmation ==>
                r == Success(PASSWORD_CHANGED)
                && repository.users == old(repository.users)[target.value.id :=
                     target.value.(password := encode(passwords.newPassword))]
    {
      var found := repository.FindByUsername(username);
      target := found;
      if found.None? {
        return Failure(UsernameNotFound(NO_USER)), target;
      }
      var userUpdate := found.value;
      if !matches(passwords.oldPassword, userUpdate.password) {
        return Failure(IllegalArgument(WRONG_PASSWORD)), target;
      }
      if passwords.newPassword != passwords.passwordConfirmation {
        return Failure(IllegalArgument(NEW_PASSWORD_MISMATCH)), target;
      }
      userUpdate := userUpdate.(password := encode(passwords.newPassword));
      repository.users := repository.users[userUpdate.id := userUpdate];
      r := Success(PASSWORD_CHANGED);
    }

    /** Deletes the user named `username`, which the lookup found as `target`. */
    method DeleteUser(username: string) returns (r: Result<string>, ghost target: Option<User>)
      requires repository.Valid()
      modifies repository
      ensures repository.Valid()
      ensures target.None? <==> !old(repository.ExistsByUsername(username))
      ensures target.None? ==>
                r == Failure(UsernameNotFound(NO_USER)) && repository.users == old(repository.users)
      ensures target.Some? ==>
                old(repository.Stored(target.value)) && target.value.username == username
                && r == Success(ACCOUNT_DELETED)
                && repository.users == old(repository.users) - {target.value.id}
    {
      var found := repository.FindByUsername(username);
      target := found;
      if found.None? {
        return Failure(UsernameNotFound(NO_USER)), target;
      }
      repository.users := repository.users - {found.value.id};
      r := Success(ACCOUNT_DELETED);
    }

    /** Enables the user copy held by the token, if the token exists and has time left at `now`. */
    method ConfirmUserAccount(token: string, now: int) returns (r: Result<string>)
      requires repository.Valid() && tokenService.Valid()
      modifies repository
      ensures repository.Valid()
      ensures token !in tokenService.tokens ==>
                r == Failure(IllegalArgument(INVALID_TOKEN)) && repository.users == old(repository.users)
      ensures token in tokenService.tokens && IsExpired(tokenService.tokens[token], now) ==>
                r == Failure(IllegalArgument(TOKEN_EXPIRED)) && repository.users == old(repository.users)
      ensures token in tokenService.tokens && !IsExpired(tokenService.tokens[token], now) ==>
                var u := tokenService.tokens[token].user;
                r == Success(ACCOUNT_VERIFIED)
                && repository.users == old(repository.users)[u.id := u.(enabled := true)]
    {
      var confirmationToken := tokenService.GetConfirmationToken(token);
      if confirmationToken.None? {
        return Failure(IllegalArgument(INVALID_TOKEN));
      }
      if confirmationToken.value.expirationDate - now <= 0 {
        return Failure(IllegalArgument(TOKEN_EXPIRED));
      }
      var _ := EnableUser(confirmationToken.value.user);
      r := Success(ACCOUNT_VERIFIED);
    }
  }
}
