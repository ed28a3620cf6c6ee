/** A confirmation token: a random string bound to a user, valid for one day. */
module ConfirmationTokens {
  import opened Domain

  /** The validity window, in minutes. */
  const EXPIRATION: int := 60 * 24

  const MILLIS_PER_MINUTE: int := 60 * 1000

  /** `user` is an embedded copy of the user document taken when the token is made. */
  datatype ConfirmationToken = ConfirmationToken(token: string, expirationDate: int, user: User)

  /** The token the constructor builds at clock time `now`: it expires one day later. */
  function NewConfirmationToken(token: string, user: User, now: int): (t: ConfirmationToken)
    ensures t.token == token && t.user == user
    ensures t.expirationDate - now == 24 * 60 * 60 * 1000
    ensures t.expirationDate > now
  {
    ConfirmationToken(token, now + EXPIRATION * MILLIS_PER_MINUTE, user)
  }

  /** The expiry test of the services: no time left at `now`, so a token is already expired at the
    * very instant its expiration date is reached. */
  function IsExpired(t: ConfirmationToken, now: int): (expired: bool)
    ensures expired <==> t.expirationDate <= now
  {
    t.expirationDate - now <= 0
  }

  /** A token made at `created` passes the expiry test exactly before `created` plus 1440 minutes. */
  lemma ValidityWindow(token: string, user: User, created: int, now: int)
    ensures !IsExpired(NewConfirmationToken(token, user, created), now) <==> now < created + 1440 * 60000
    ensures IsExpired(NewConfirmationToken(token, user, created), created + 1440 * 60000)
  {
  }
}
