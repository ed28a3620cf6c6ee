/** ConfirmationTokenServiceImpl: creates tokens and checks them against the clock. */
module TokenService {
  import opened Wrappers
  import opened Domain
  import opened ConfirmationTokens

  const INVALID_TOKEN := "Invalid token."
  const TOKEN_EXPIRED := "Token have expired."

  class ConfirmationTokenService {
    /** The token collection, looked up by token string. */
    var tokens: map<string, ConfirmationToken>

    ghost predicate Valid()
      reads this
    {
      forall t :: t in tokens ==> tokens[t].token == t
    }

    constructor ()
      ensures Valid() && tokens == map[]
    {
      tokens := map[];
    }

    /** Stores a new token bound to `user`. `uuid` stands for UUID.randomUUID() and is fresh;
      * `now` is the clock reading of the token's constructor. */
    method CreateToken(user: User, uuid: string, now: int) returns (t: ConfirmationToken)
      requires Valid()
      requires uuid !in tokens
      modifies this
      ensures Valid()
      ensures t == NewConfirmationToken(uuid, user, now)
      ensures tokens == old(tokens)[uuid := t]
    {
      t := NewConfirmationToken(uuid, user, now);
      tokens := tokens[uuid := t];
    }

    /** findByToken: the stored token with that string, or null. */
    function GetConfirmationToken(token: string): (r: Option<ConfirmationToken>)
      reads this
      requires Valid()
      ensures r.Some? <==> token in tokens
      ensures r.Some? ==> r.value == tokens[token] && r.value.token == token
    {
      if token in tokens then Some(tokens[token]) else None
    }

    /** Fails for an unknown token, then for one with no time left at `now`;
      * otherwise returns the stored token. */
    function ConfirmToken(token: string, now: int): (r: Result<ConfirmationToken>)
      reads this
      requires Valid()
      ensures token !in tokens ==> r == Failure(IllegalArgument(INVALID_TOKEN))
      ensures token in tokens && tokens[token].expirationDate <= now ==>
                r == Failure(IllegalArgument(TOKEN_EXPIRED))
      ensures token in tokens && now < tokens[token].expirationDate ==>
                r == Success(tokens[token]) && r.value.token == token
    {
      match GetConfirmationToken(token)
      case None => Failure(IllegalArgument(INVALID_TOKEN))
      case Some(t) =>
        if IsExpired(t, now) then Failure(IllegalArgument(TOKEN_EXPIRED)) else Success(t)
    }
  }

  /** A freshly created token confirms until one day after its creation and not from then on. */
  lemma {:induction false} CreatedTokenConfirms(s: ConfirmationTokenService, user: User, uuid: string,
                                                created: int, now: int)
    requires s.Valid()
    requires uuid in s.tokens && s.tokens[uuid] == NewConfirmationToken(uuid, user, created)
    ensures s.ConfirmToken(uuid, now).Success? <==> now < created + EXPIRATION * MILLIS_PER_MINUTE
    ensures s.ConfirmToken(uuid, now).Success? ==> s.ConfirmToken(uuid, now).value.user == user
  {
    ValidityWindow(uuid, user, created, now);
  }
}
