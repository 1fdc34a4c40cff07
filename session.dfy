/**
 * `SessionService`: login sessions and one-shot signup codes kept in Redis
 * under two key prefixes. Redis is a map from keys to stored values; the
 * random tokens (`secrets.token_urlsafe`) are parameters, and time-to-live
 * and expiry are not modelled.
 */
module Sessions {
  import opened Wrappers

  const SessionPrefix: string := "session:"
  const AuthCodePrefix: string := "auth_code:"

  /** What is kept for a signup that still needs a nickname. */
  datatype AuthCodeData = AuthCodeData(provider: string, socialId: string, email: string, nickname: string)

  /**
   * A Redis value: the decimal user id of a session, or the JSON of an auth
   * code's data (their text encodings are taken to read back exactly).
   */
  datatype Stored = UserIdText(userId: int) | AuthCodeJson(data: AuthCodeData)

  function SessionKey(token: string): string { SessionPrefix + token }

  function AuthCodeKey(code: string): string { AuthCodePrefix + code }

  /** Session keys hold user ids and auth-code keys hold auth-code data. */
  predicate WellFormed(redis: map<string, Stored>) {
    forall k :: k in redis ==>
      (SessionPrefix <= k ==> redis[k].UserIdText?) && (AuthCodePrefix <= k ==> redis[k].AuthCodeJson?)
  }

  /** The two prefixes differ in their first character, so no key is in both namespaces. */
  lemma KeysDisjoint(token: string, code: string)
    ensures !(AuthCodePrefix <= SessionKey(token))
    ensures !(SessionPrefix <= AuthCodeKey(code))
    ensures SessionKey(token) != AuthCodeKey(code)
  {
    assert SessionKey(token)[0] == 's';
    assert AuthCodeKey(code)[0] == 'a';
  }

  lemma SessionKeyInjective(a: string, b: string)
    requires SessionKey(a) == SessionKey(b)
    ensures a == b
  {
    assert a == SessionKey(a)[|SessionPrefix|..];
  }

  lemma AuthCodeKeyInjective(a: string, b: string)
    requires AuthCodeKey(a) == AuthCodeKey(b)
    ensures a == b
  {
    assert a == AuthCodeKey(a)[|AuthCodePrefix|..];
  }

  /** `get_user_id` read off a Redis state. */
  function SessionUser(redis: map<string, Stored>, token: string): Option<int>
    requires WellFormed(redis)
  {
    var k := SessionKey(token);
    if k in redis then Some(redis[k].userId) else None
  }

  /** The data stored under an auth code in a Redis state. */
  function AuthCodeOf(redis: map<string, Stored>, code: string): Option<AuthCodeData>
    requires WellFormed(redis)
  {
    var k := AuthCodeKey(code);
    if k in redis then Some(redis[k].data) else None
  }

  function PutSession(redis: map<string, Stored>, token: string, userId: int): map<string, Stored> {
    redis[SessionKey(token) := UserIdText(userId)]
  }

  function PutAuthCode(redis: map<string, Stored>, code: string, data: AuthCodeData): map<string, Stored> {
    redis[AuthCodeKey(code) := AuthCodeJson(data)]
  }

  /** `get_auth_code_data`'s effect: the code's key is deleted if it was there. */
  function Consume(redis: map<string, Stored>, code: string): map<string, Stored> {
    if AuthCodeKey(code) in redis then redis - {AuthCodeKey(code)} else redis
  }

  // ---------------------------------------------------------------------------
  // What the store promises

  /**
   * After a session is stored for a token, the token resolves to that user;
   * every other token, and every auth code, resolves as before.
   */
  lemma SessionRoundTrip(redis: map<string, Stored>, token: string, userId: int)
    requires WellFormed(redis)
    ensures WellFormed(PutSession(redis, token, userId))
    ensures SessionUser(PutSession(redis, token, userId), token) == Some(userId)
    ensures forall t :: t != token ==> SessionUser(PutSession(redis, token, userId), t) == SessionUser(redis, t)
    ensures forall c :: AuthCodeOf(PutSession(redis, token, userId), c) == AuthCodeOf(redis, c)
  {
    var r := PutSession(redis, token, userId);
    KeysDisjoint(token, "");
    forall t | t != token
      ensures SessionUser(r, t) == SessionUser(redis, t)
    {
      if SessionKey(t) == SessionKey(token) {
        SessionKeyInjective(t, token);
      }
    }
    forall c
      ensures AuthCodeOf(r, c) == AuthCodeOf(redis, c)
    {
      KeysDisjoint(token, c);
    }
  }

  /** After an auth code is stored, it yields exactly that data; sessions and other codes are untouched. */
  lemma AuthCodeRoundTrip(redis: map<string, Stored>, code: string, data: AuthCodeData)
    requires WellFormed(redis)
    ensures WellFormed(PutAuthCode(redis, code, data))
    ensures AuthCodeOf(PutAuthCode(redis, code, data), code) == Some(data)
    ensures forall c :: c != code ==> AuthCodeOf(PutAuthCode(redis, code, data), c) == AuthCodeOf(redis, c)
    ensures forall t :: SessionUser(PutAuthCode(redis, code, data), t) == SessionUser(redis, t)
  {
    var r := PutAuthCode(redis, code, data);
    KeysDisjoint("", code);
    forall c | c != code
      ensures AuthCodeOf(r, c) == AuthCodeOf(redis, c)
    {
      if AuthCodeKey(c) == AuthCodeKey(code) {
        AuthCodeKeyInjective(c, code);
      }
    }
    forall t
      ensures SessionUser(r, t) == SessionUser(redis, t)
    {
      KeysDisjoint(t, code);
    }
  }

  /** Auth codes are one-shot: once read, the same code yields nothing; sessions are untouched. */
  lemma AuthCodeOneShot(redis: map<string, Stored>, code: string)
    requires WellFormed(redis)
    ensures WellFormed(Consume(redis, code))
    ensures AuthCodeOf(Consume(redis, code), code).None?
    ensures forall t :: SessionUser(Consume(redis, code), t) == SessionUser(redis, t)
  {
    forall t
      ensures SessionUser(Consume(redis, code), t) == SessionUser(redis, t)
    {
      KeysDisjoint(t, code);
    }
  }

  /** Deleting a session: the token no longer resolves, and auth codes are untouched. */
  lemma DeleteSessionForgets(redis: map<string, Stored>, token: string)
    requires WellFormed(redis)
    ensures WellFormed(redis - {SessionKey(token)})
    ensures SessionUser(redis - {SessionKey(token)}, token).None?
    ensures forall c :: AuthCodeOf(redis - {SessionKey(token)}, c) == AuthCodeOf(redis, c)
  {
    forall c
      ensures AuthCodeOf(redis - {SessionKey(token)}, c) == AuthCodeOf(redis, c)
    {
      KeysDisjoint(token, c);
    }
  }

  // ---------------------------------------------------------------------------
  // The service

  class SessionService {
    var redis: map<string, Stored>

    ghost predicate Valid()
      reads this
    {
      WellFormed(redis)
    }

    constructor ()
      ensures Valid() && redis == map[]
    {
      redis := map[];
    }

    /** `create_session`: stores the user id under the drawn token and returns the token. */
    method CreateSession(userId: int, drawn: string) returns (token: string)
      requires Valid()
      modifies this
      ensures Valid()
      ensures token == drawn && redis == PutSession(old(redis), drawn, userId)
      ensures GetUserId(token) == Some(userId)
    {
      SessionRoundTrip(redis, drawn, userId);
      redis := PutSession(redis, drawn, userId);
      token := drawn;
    }

    /** `get_user_id`: the user of a stored session, or none for an unknown token. */
    function GetUserId(token: string): (r: Option<int>)
      requires Valid()
      reads this
      ensures r.None? <==> SessionKey(token) !in redis
      ensures r.Some? ==> redis[SessionKey(token)] == UserIdText(r.value)
    {
      SessionUser(redis, token)
    }

    /** `delete_session`: true exactly when a session was there; it is gone afterwards. */
    method DeleteSession(token: string) returns (existed: bool)
      requires Valid()
      modifies this
      ensures Valid()
      ensures existed <==> SessionKey(token) in old(redis)
      ensures redis == old(redis) - {SessionKey(token)}
      ensures GetUserId(token).None?
    {
      DeleteSessionForgets(redis, token);
      existed := SessionKey(token) in redis;
      redis := redis - {SessionKey(token)};
    }

    /** `refresh_session`: true exactly when the session exists (its expiry is not modelled). */
    method RefreshSession(token: string) returns (exists_: bool)
      requires Valid()
      ensures exists_ <==> GetUserId(token).Some?
    {
      exists_ := SessionKey(token) in redis;
    }

    /** `create_auth_code`: stores the data under the drawn code and returns the code. */
    method CreateAuthCode(data: AuthCodeData, drawn: string) returns (code: string)
      requires Valid()
      modifies this
      ensures Valid()
      ensures code == drawn && redis == PutAuthCode(old(redis), drawn, data)
      ensures AuthCodeOf(redis, code) == Some(data)
    {
      AuthCodeRoundTrip(redis, drawn, data);
      redis := PutAuthCode(redis, drawn, data);
      code := drawn;
    }

    /** `get_auth_code_data`: the stored data, deleted on the way out; none for an unknown code. */
    method GetAuthCodeData(code: string) returns (r: Option<AuthCodeData>)
      requires Valid()
      modifies this
      ensures Valid()
      ensures r == AuthCodeOf(old(redis), code)
      ensures redis == Consume(old(redis), code)
      ensures AuthCodeOf(redis, code).None?
    {
      AuthCodeOneShot(redis, code);
      var key := AuthCodeKey(code);
      if key !in redis {
        return None;
      }
      var data := redis[key];
      redis := redis - {key};
      r := Some(data.data);
    }
  }
}
