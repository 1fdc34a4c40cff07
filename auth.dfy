/**
 * `AuthService`: social login that either opens a session for a known user
 * or parks the social profile under a one-shot signup code, signup that
 * redeems the code, logout, and the current-user lookup.
 *
 * The user table is a sequence of rows with database-assigned ids; the
 * random tokens are parameters. Messages are the untranslated message ids.
 */
module Auth {
  import opened Wrappers
  import opened Sequences
  import opened Exceptions
  import opened Sessions

  const InvalidAuthCode: string := "Invalid or expired auth code."
  const NicknameInUse: string := "Nickname already in use."
  const EmailRegistered: string := "Email already registered."
  const InvalidSession: string := "Invalid or expired session."
  const UserNotFound: string := "User not found."

  datatype User = User(
    id: int, email: string, nickname: string, profileImage: Option<string>,
    socialProvider: string, socialId: string)

  /** The profile the social provider reported. */
  datatype SocialUserInfo = SocialUserInfo(provider: string, socialId: string, email: string, nickname: string)

  function UserId(u: User): int { u.id }

  function FindById(users: seq<User>, id: int): Option<User> {
    FirstMatch(users, (u: User) => u.id == id)
  }

  function FindBySocial(users: seq<User>, provider: string, socialId: string): Option<User> {
    FirstMatch(users, (u: User) => u.socialProvider == provider && u.socialId == socialId)
  }

  function FindByNickname(users: seq<User>, nickname: string): Option<User> {
    FirstMatch(users, (u: User) => u.nickname == nickname)
  }

  function FindByEmail(users: seq<User>, email: string): Option<User> {
    FirstMatch(users, (u: User) => u.email == email)
  }

  function SignupData(info: SocialUserInfo): AuthCodeData {
    AuthCodeData(info.provider, info.socialId, info.email, info.nickname)
  }

  /** `if user and user.id`: the id of a known social user, when it has a truthy id. */
  function KnownUserId(users: seq<User>, info: SocialUserInfo): Option<int> {
    var u := FindBySocial(users, info.provider, info.socialId);
    if u.Some? && u.value.id != 0 then Some(u.value.id) else None
  }

  /**
   * What `signup` decides once it has read the code: the stored profile to
   * create the user from, or the error it raises.
   */
  function SignupCheck(users: seq<User>, data: Option<AuthCodeData>, nickname: string): Result<AuthCodeData, AppException> {
    if data.None? then Failure(AuthenticationError(Some(InvalidAuthCode)))
    else if FindByNickname(users, nickname).Some? then Failure(ConflictError(Some(NicknameInUse)))
    else if FindByEmail(users, data.value.email).Some? then Failure(ConflictError(Some(EmailRegistered)))
    else Success(data.value)
  }

  /** Signup goes ahead exactly when the code was valid and neither the nickname nor the email is taken. */
  lemma SignupAccepted(users: seq<User>, data: Option<AuthCodeData>, nickname: string)
    ensures var r := SignupCheck(users, data, nickname);
      (r.Success? <==>
        data.Some?
        && (forall i :: 0 <= i < |users| ==> users[i].nickname != nickname)
        && (forall i :: 0 <= i < |users| ==> users[i].email != data.value.email))
      && (r.Success? ==> r.value == data.value)
  {
  }

  /**
   * An invalid code is an authentication error; a taken nickname is a
   * conflict whatever the email, so it is reported before a taken email.
   */
  lemma SignupErrors(users: seq<User>, data: Option<AuthCodeData>, nickname: string, i: nat)
    ensures data.None? ==>
      SignupCheck(users, data, nickname) == Failure(AuthenticationError(Some(InvalidAuthCode)))
      && SignupCheck(users, data, nickname).error.code == HttpUnauthorized
    ensures data.Some? && i < |users| && users[i].nickname == nickname ==>
      SignupCheck(users, data, nickname) == Failure(ConflictError(Some(NicknameInUse)))
      && SignupCheck(users, data, nickname).error.code == HttpConflict
    ensures (data.Some? && i < |users| && users[i].email == data.value.email
             && forall j :: 0 <= j < |users| ==> users[j].nickname != nickname) ==>
      SignupCheck(users, data, nickname) == Failure(ConflictError(Some(EmailRegistered)))
      && SignupCheck(users, data, nickname).error.code == HttpConflict
  {
  }

  /** A login for a stored social identity goes to that user's id; an unknown identity has none. */
  lemma KnownUserIdSpec(users: seq<User>, info: SocialUserInfo)
    ensures var k := KnownUserId(users, info);
      (k.Some? ==> exists i :: 0 <= i < |users| && users[i].id == k.value && users[i].id != 0
                              && users[i].socialProvider == info.provider && users[i].socialId == info.socialId)
      && ((forall i :: 0 <= i < |users| ==> users[i].socialProvider != info.provider || users[i].socialId != info.socialId)
          ==> k.None?)
  {
    var u := FindBySocial(users, info.provider, info.socialId);
    if u.Some? {
      var i := FirstIndex(users, (u: User) => u.socialProvider == info.provider && u.socialId == info.socialId).value;
      assert users[i] == u.value;
    }
  }

  // ---------------------------------------------------------------------------
  // The stores

  /** No two rows share an email or a nickname: both columns are unique. */
  predicate DistinctContacts(rows: seq<User>) {
    forall i, j :: 0 <= i < j < |rows| ==> rows[i].email != rows[j].email && rows[i].nickname != rows[j].nickname
  }

  /** With unique emails and nicknames, a lookup by either finds the one row that has it. */
  lemma ContactLookupsUnambiguous(users: seq<User>, i: nat)
    requires DistinctContacts(users) && i < |users|
    ensures FindByEmail(users, users[i].email) == Some(users[i])
    ensures FindByNickname(users, users[i].nickname) == Some(users[i])
  {
  }

  /** Whether a stored user already has `u`'s email or nickname, both unique columns. */
  predicate Taken(users: seq<User>, u: User) {
    FindByEmail(users, u.email).Some? || FindByNickname(users, u.nickname).Some?
  }

  /**
   * The user table: rows with unique ids from a growing counter, and no two
   * rows with the same email or the same nickname.
   */
  class UserRepository {
    var rows: seq<User>
    var nextId: int

    ghost predicate Valid()
      reads this
    {
      UniqueBy(rows, UserId) && nextId >= 1 && (forall i :: 0 <= i < |rows| ==> 1 <= rows[i].id < nextId)
      && DistinctContacts(rows)
    }

    constructor ()
      ensures Valid() && rows == [] && nextId == 1
    {
      rows := [];
      nextId := 1;
    }

    /**
     * `create`: the row is stored under the next id, which the returned user
     * carries; an email or nickname already stored breaks a unique
     * constraint, and nothing is stored.
     */
    method Create(u: User) returns (saved: Option<User>)
      requires Valid()
      modifies this
      ensures Valid()
      ensures Taken(old(rows), u) ==> saved.None? && rows == old(rows) && nextId == old(nextId)
      ensures !Taken(old(rows), u) ==>
        saved == Some(u.(id := old(nextId))) && rows == old(rows) + [saved.value] && nextId == old(nextId) + 1
    {
      if Taken(rows, u) {
        return None;
      }
      var row := u.(id := nextId);
      rows := rows + [row];
      nextId := nextId + 1;
      saved := Some(row);
    }
  }

  class AuthService {
    const users: UserRepository
    const sessions: SessionService

    ghost predicate Valid()
      reads this, users, sessions
    {
      users.Valid() && sessions.Valid()
    }

    constructor (users: UserRepository, sessions: SessionService)
      requires users.Valid() && sessions.Valid()
      ensures Valid() && this.users == users && this.sessions == sessions
    {
      this.users := users;
      this.sessions := sessions;
    }

    /**
     * `login_or_prepare_signup`: a known user gets `(false, session token
     * for their id)`; anyone else gets `(true, auth code)` carrying the
     * provider, social id, email and nickname.
     */
    method LoginOrPrepareSignup(info: SocialUserInfo, drawn: string) returns (isNewUser: bool, tokenOrCode: string)
      requires Valid()
      modifies sessions
      ensures Valid() && tokenOrCode == drawn
      ensures var k := KnownUserId(users.rows, info);
        && isNewUser == k.None?
        && (k.Some? ==> sessions.redis == PutSession(old(sessions.redis), drawn, k.value)
                        && sessions.GetUserId(tokenOrCode) == k)
        && (k.None? ==> sessions.redis == PutAuthCode(old(sessions.redis), drawn, SignupData(info))
                        && AuthCodeOf(sessions.redis, tokenOrCode) == Some(SignupData(info)))
    {
      var k := KnownUserId(users.rows, info);
      if k.Some? {
        tokenOrCode := sessions.CreateSession(k.value, drawn);
        return false, tokenOrCode;
      }
      tokenOrCode := sessions.CreateAuthCode(SignupData(info), drawn);
      isNewUser := true;
    }

    /**
     * `signup`: the code is redeemed first, so it is gone whatever follows;
     * on success one user is created from the stored profile and the chosen
     * nickname, and a session for the new id is returned.
     */
    method Signup(code: string, nickname: string, profileImage: Option<string>, drawn: string)
      returns (r: Result<string, AppException>)
      requires Valid()
      modifies users, sessions
      ensures Valid()
      ensures AuthCodeOf(sessions.redis, code).None?
      ensures var data := AuthCodeOf(old(sessions.redis), code);
        var check := SignupCheck(old(users.rows), data, nickname);
        && (check.Failure? ==>
              r == Failure(check.error) && users.rows == old(users.rows) && users.nextId == old(users.nextId)
              && sessions.redis == Consume(old(sessions.redis), code))
        && (check.Success? ==>
              var u := User(old(users.nextId), check.value.email, nickname, profileImage,
                            check.value.provider, check.value.socialId);
              r == Success(drawn) && users.rows == old(users.rows) + [u]
              && sessions.redis == PutSession(Consume(old(sessions.redis), code), drawn, u.id)
              && sessions.GetUserId(drawn) == Some(u.id))
    {
      var data := sessions.GetAuthCodeData(code);
      if data.None? {
        return Failure(AuthenticationError(Some(InvalidAuthCode)));
      }
      if FindByNickname(users.rows, nickname).Some? {
        return Failure(ConflictError(Some(NicknameInUse)));
      }
      if FindByEmail(users.rows, data.value.email).Some? {
        return Failure(ConflictError(Some(EmailRegistered)));
      }
      var d := data.value;
      var saved := users.Create(User(0, d.email, nickname, profileImage, d.provider, d.socialId));
      ghost var consumed := sessions.redis;
      AuthCodeRoundTripAfterSession(consumed, drawn, saved.value.id, code);
      var token := sessions.CreateSession(saved.value.id, drawn);
      r := Success(token);
    }

    /** `logout`: deletes the session, true exactly when there was one. */
    method Logout(token: string) returns (existed: bool)
      requires Valid()
      modifies sessions
      ensures Valid()
      ensures existed <==> SessionKey(token) in old(sessions.redis)
      ensures sessions.redis == old(sessions.redis) - {SessionKey(token)}
    {
      existed := sessions.DeleteSession(token);
    }

    /**
     * `get_current_user`: the user the session points to; an unknown
     * session, or a session whose user is gone, is an authentication error.
     */
    function GetCurrentUser(token: string): (r: Result<User, AppException>)
      requires Valid()
      reads this, users, sessions
      ensures r.Success? <==> sessions.GetUserId(token).Some? && FindById(users.rows, sessions.GetUserId(token).value).Some?
      ensures r.Success? ==> r.value in users.rows && r.value.id == sessions.GetUserId(token).value
      ensures r.Failure? ==> r.error.code == HttpUnauthorized
      ensures sessions.GetUserId(token).None? ==> r == Failure(AuthenticationError(Some(InvalidSession)))
    {
      var userId := sessions.GetUserId(token);
      if userId.None? then Failure(AuthenticationError(Some(InvalidSession)))
      else
        var u := FindById(users.rows, userId.value);
        if u.None? then Failure(AuthenticationError(Some(UserNotFound)))
        else Success(u.value)
    }
  }

  /** A consumed code stays consumed once a session is stored next to it. */
  lemma AuthCodeRoundTripAfterSession(redis: map<string, Stored>, token: string, userId: int, code: string)
    requires WellFormed(redis) && AuthCodeOf(redis, code).None?
    ensures WellFormed(PutSession(redis, token, userId)) && AuthCodeOf(PutSession(redis, token, userId), code).None?
  {
    SessionRoundTrip(redis, token, userId);
  }
}
