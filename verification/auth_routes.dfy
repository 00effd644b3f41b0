/** The two authentication steps: `POST /api/auth/login` (username and password)
    and `POST /api/auth/mfa` (user id and one-time code). Both are stateless:
    each step looks the user up afresh; nothing is remembered between them. */
module AuthRoutes {
  import opened Wrappers
  import opened JsSemantics
  import opened CredentialStore
  import opened Tokens
  import opened Http

  /** The password check `bcrypt.compareSync(password, hash)`, for string passwords. */
  type PasswordCheck = (string, Hash) -> bool

  /** `POST /api/auth/login` with body fields `username` and `password`, answered at
      clock time `now`. A non-string password makes bcrypt throw, which Express turns
      into a 500 error page. */
  function Login(users: seq<User>, pwOk: PasswordCheck, ts: TokenService, key: Key, now: int,
                 username: Value, password: Value): (r: Response)
    ensures r.status == 200 <==> r.body.MfaChallenge? || r.body.AccessToken?
    ensures r.status == 401 ==> r.body == Message(UserNotFound) || r.body == Message(WrongPassword)
    ensures r.status in {200, 401, 500}
  {
    match FindByUsername(users, username)
    case None => Response(401, Message(UserNotFound))
    case Some(user) =>
      if !password.Str? then Response(500, InternalError)
      else if !pwOk(password.s, user.passwordHash) then Response(401, Message(WrongPassword))
      else if user.mfaEnabled then Response(200, MfaChallenge(user.id))
      else Response(200, AccessToken(GenerateToken(ts, key, now, user)))
  }

  /** `POST /api/auth/mfa` with body fields `temp_user_id` and `otp`, answered at
      clock time `now`. The password is not checked again, nor is `mfaEnabled`. */
  function Mfa(users: seq<User>, ts: TokenService, key: Key, now: int,
               tempUserId: Value, otp: Value): (r: Response)
    ensures r.status == 200 <==> r.body.AccessToken?
    ensures r.status == 401 ==> r.body == Message(UserNotFound) || r.body == Message(OtpIncorrect)
    ensures r.status in {200, 401}
  {
    match FindById(users, tempUserId)
    case None => Response(401, Message(UserNotFound))
    case Some(user) =>
      if otp == Str(user.mfaSecret) then Response(200, AccessToken(GenerateToken(ts, key, now, user)))
      else Response(401, Message(OtpIncorrect))
  }

  // ---------------------------------------------------------------- login

  /** A username that no user in the table has is answered 401 "user not found". */
  lemma LoginUnknownUser(users: seq<User>, pwOk: PasswordCheck, ts: TokenService, key: Key, now: int,
                         username: Value, password: Value)
    requires forall i :: 0 <= i < |users| ==> username != Str(users[i].username)
    ensures Login(users, pwOk, ts, key, now, username, password) == Response(401, Message(UserNotFound))
  {
  }

  /** When the first user with that username rejects the password, the answer is 401
      "incorrect password": never a challenge, never a token. */
  lemma LoginWrongPassword(users: seq<User>, pwOk: PasswordCheck, ts: TokenService, key: Key, now: int,
                           i: nat, password: string)
    requires i < |users| && forall j :: 0 <= j < i ==> users[j].username != users[i].username
    requires !pwOk(password, users[i].passwordHash)
    ensures Login(users, pwOk, ts, key, now, Str(users[i].username), Str(password))
            == Response(401, Message(WrongPassword))
  {
  }

  /** When the user is found but the password field is not a string (absent, a number,
      an object ...), bcrypt throws and the answer is Express's 500 error page. */
  lemma LoginPasswordNotString(users: seq<User>, pwOk: PasswordCheck, ts: TokenService, key: Key, now: int,
                               username: Value, password: Value)
    requires exists i :: 0 <= i < |users| && username == Str(users[i].username)
    requires !password.Str?
    ensures Login(users, pwOk, ts, key, now, username, password) == Response(500, InternalError)
  {
  }

  /** A correct password for an MFA user yields the challenge carrying that user's id
      (the FIRST user with that username), and no access token. */
  lemma LoginMfaRequired(users: seq<User>, pwOk: PasswordCheck, ts: TokenService, key: Key, now: int,
                         i: nat, password: string)
    requires i < |users| && forall j :: 0 <= j < i ==> users[j].username != users[i].username
    requires pwOk(password, users[i].passwordHash) && users[i].mfaEnabled
    ensures Login(users, pwOk, ts, key, now, Str(users[i].username), Str(password))
            == Response(200, MfaChallenge(users[i].id))
  {
  }

  /** A correct password for a user without MFA yields a token that, for the next hour,
      decodes to exactly the id, username and role of the FIRST user with that username. */
  lemma LoginIssuesToken(users: seq<User>, pwOk: PasswordCheck, ts: TokenService, key: Key, now: int,
                         i: nat, password: string, later: int)
    requires Sound(ts)
    requires i < |users| && forall j :: 0 <= j < i ==> users[j].username != users[i].username
    requires pwOk(password, users[i].passwordHash) && !users[i].mfaEnabled
    requires now <= later < now + TokenLifetime
    ensures var r := Login(users, pwOk, ts, key, now, Str(users[i].username), Str(password));
      && r.status == 200 && r.body.AccessToken?
      && ts.verify(r.body.accessToken, key, later) ==
           Some(Claims(users[i].id, users[i].username, users[i].role, now, now + TokenLifetime))
  {
  }

  /** Login hands out an access token exactly when the user is found, the password is
      a string the check accepts, and the user has no MFA; the token is then the one
      generated for that user. */
  lemma LoginIssuance(users: seq<User>, pwOk: PasswordCheck, ts: TokenService, key: Key, now: int,
                      username: Value, password: Value)
    ensures var r := Login(users, pwOk, ts, key, now, username, password);
            var found := FindByUsername(users, username);
      && (r.body.AccessToken? <==>
            found.Some? && password.Str? && pwOk(password.s, found.value.passwordHash) &&
            !found.value.mfaEnabled)
      && (r.body.AccessToken? ==> r.body.accessToken == GenerateToken(ts, key, now, found.value))
  {
  }

  /** On the seed table (every user has MFA) login never hands out a token: a correct
      password for 'admin' or 'doctor1' is always answered with the challenge. */
  lemma SeedLoginNeverIssues(adminHash: Hash, doctorHash: Hash, pwOk: PasswordCheck, ts: TokenService,
                             key: Key, now: int, username: Value, password: Value)
    ensures var r := Login(SeedUsers(adminHash, doctorHash), pwOk, ts, key, now, username, password);
      && !r.body.AccessToken?
      && (r.status == 200 <==>
            (username == Str("admin") && password.Str? && pwOk(password.s, adminHash)) ||
            (username == Str("doctor1") && password.Str? && pwOk(password.s, doctorHash)))
  {
  }

  /** Login with 'admin' / 'admin123' (which the stored hash accepts) asks for the
      second factor of user 1. */
  lemma AdminLoginScenario(adminHash: Hash, doctorHash: Hash, pwOk: PasswordCheck, ts: TokenService,
                           key: Key, now: int)
    requires pwOk("admin123", adminHash)
    ensures Login(SeedUsers(adminHash, doctorHash), pwOk, ts, key, now, Str("admin"), Str("admin123"))
            == Response(200, MfaChallenge(1))
  {
  }

  // ---------------------------------------------------------------- MFA

  /** An id that no user in the table has (compared with `===`, so the string "1" is
      not the id 1) is answered 401 "user not found". */
  lemma MfaUnknownUser(users: seq<User>, ts: TokenService, key: Key, now: int, tempUserId: Value, otp: Value)
    requires forall i :: 0 <= i < |users| ==> tempUserId != Num(users[i].id)
    ensures Mfa(users, ts, key, now, tempUserId, otp) == Response(401, Message(UserNotFound))
  {
  }

  /** For the first user with a given id, the code equal to that user's secret yields a
      token decoding, for the next hour, to that user's claims (whatever the password or
      `mfaEnabled`); every other value is answered 401 "OTP incorrect". */
  lemma MfaOutcome(users: seq<User>, ts: TokenService, key: Key, now: int, i: nat, otp: Value, later: int)
    requires Sound(ts)
    requires i < |users| && forall j :: 0 <= j < i ==> users[j].id != users[i].id
    requires now <= later < now + TokenLifetime
    ensures var r := Mfa(users, ts, key, now, Num(users[i].id), otp);
      && (otp == Str(users[i].mfaSecret) ==>
            r.status == 200 && r.body.AccessToken? &&
            ts.verify(r.body.accessToken, key, later) ==
              Some(Claims(users[i].id, users[i].username, users[i].role, now, now + TokenLifetime)))
      && (otp != Str(users[i].mfaSecret) ==> r == Response(401, Message(OtpIncorrect)))
  {
  }

  /** The MFA step hands out an access token exactly when the id is found and the code
      is strictly equal to that user's secret; the token is then the one generated for
      that user. */
  lemma MfaIssuance(users: seq<User>, ts: TokenService, key: Key, now: int, tempUserId: Value, otp: Value)
    ensures var r := Mfa(users, ts, key, now, tempUserId, otp);
            var found := FindById(users, tempUserId);
      && (r.body.AccessToken? <==> found.Some? && otp == Str(found.value.mfaSecret))
      && (r.body.AccessToken? ==> r.body.accessToken == GenerateToken(ts, key, now, found.value))
  {
  }

  /** On the seed table the MFA step hands out a token for exactly two requests:
      id 1 with code "123456" and id 2 with code "654321" (a number or a string id,
      or a numeric code, never matches). */
  lemma SeedMfaIssuance(adminHash: Hash, doctorHash: Hash, ts: TokenService, key: Key, now: int,
                        tempUserId: Value, otp: Value)
    ensures var users := SeedUsers(adminHash, doctorHash);
            var r := Mfa(users, ts, key, now, tempUserId, otp);
      && (r.body.AccessToken? <==>
            (tempUserId == Num(1) && otp == Str("123456")) ||
            (tempUserId == Num(2) && otp == Str("654321")))
      && (tempUserId == Num(1) && otp == Str("123456") ==>
            r.body == AccessToken(GenerateToken(ts, key, now, users[0])))
  {
  }

  /** The MFA step does not depend on the password: for the first user with a given id,
      whatever its password hash and whether or not MFA is enabled for it, that id and its
      secret yield the token generated for that user. */
  lemma MfaIgnoresPasswordAndFlag(users: seq<User>, ts: TokenService, key: Key, now: int, i: nat)
    requires i < |users| && forall j :: 0 <= j < i ==> users[j].id != users[i].id
    ensures Mfa(users, ts, key, now, Num(users[i].id), Str(users[i].mfaSecret))
            == Response(200, AccessToken(GenerateToken(ts, key, now, users[i])))
  {
  }

  /** MFA with id 1 and code "123456" yields a token; with code "000000" the answer is
      401 "OTP incorrect". */
  lemma AdminMfaScenarios(adminHash: Hash, doctorHash: Hash, ts: TokenService, key: Key, now: int)
    ensures Mfa(SeedUsers(adminHash, doctorHash), ts, key, now, Num(1), Str("123456")).status == 200
    ensures Mfa(SeedUsers(adminHash, doctorHash), ts, key, now, Num(1), Str("000000"))
            == Response(401, Message(OtpIncorrect))
  {
  }
}
