/** The token gate `verifyToken` and the protected route `GET /api/patients` behind it. */
module ProtectedRoutes {
  import opened Wrappers
  import opened JsSemantics
  import opened CredentialStore
  import opened Tokens
  import opened Http
  import AuthRoutes

  /** The scheme text `verifyToken` removes from the header. */
  const BearerScheme: string := "Bearer "

  /** What the gate decides for one request. */
  datatype GateDecision = Missing | Invalid | Forward(decoded: Claims)

  /** `verifyToken`'s decision for the `authorization` header at clock time `now`:
      a falsy header is missing; otherwise the header with its first "Bearer "
      removed (wherever it stands) is verified under `key`. */
  function Gate(ts: TokenService, key: Key, now: int, authorization: Option<string>): (d: GateDecision)
    ensures d.Missing? <==> !Truthy(authorization)
    ensures d.Forward? ==> ts.verify(CutFirst(authorization.value, BearerScheme), key, now) == Some(d.decoded)
    ensures d.Invalid? ==> ts.verify(CutFirst(authorization.value, BearerScheme), key, now).None?
  {
    if !Truthy(authorization) then Missing
    else match ts.verify(CutFirst(authorization.value, BearerScheme), key, now)
      case None => Invalid
      case Some(decoded) => Forward(decoded)
  }

  /** The fixed list the patients handler returns. */
  const StubPatients: seq<Patient> := [Patient(1, "Patient A"), Patient(2, "Patient B")]

  /** One request to a protected route and what has been done with it so far:
      the `authorization` header, `req.user`, how many times `next()` was called,
      and the responses sent. */
  class Exchange {
    const authorization: Option<string>
    var user: Option<Claims>
    var nextCalls: nat
    var sent: seq<Response>

    constructor (authorization: Option<string>)
      ensures this.authorization == authorization
      ensures user == None && nextCalls == 0 && sent == []
    {
      this.authorization := authorization;
      user := None;
      nextCalls := 0;
      sent := [];
    }

    /** `verifyToken(req, res, next)`: answers 403 or 401 without calling `next`, or
        sets `req.user` to the decoded claims and calls `next` once. */
    method VerifyToken(ts: TokenService, key: Key, now: int)
      modifies this
      ensures match Gate(ts, key, now, authorization)
        case Missing =>
          sent == old(sent) + [Response(403, Message(TokenMissing))] &&
          user == old(user) && nextCalls == old(nextCalls)
        case Invalid =>
          sent == old(sent) + [Response(401, Message(TokenInvalid))] &&
          user == old(user) && nextCalls == old(nextCalls)
        case Forward(decoded) =>
          sent == old(sent) && user == Some(decoded) && nextCalls == old(nextCalls) + 1
    {
      if authorization.None? || authorization.value == [] {
        sent := sent + [Response(403, Message(TokenMissing))];
        return;
      }
      var token := CutFirst(authorization.value, BearerScheme);
      var decoded := ts.verify(token, key, now);
      if decoded.None? {
        sent := sent + [Response(401, Message(TokenInvalid))];
        return;
      }
      user := decoded;
      nextCalls := nextCalls + 1;
    }

    /** The `/api/patients` handler: `{user: req.user, patients}` with status 200. */
    method ListPatients()
      modifies this
      ensures sent == old(sent) + [Response(200, PatientList(user, StubPatients))]
      ensures user == old(user) && nextCalls == old(nextCalls)
    {
      sent := sent + [Response(200, PatientList(user, StubPatients))];
    }

    /** `GET /api/patients` on a fresh request: the gate, then the handler only if the
        gate called `next`. Exactly one response is sent; the handler runs (once) only
        when the gate verified the token in this same request. */
    method GetPatients(ts: TokenService, key: Key, now: int)
      requires user == None && nextCalls == 0 && sent == []
      modifies this
      ensures sent == [PatientsResponse(ts, key, now, authorization)]
      ensures match Gate(ts, key, now, authorization)
        case Forward(decoded) => nextCalls == 1 && user == Some(decoded)
        case _ => nextCalls == 0 && user == None
    {
      VerifyToken(ts, key, now);
      if nextCalls == 1 {
        ListPatients();
      }
    }
  }

  /** The response `GET /api/patients` sends for a given header: 403 when the header is
      missing, 401 when the token does not verify, and otherwise 200 with the decoded
      claims, unchanged, beside the fixed patient list. */
  function PatientsResponse(ts: TokenService, key: Key, now: int, authorization: Option<string>): (r: Response)
    ensures r.status == 403 <==> !Truthy(authorization)
    ensures r.status == 200 <==> Gate(ts, key, now, authorization).Forward?
    ensures r.status == 200 ==>
              r.body == PatientList(Some(Gate(ts, key, now, authorization).decoded), StubPatients)
    ensures r.status in {200, 401, 403}
  {
    match Gate(ts, key, now, authorization)
    case Missing => Response(403, Message(TokenMissing))
    case Invalid => Response(401, Message(TokenInvalid))
    case Forward(decoded) => Response(200, PatientList(Some(decoded), StubPatients))
  }

  /** A request without an Authorization header, or with an empty one, is answered 403
      whatever the token service; the header "Bearer " alone is not missing but invalid. */
  lemma GateMissingHeader(ts: TokenService, key: Key, now: int)
    requires Sound(ts)
    ensures Gate(ts, key, now, None) == Missing
    ensures Gate(ts, key, now, Some("")) == Missing
    ensures Gate(ts, key, now, Some(BearerScheme)) == Invalid
  {
  }

  /** The gate forwards only a header whose stripped text is a signature, under the
      server key, of the very claims forwarded, and only before their expiry. */
  lemma GateForwardsOnlySigned(ts: TokenService, key: Key, now: int, authorization: Option<string>)
    requires Sound(ts)
    ensures match Gate(ts, key, now, authorization)
      case Forward(c) =>
        authorization.Some? &&
        CutFirst(authorization.value, BearerScheme) == ts.sign(c, key) && now < c.exp
      case _ => true
  {
  }

  /** "Bearer <token>" with a token signed under the server key is forwarded with exactly
      the signed claims before their expiry, and rejected as invalid from the expiry on. */
  lemma GateAdmitsBearer(ts: TokenService, key: Key, now: int, c: Claims)
    requires Sound(ts)
    ensures Gate(ts, key, now, Some(BearerScheme + ts.sign(c, key))) ==
            if now < c.exp then Forward(c) else Invalid
  {
    StripPrefix(BearerScheme, ts.sign(c, key));
  }

  /** The scheme is removed wherever it first occurs, not only as a prefix: what is
      verified is the header with its first "Bearer " cut out, the text before it kept. */
  lemma GateStripsFirstScheme(ts: TokenService, key: Key, now: int, before: string, after: string)
    requires forall j :: 0 <= j < |before| ==> !OccursAt(before + BearerScheme + after, BearerScheme, j)
    ensures Gate(ts, key, now, Some(before + BearerScheme + after)) ==
            match ts.verify(before + after, key, now)
            case None => Invalid
            case Some(c) => Forward(c)
  {
    StripInner(before, BearerScheme, after);
  }

  /** A header holding a bare signed token, with no "Bearer " anywhere in it, is verified
      as it stands: the scheme is not required. */
  lemma GateAcceptsBareToken(ts: TokenService, key: Key, now: int, c: Claims)
    requires Sound(ts)
    requires forall j :: 0 <= j <= |ts.sign(c, key)| ==> !OccursAt(ts.sign(c, key), BearerScheme, j)
    ensures Gate(ts, key, now, Some(ts.sign(c, key))) == if now < c.exp then Forward(c) else Invalid
  {
    // a signed token verifies just before its expiry, so it is not the empty string
    assert ts.verify(ts.sign(c, key), key, c.exp - 1) == Some(c);
  }

  // ---------------------------------------------------------------- end to end

  /** A token handed out by the MFA step at time `issuedAt`, presented as
      "Bearer <token>", opens `/api/patients` with exactly that user's claims for one
      hour, and is answered 401 from then on. */
  lemma MfaTokenOpensPatients(users: seq<User>, ts: TokenService, key: Key, issuedAt: int,
                              tempUserId: Value, otp: Value, token: string, now: int)
    requires Sound(ts)
    requires AuthRoutes.Mfa(users, ts, key, issuedAt, tempUserId, otp).body == AccessToken(token)
    ensures FindById(users, tempUserId).Some?
    ensures var u := FindById(users, tempUserId).value;
      PatientsResponse(ts, key, now, Some(BearerScheme + token)) ==
        if now < issuedAt + TokenLifetime
        then Response(200, PatientList(Some(TokenClaims(u, issuedAt)), StubPatients))
        else Response(401, Message(TokenInvalid))
  {
    AuthRoutes.MfaIssuance(users, ts, key, issuedAt, tempUserId, otp);
    var u := FindById(users, tempUserId).value;
    GateAdmitsBearer(ts, key, now, TokenClaims(u, issuedAt));
  }

  /** The same for a token handed out directly by the login step (a user without MFA). */
  lemma LoginTokenOpensPatients(users: seq<User>, pwOk: AuthRoutes.PasswordCheck, ts: TokenService, key: Key,
                                issuedAt: int, username: Value, password: Value, token: string, now: int)
    requires Sound(ts)
    requires AuthRoutes.Login(users, pwOk, ts, key, issuedAt, username, password).body == AccessToken(token)
    ensures FindByUsername(users, username).Some?
    ensures var u := FindByUsername(users, username).value;
      PatientsResponse(ts, key, now, Some(BearerScheme + token)) ==
        if now < issuedAt + TokenLifetime
        then Response(200, PatientList(Some(TokenClaims(u, issuedAt)), StubPatients))
        else Response(401, Message(TokenInvalid))
  {
    AuthRoutes.LoginIssuance(users, pwOk, ts, key, issuedAt, username, password);
    var u := FindByUsername(users, username).value;
    GateAdmitsBearer(ts, key, now, TokenClaims(u, issuedAt));
  }
}
