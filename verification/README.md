# Two-step login and token gate of the medical-app server, in Dafny

This project models the authentication core of the server in `server/index.js`:

- the fixed in-memory user table and its two lookups (`users.find` by username and by id);
- `POST /api/auth/login`: user lookup, bcrypt password check, then either the MFA challenge
  `{mfa_required: true, temp_user_id}` or an access token;
- `POST /api/auth/mfa`: user lookup by id, comparison of the one-time code with the user's
  stored secret, and token issuance;
- `generateToken`: the JSON Web Token (RFC 7519) claims `{id, username, role}` with `iat`
  and an `exp` one hour later (section 4.1.4 of RFC 7519);
- `verifyToken`: the gate in front of protected routes (403 for a missing header, 401 for a
  token that does not verify, otherwise `req.user = decoded` and `next()`);
- `GET /api/patients`: the handler that echoes the decoded claims beside a fixed patient list.

Modules, leaf first:

- `Wrappers` (`wrappers.dfy`): `Option`.
- `JsSemantics` (`js_semantics.dfy`): the JavaScript pieces the logic depends on. Request body
  fields are JSON values (`Undefined`, `Null`, `Bool`, `Num`, `Str`, `Other`), so `===` is exact:
  the string `"1"` is not the id `1`, and the number `123456` is not the code `"123456"`.
  `Find` is `Array.prototype.find` (first match in order). `CutFirst` is
  `String.prototype.replace` with a string pattern and the empty replacement `''`: it cuts out only
  the first occurrence, wherever it stands. `Truthy` is the truthiness of a header.
- `CredentialStore` (`credential_store.dfy`): `User`, the seed table, `FindByUsername`, `FindById`.
- `Tokens` (`token_service.dfy`): `Claims`, `TokenClaims`/`GenerateToken`, and the abstract
  token service. `jwt.sign` and `jwt.verify` are the two function fields of a `TokenService` value.
  The predicate `Sound` states the laws the model assumes of that service, and every lemma that
  needs them takes it as a hypothesis:
  - a signed token verifies to exactly its claims while `now < exp`, and fails from `exp` on;
  - a token that verifies is the server's own signature of the claims it yields under that key.
    This is an idealisation, not a library guarantee: it assumes the key is secret and the server
    is its only signer (see "## Left out");
  - the empty string never verifies.
- `Http` (`http.dfy`): the response shapes and the exact messages the server writes.
- `AuthRoutes` (`auth_routes.dfy`): `Login` and `Mfa` as pure functions from the table, the inputs
  and the clock to a `Response`.
- `ProtectedRoutes` (`protected_routes.dfy`):
  - `Gate` is the gate's decision as a function.
  - `Exchange` is one request. It holds the header, `req.user`, the number of `next()` calls and
    the responses sent.
  - `Exchange.VerifyToken` updates that state and is proved against `Gate`.
  - `Exchange.GetPatients` composes the gate and the handler, and is proved against
    `PatientsResponse`.

Collaborators that are parameters, not code:

- The password check `bcrypt.compareSync` is a parameter `pwOk: (string, Hash) -> bool`.
- The seed hashes (salted at start-up) are parameters of `SeedUsers`.
- The signing secret (`JWT_SECRET` or its fallback) is a parameter `key`.
- The clock is a parameter `now`, in whole seconds.

Behaviour of the code that the model keeps as written:

- The MFA route issues a token for a known id and a matching code, with no password check and
  whatever `mfaEnabled` says (`MfaIgnoresPasswordAndFlag`).
- jsonwebtoken reports expiry, malformed tokens and bad signatures as distinct errors. The gate
  answers all of them with one 401, and so does the model (`verify` yields `None`).
- bcryptjs throws on a non-string password and Express answers 500; `Login` models that as
  `InternalError`.

## Model

| member | source | states |
|---|---|---|
| JsSemantics.Find | server/index.js:49 | `Array.find`: none iff no element matches; otherwise an element that matches, with none matching before it |
| JsSemantics.IndexOf | server/index.js:87 | `indexOf`: the first index where the pattern occurs, or none iff it occurs nowhere |
| JsSemantics.Truthy | server/index.js:85 | `!token` is false exactly for a present, non-empty header (`undefined` and `''` are falsy) |
| JsSemantics.IndexFrom | server/index.js:87 | the first index at or after `from` where the pattern occurs, or none iff it occurs nowhere from there on |
| JsSemantics.CutFirst | server/index.js:87 | `replace(pat, '')`: without an occurrence the string is unchanged; otherwise the first occurrence, at whatever index, is cut out |
| JsSemantics.StripPrefix | server/index.js:87 | removing a pattern that is a prefix leaves exactly the rest |
| JsSemantics.StripInner | server/index.js:87 | removing the first occurrence of a pattern that stands after other text keeps that text and splices on what follows |
| CredentialStore.SeedUsers | server/index.js:16-33 | the table holds two users, both with MFA enabled, with distinct ids and names |
| CredentialStore.FindByUsername | server/index.js:49 | none iff no user's name strictly equals the field; a found user is in the table and has that name |
| CredentialStore.FindById | server/index.js:69 | none iff no user's id strictly equals the field; a found user is in the table and has that id |
| CredentialStore.FindByUsernameFirst | server/index.js:49 | with duplicate names, the earliest user is found |
| CredentialStore.FindByIdFirst | server/index.js:69 | with duplicate ids, the earliest user is found |
| CredentialStore.SeedLookups | server/index.js:16-33 | on the seed table, only the strings 'admin'/'doctor1' and the numbers 1/2 find a user, and which one |
| Tokens.TokenClaims | server/index.js:38-40 | the claims copy exactly the user's id, username and role, are issued now and expire one hour (3600 s) later |
| Tokens.GenerateToken | server/index.js:36-42 | under the token laws, the generated token is non-empty and verifies at issue time to exactly `TokenClaims(user, now)` |
| Tokens.GeneratedTokenVerifies | server/index.js:36-42 | a generated token decodes to exactly the user's id, username and role, with `iat` now and `exp` one hour later, throughout that hour, and fails from the expiry on |
| AuthRoutes.Login | server/index.js:47-64 | status 200 iff challenge or token; every 401 carries one of the two login messages; statuses are 200, 401 or 500 |
| AuthRoutes.LoginUnknownUser | server/index.js:49-51 | a username that no user has gives 401 "Utilisateur non trouvé" |
| AuthRoutes.LoginWrongPassword | server/index.js:53-55 | a password the check rejects for the first user with that name gives 401 "Mot de passe incorrect", never a challenge or token |
| AuthRoutes.LoginPasswordNotString | server/index.js:53 | a known user with a non-string password field gives a 500 error |
| AuthRoutes.LoginMfaRequired | server/index.js:57-59 | a correct password for an MFA user gives the challenge with that user's id, not a token |
| AuthRoutes.LoginIssuesToken | server/index.js:60-62 | a correct password for a user without MFA gives a token that decodes to that (first) user's claims for one hour |
| AuthRoutes.LoginIssuance | server/index.js:47-64 | login gives a token iff the user is found, the password check passes and MFA is off; the token is the one generated for that user |
| AuthRoutes.SeedLoginNeverIssues | server/index.js:16-64 | on the seed table login never gives a token; it answers 200 exactly for 'admin' or 'doctor1' with an accepted password |
| AuthRoutes.AdminLoginScenario | server/index.js:16-59 | 'admin' / 'admin123' gives `{mfa_required: true, temp_user_id: 1}` |
| AuthRoutes.Mfa | server/index.js:67-80 | status 200 iff a token is given; every 401 carries one of the two MFA messages |
| AuthRoutes.MfaUnknownUser | server/index.js:69-71 | an id that no user has gives 401 "Utilisateur non trouvé" |
| AuthRoutes.MfaOutcome | server/index.js:69-79 | the user's secret as code gives a token decoding to that user's claims for one hour; any other value gives 401 "OTP incorrect" |
| AuthRoutes.MfaIssuance | server/index.js:67-80 | the MFA step gives a token iff the id is found and the code strictly equals its secret; the token is the one generated for that user |
| AuthRoutes.SeedMfaIssuance | server/index.js:16-80 | on the seed table the MFA step gives a token only for (1, "123456") and (2, "654321") |
| AuthRoutes.MfaIgnoresPasswordAndFlag | server/index.js:67-80 | for the first user with a given id, that id and its secret yield that user's token whatever its password hash and `mfaEnabled` |
| AuthRoutes.AdminMfaScenarios | server/index.js:16-80 | (1, "123456") gives 200; (1, "000000") gives 401 "OTP incorrect" |
| ProtectedRoutes.Gate | server/index.js:83-92 | missing iff the header is absent or empty; forward only with claims that the stripped header verifies to; invalid when it verifies to nothing |
| ProtectedRoutes.Exchange.VerifyToken | server/index.js:83-92 | 403 or 401 is sent with `req.user` and `next` untouched, or nothing is sent, `req.user` becomes the decoded claims and `next` is called once |
| ProtectedRoutes.Exchange.ListPatients | server/index.js:95-102 | sends 200 with `req.user` and the fixed two-patient list |
| ProtectedRoutes.Exchange.GetPatients | server/index.js:83-102 | exactly one response; the handler runs once and only when the gate verified the token in the same request |
| ProtectedRoutes.PatientsResponse | server/index.js:83-102 | 403 iff the header is falsy; 200 iff the gate forwards, and then the body holds the decoded claims unchanged and the stub list |
| ProtectedRoutes.GateMissingHeader | server/index.js:84-85 | no header and the empty header are missing (403); "Bearer " alone is invalid (401) |
| ProtectedRoutes.GateForwardsOnlySigned | server/index.js:87-90 | a forwarded request carries a signature, under the server key, of the forwarded claims, and they have not expired |
| ProtectedRoutes.GateAdmitsBearer | server/index.js:87-90 | "Bearer " plus a signed token is forwarded with exactly its claims before expiry and is invalid after |
| ProtectedRoutes.GateStripsFirstScheme | server/index.js:87 | the first "Bearer " is cut out wherever it stands, and the text before it is kept and verified |
| ProtectedRoutes.GateAcceptsBareToken | server/index.js:87 | a signed token without any "Bearer " is accepted as it stands |
| ProtectedRoutes.MfaTokenOpensPatients | server/index.js:67-102 | a token from the MFA step opens `/api/patients` with that user's claims for one hour, then gives 401 |
| ProtectedRoutes.LoginTokenOpensPatients | server/index.js:47-102 | a token from the login step does the same |

## Left out

- Express wiring: CORS, JSON body parsing, `listen`, the port and `dotenv` (server/index.js:1-13, 104-106). This is framework plumbing. Request bodies enter as already-parsed field values.
- bcrypt: hashing, salt, cost factor and constant-time comparison. The password check is the parameter `pwOk`, and the seed hashes are opaque parameters. Only the library's refusal of a non-string password is modelled.
- jsonwebtoken: the signature algorithm, the compact encoding and the distinct error kinds. Signing and verifying are abstract functions constrained by `Sound`.
- Tokens.Sound: verification is idealised to accept only the server's own signatures, and only before their `exp`. The real library, given the key, also accepts HS384 and HS512 tokens and payloads without `exp`, from anyone who holds the key; with the public fallback key that is anyone.
- ProtectedRoutes.GateForwardsOnlySigned: rests on that idealised law of `Tokens.Sound`. It does not hold of the real library for tokens made outside the server with the same key, in another HMAC algorithm or without `exp`.
- JsSemantics.CutFirst: models `replace` with the empty replacement only, the one the gate uses. A non-empty replacement text, with its `$&`, `$$`, `` $` `` and `$'` patterns, is not modelled.
- The fallback secret 'supersecret': the key is a single parameter shared by signing and verifying.
- Wall-clock time: `now` is a parameter. Calls to `jwt.verify` are treated as synchronous.
- JSON numbers that are not integers are folded into `Other`. They never strictly equal an id, so no outcome changes.
- Express's error page for a thrown exception is reduced to the body `InternalError` with status 500.
