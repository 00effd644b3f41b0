/** The JSON responses the routes send: a status code and one of the body shapes
    of server/index.js, with the exact messages the server writes. */
module Http {
  import opened Wrappers
  import opened Tokens

  const UserNotFound: string := "Utilisateur non trouvé"
  const WrongPassword: string := "Mot de passe incorrect"
  const OtpIncorrect: string := "OTP incorrect"
  const TokenMissing: string := "Token manquant"
  const TokenInvalid: string := "Token invalide"

  /** An entry of the stub patient list. */
  datatype Patient = Patient(id: int, name: string)

  datatype Body =
    | Message(message: string)                                  // {message}
    | MfaChallenge(tempUserId: int)                             // {mfa_required: true, temp_user_id}
    | AccessToken(accessToken: string)                          // {access_token}
    | PatientList(user: Option<Claims>, patients: seq<Patient>) // {user: req.user, patients}
    | InternalError                                             // Express's page for a thrown error

  datatype Response = Response(status: int, body: Body)
}
