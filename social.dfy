/** Third-party identity check before a login is recorded (src/social.ts). */
module Social {
  import opened Wrappers
  import opened Json

  /** What the Google OAuth client reports for an id token: a payload with a
      subject, no usable payload, or an exception of its own. */
  datatype GoogleCheck = SubjectPresent | NoSubject | ClientThrew

  /** What `verifySocialToken` throws: HttpError 401 "Invalid token", or the
      Google client's own exception. */
  datatype SocialFault = InvalidToken | ClientError

  /** `verifySocialToken(provider, token)`: only the provider "GOOGLE" is known,
      and its token must be one the Google client accepts with a subject. */
  function VerifySocialToken(provider: Value, token: Value, google: Value -> GoogleCheck): (r: Outcome<(), SocialFault>)
    ensures r.Returned? <==> provider == Str("GOOGLE") && google(token) == SubjectPresent
    ensures provider != Str("GOOGLE") ==> r == Threw(InvalidToken)
    ensures r == Threw(ClientError) <==> provider == Str("GOOGLE") && google(token) == ClientThrew
  {
    if provider == Str("GOOGLE") then
      match google(token)
      case SubjectPresent => Returned(())
      case NoSubject => Threw(InvalidToken)
      case ClientThrew => Threw(ClientError)
    else
      Threw(InvalidToken)
  }
}
