/**
 * `POST /api/auth/change-password`: a signed-in admin replaces the stored
 * password and is signed out.
 */
module ChangePassword {
  import opened Wrappers
  import opened Text
  import opened Login
  import Middleware
  import PasswordPage

  const DefaultPassword: string := "admin123"

  /** `getStoredPassword`: the file's plain-text `password` field, or the default when there is no readable file. */
  function StoredPassword(file: PasswordFile): (p: Option<string>)
    ensures !file.Parsed? ==> p == Some(DefaultPassword)
    ensures file.Parsed? ==> p == file.password
  {
    match file
    case Parsed(_, password) => password
    case _ => Some(DefaultPassword)
  }

  /** `savePassword`: the record written, `{ password }` and nothing else. */
  function SavedFile(newPassword: string): (f: PasswordFile)
    ensures StoredCredential(f) == (if newPassword == [] then None else Some(newPassword))
    ensures StoredPassword(f) == Some(newPassword)
  {
    Parsed(None, Some(newPassword))
  }

  datatype ChangeResponse =
    | Unauthorized401
    | MissingFields400
    | IncorrectCurrent401
    | SaveFailed500
    | Changed

  /** The response, the password file and the `auth-token` cookie after the request. */
  datatype ChangeOutcome = ChangeOutcome(response: ChangeResponse, file: PasswordFile, authToken: Option<string>)

  /**
   * The route as written: the current password is compared with the
   * plain-text field only. `saveOk` says whether the write succeeds.
   */
  function Post(authToken: Option<string>, currentPassword: Option<string>, newPassword: Option<string>,
                file: PasswordFile, saveOk: bool): (o: ChangeOutcome)
    ensures authToken != Some("authenticated") ==> o == ChangeOutcome(Unauthorized401, file, authToken)
    ensures authToken == Some("authenticated") && (!Present(currentPassword) || !Present(newPassword)) ==>
              o == ChangeOutcome(MissingFields400, file, authToken)
    ensures o.response.IncorrectCurrent401? <==>
              authToken == Some("authenticated") && Present(currentPassword) && Present(newPassword) &&
              currentPassword != StoredPassword(file)
    ensures o.response.Changed? <==>
              authToken == Some("authenticated") && Present(currentPassword) && Present(newPassword) &&
              currentPassword == StoredPassword(file) && saveOk
    ensures o.response.Changed? ==> o.file == SavedFile(newPassword.value) && o.authToken.None?
    ensures !o.response.Changed? ==> o.file == file && o.authToken == authToken
  {
    if authToken != Some("authenticated") then ChangeOutcome(Unauthorized401, file, authToken)
    else if !Present(currentPassword) || !Present(newPassword) then ChangeOutcome(MissingFields400, file, authToken)
    else if currentPassword != StoredPassword(file) then ChangeOutcome(IncorrectCurrent401, file, authToken)
    else if !saveOk then ChangeOutcome(SaveFailed500, file, authToken)
    else ChangeOutcome(Changed, SavedFile(newPassword.value), None)
  }

  /**
   * As written, a file holding only a hash (the format the setup script
   * writes) rejects every current password, although login accepts the
   * password the hash was made from.
   */
  lemma HashOnlyFileBlocksChange(hash: string, password: string, newPassword: string,
                                 bcryptVerify: (string, string) -> bool, saveOk: bool)
    requires hash != [] && IsBcryptHash(hash) && password != [] && newPassword != []
    requires bcryptVerify(password, hash)
    ensures Login.Post(Some("admin"), Some(password), Parsed(Some(hash), None), bcryptVerify).LoggedIn?
    ensures Post(Some("authenticated"), Some(password), Some(newPassword), Parsed(Some(hash), None), saveOk).response
            == IncorrectCurrent401
  {
  }

  /** The current password is accepted when it opens the credential login uses; without one, the default. */
  predicate CurrentAccepted(file: PasswordFile, currentPassword: string, bcryptVerify: (string, string) -> bool) {
    match StoredCredential(file)
    case None => currentPassword == DefaultPassword
    case Some(stored) => PasswordMatches(Some(currentPassword), stored, bcryptVerify) == Some(true)
  }

  /** The route with the current password checked the way login checks it. */
  function PostCorrected(authToken: Option<string>, currentPassword: Option<string>, newPassword: Option<string>,
                         file: PasswordFile, saveOk: bool, bcryptVerify: (string, string) -> bool): (o: ChangeOutcome)
    ensures authToken != Some("authenticated") ==> o == ChangeOutcome(Unauthorized401, file, authToken)
    ensures o.response.Changed? <==>
              authToken == Some("authenticated") && Present(currentPassword) && Present(newPassword) &&
              CurrentAccepted(file, currentPassword.value, bcryptVerify) && saveOk
    ensures o.response.Changed? ==> o.file == SavedFile(newPassword.value) && o.authToken.None?
    ensures !o.response.Changed? ==> o.file == file && o.authToken == authToken
  {
    if authToken != Some("authenticated") then ChangeOutcome(Unauthorized401, file, authToken)
    else if !Present(currentPassword) || !Present(newPassword) then ChangeOutcome(MissingFields400, file, authToken)
    else if !CurrentAccepted(file, currentPassword.value, bcryptVerify) then ChangeOutcome(IncorrectCurrent401, file, authToken)
    else if !saveOk then ChangeOutcome(SaveFailed500, file, authToken)
    else ChangeOutcome(Changed, SavedFile(newPassword.value), None)
  }

  /** Corrected: every password that logs in also authorises a change, whatever the file's format. */
  lemma LoginPasswordAuthorisesChange(password: string, newPassword: string, file: PasswordFile,
                                      bcryptVerify: (string, string) -> bool)
    requires Login.Post(Some("admin"), Some(password), file, bcryptVerify).LoggedIn?
    requires password != [] && newPassword != []
    ensures PostCorrected(Some("authenticated"), Some(password), Some(newPassword), file, true, bcryptVerify).response == Changed
  {
  }

  /** Corrected: for a plain-text file the correction decides exactly as the route does. */
  lemma CorrectionAgreesOnPlainText(authToken: Option<string>, currentPassword: Option<string>, newPassword: Option<string>,
                                    password: string, saveOk: bool, bcryptVerify: (string, string) -> bool)
    requires password != [] && !IsBcryptHash(password)
    ensures PostCorrected(authToken, currentPassword, newPassword, Parsed(None, Some(password)), saveOk, bcryptVerify)
         == Post(authToken, currentPassword, newPassword, Parsed(None, Some(password)), saveOk)
  {
  }

  /** After a change the admin is signed out, the old session no longer opens protected pages, and the new password logs in. */
  lemma ChangeSignsOut(currentPassword: string, newPassword: string, file: PasswordFile,
                       bcryptVerify: (string, string) -> bool, pathname: string)
    requires PostCorrected(Some("authenticated"), Some(currentPassword), Some(newPassword), file, true, bcryptVerify).response.Changed?
    requires !Middleware.Open(pathname)
    requires !IsBcryptHash(newPassword)
    ensures var o := PostCorrected(Some("authenticated"), Some(currentPassword), Some(newPassword), file, true, bcryptVerify);
            Middleware.Gate(pathname, o.authToken) == Middleware.RedirectToLogin &&
            Login.Post(Some("admin"), Some(newPassword), o.file, bcryptVerify).LoggedIn?
  {
  }

  /** A save failure keeps the session and the old password. */
  lemma SaveFailureKeepsSession(currentPassword: Option<string>, newPassword: Option<string>, file: PasswordFile)
    requires Present(currentPassword) && Present(newPassword) && currentPassword == StoredPassword(file)
    ensures Post(Some("authenticated"), currentPassword, newPassword, file, false)
         == ChangeOutcome(SaveFailed500, file, Some("authenticated"))
  {
  }

  /** A request the form sends always passes the route's presence check when a current password was typed. */
  lemma FormRequestsHaveFields(form: PasswordPage.Form, reply: PasswordPage.Reply)
    requires PasswordPage.OnSubmit(form, reply).request.Some?
    requires form.currentPassword != []
    ensures var req := PasswordPage.OnSubmit(form, reply).request.value;
            Present(Some(req.currentPassword)) && Present(Some(req.newPassword))
  {
    var req := PasswordPage.OnSubmit(form, reply).request.value;
    assert Utf16Length(req.newPassword) >= 6;
  }
}
