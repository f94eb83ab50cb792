/**
 * `POST /api/auth/login`: the single `admin` account, checked against the
 * password file; bcrypt hashes are recognised by their `$2b$` prefix.
 */
module Login {
  import opened Wrappers
  import opened Text

  /**
   * The password file as the route finds it. `Unreadable` is a file that
   * cannot be read or parsed; `None` is an absent or non-string field.
   */
  datatype PasswordFile = NoFile | Unreadable | Parsed(passwordHash: Option<string>, password: Option<string>)

  /** JavaScript truthiness of an optional string. */
  predicate Present(s: Option<string>) {
    s.Some? && s.value != []
  }

  /** `getStoredPasswordHash`: the hash if present, else the plain-text password, else nothing. */
  function StoredCredential(file: PasswordFile): (c: Option<string>)
    ensures c.Some? ==> c.value != []
    ensures c.None? <==> !file.Parsed? || (!Present(file.passwordHash) && !Present(file.password))
    ensures file.Parsed? && Present(file.passwordHash) ==> c == file.passwordHash
    ensures file.Parsed? && !Present(file.passwordHash) && Present(file.password) ==> c == file.password
  {
    if file.Parsed? && Present(file.passwordHash) then file.passwordHash
    else if file.Parsed? && Present(file.password) then file.password
    else None
  }

  predicate IsBcryptHash(stored: string) {
    StartsWith(stored, "$2b$")
  }

  /** The session cookie set on success. */
  datatype Cookie = Cookie(name: string, value: string, maxAgeSeconds: nat)

  const SessionCookie: Cookie := Cookie("auth-token", "authenticated", 60 * 60 * 24 * 7)
  const InvalidCredentials: string := "Invalid username or password"

  datatype LoginResponse = Rejected(status: nat, error: string) | LoggedIn(cookie: Cookie)

  /**
   * Whether `password` opens `stored`: bcrypt verification for a hash,
   * equality otherwise. `None` when bcrypt throws (no password given).
   */
  function PasswordMatches(password: Option<string>, stored: string, bcryptVerify: (string, string) -> bool): (m: Option<bool>)
    ensures m.None? <==> IsBcryptHash(stored) && password.None?
    ensures IsBcryptHash(stored) && password.Some? ==> m == Some(bcryptVerify(password.value, stored))
    ensures !IsBcryptHash(stored) ==> m == Some(password == Some(stored))
  {
    if IsBcryptHash(stored) then
      if password.Some? then Some(bcryptVerify(password.value, stored)) else None
    else Some(password == Some(stored))
  }

  /** `POST /api/auth/login` with body fields `username` and `password`. */
  function Post(username: Option<string>, password: Option<string>, file: PasswordFile,
                bcryptVerify: (string, string) -> bool): (r: LoginResponse)
    ensures username != Some("admin") ==> r == Rejected(401, InvalidCredentials)
    ensures username == Some("admin") && StoredCredential(file).None? ==>
              r == Rejected(500, "Authentication system not configured")
    ensures r.LoggedIn? <==>
              username == Some("admin") && StoredCredential(file).Some? &&
              PasswordMatches(password, StoredCredential(file).value, bcryptVerify) == Some(true)
    ensures r.LoggedIn? ==> r.cookie == SessionCookie
    ensures r == Rejected(500, "Login failed") <==>
              username == Some("admin") && StoredCredential(file).Some? &&
              IsBcryptHash(StoredCredential(file).value) && password.None?
  {
    if username != Some("admin") then Rejected(401, InvalidCredentials)
    else match StoredCredential(file)
      case None => Rejected(500, "Authentication system not configured")
      case Some(stored) =>
        match PasswordMatches(password, stored, bcryptVerify)
        case None => Rejected(500, "Login failed")
        case Some(valid) => if valid then LoggedIn(SessionCookie) else Rejected(401, InvalidCredentials)
  }

  /** The session lasts seven days. */
  lemma SessionLastsSevenDays()
    ensures SessionCookie.maxAgeSeconds == 604800
  {
  }

  /** A wrong username and a wrong password get the same answer, so the reply does not reveal which was wrong. */
  lemma SameRejection(badUser: Option<string>, password: Option<string>, file: PasswordFile,
                      bcryptVerify: (string, string) -> bool)
    requires badUser != Some("admin")
    requires StoredCredential(file).Some? && !IsBcryptHash(StoredCredential(file).value)
    requires password != StoredCredential(file)
    ensures Post(badUser, password, file, bcryptVerify) == Post(Some("admin"), password, file, bcryptVerify)
  {
  }

  /** While a hash is stored, the plain-text `password` field does not open the account by itself. */
  lemma HashTakesPrecedence(hash: string, plain: string, bcryptVerify: (string, string) -> bool)
    requires hash != [] && IsBcryptHash(hash)
    requires !bcryptVerify(plain, hash)
    ensures Post(Some("admin"), Some(plain), Parsed(Some(hash), Some(plain)), bcryptVerify) == Rejected(401, InvalidCredentials)
  {
  }
}
