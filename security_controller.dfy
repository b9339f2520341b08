/**
 * The `register` and `login` actions of src/controllers/SecurityController.php:
 * an ordered chain of guards, each ending the request with a fixed message.
 * Email syntax (`filter_var`), password hashing and verification and the
 * CSRF token generator are parameters.  `strlen` counts UTF-8 bytes and the
 * password pattern works on bytes, as PHP does without the `u` modifier.
 */
module SecurityController {
  import opened Wrappers
  import opened UserRepository
  import opened AppSession

  /** The number of bytes of a character in UTF-8. */
  function CharBytes(c: char): (n: nat)
    ensures 1 <= n <= 4
    ensures n == 1 <==> c as int < 0x80
  {
    if c as int < 0x80 then 1
    else if c as int < 0x800 then 2
    else if c as int < 0x10000 then 3
    else 4
  }

  /** `strlen`: the length of the UTF-8 encoding. */
  function Utf8Length(s: string): (n: nat)
    ensures |s| <= n <= 4 * |s|
    ensures n == |s| <==> forall i :: 0 <= i < |s| ==> s[i] as int < 0x80
  {
    if s == [] then 0 else CharBytes(s[0]) + Utf8Length(s[1..])
  }

  /** The characters PHP's `trim` removes: space, tab, line feed, carriage return, NUL, vertical tab. */
  predicate IsTrimmed(c: char) {
    c == ' ' || c == '\t' || c == '\n' || c == '\r' || c == 0 as char || c == 11 as char
  }

  /** How many characters `trim` drops from the front. */
  function LeadingTrim(s: string): (n: nat)
    ensures n <= |s|
    ensures forall k :: 0 <= k < n ==> IsTrimmed(s[k])
    ensures n < |s| ==> !IsTrimmed(s[n])
  {
    if s == [] || !IsTrimmed(s[0]) then 0 else 1 + LeadingTrim(s[1..])
  }

  /** How many characters `trim` drops from the back. */
  function TrailingTrim(s: string): (n: nat)
    ensures n <= |s|
    ensures forall k :: |s| - n <= k < |s| ==> IsTrimmed(s[k])
    ensures n < |s| ==> !IsTrimmed(s[|s| - n - 1])
  {
    if s == [] || !IsTrimmed(s[|s| - 1]) then 0 else 1 + TrailingTrim(s[..|s| - 1])
  }

  /** `trim`: the input without its leading and trailing trim characters. */
  function Trim(s: string): (r: string)
    ensures r == [] || (!IsTrimmed(r[0]) && !IsTrimmed(r[|r| - 1]))
    ensures LeadingTrim(s) + |r| <= |s| && s[LeadingTrim(s)..LeadingTrim(s) + |r|] == r
    ensures forall k :: LeadingTrim(s) + |r| <= k < |s| ==> IsTrimmed(s[k])
  {
    var i := LeadingTrim(s);
    var t := s[i..];
    var r := t[..|t| - TrailingTrim(t)];
    assert s[i..i + |r|] == r;
    assert forall k :: i + |r| <= k < |s| ==> s[k] == t[k - i];
    r
  }

  lemma {:induction false} NoLeadingTrim(s: string)
    requires s == [] || !IsTrimmed(s[0])
    ensures LeadingTrim(s) == 0
  {
  }

  /** Trimming twice is trimming once. */
  lemma TrimIdempotent(s: string)
    ensures Trim(Trim(s)) == Trim(s)
  {
    var r := Trim(s);
    NoLeadingTrim(r);
    assert r[0..] == r;
    if r != [] {
      assert TrailingTrim(r) == 0;
    }
    assert r[..|r|] == r;
  }

  /** PHP's `empty` on a string: the empty string and "0". */
  predicate Empty(s: string) {
    s == "" || s == "0"
  }

  predicate IsLower(c: char) { 'a' <= c <= 'z' }
  predicate IsUpper(c: char) { 'A' <= c <= 'Z' }
  predicate IsDigit(c: char) { '0' <= c <= '9' }

  /** The part `.{8,}$` must cover: `$` also matches before one final line feed. */
  function PatternBody(s: string): (b: string)
    ensures b == s || (s == b + ['\n'])
  {
    if |s| > 0 && s[|s| - 1] == '\n' then s[..|s| - 1] else s
  }

  /**
   * `/^(?=.*[a-z])(?=.*[A-Z])(?=.*\d).{8,}$/` on the bytes of the password:
   * no line feed except one at the very end, at least 8 bytes before it, and
   * an ASCII lower-case letter, upper-case letter and digit among them.
   */
  predicate PasswordPattern(s: string) {
    var b := PatternBody(s);
    && '\n' !in b
    && Utf8Length(b) >= 8
    && (exists i :: 0 <= i < |b| && IsLower(b[i]))
    && (exists i :: 0 <= i < |b| && IsUpper(b[i]))
    && (exists i :: 0 <= i < |b| && IsDigit(b[i]))
  }

  /** Eight characters with a capital, a small letter and a digit pass, also before one final line feed. */
  lemma EightCharacterPasswordAccepted()
    ensures PasswordPattern("Abcdefg1")
    ensures PasswordPattern("Abcdefg1\n")
  {
    var p := "Abcdefg1";
    assert IsUpper(p[0]) && IsLower(p[1]) && IsDigit(p[7]);
    assert forall i :: 0 <= i < |p| ==> p[i] as int < 0x80;
    assert PatternBody("Abcdefg1\n") == p;
  }

  /** Seven ASCII characters are too few. */
  lemma SevenCharacterPasswordRejected()
    ensures !PasswordPattern("Abcdef1")
  {
    var p := "Abcdef1";
    assert forall i :: 0 <= i < |p| ==> p[i] as int < 0x80;
  }

  /** Without a capital letter the pattern fails. */
  lemma NoCapitalRejected()
    ensures !PasswordPattern("abcdefg1")
  {
    var p := "abcdefg1";
    assert forall i :: 0 <= i < |p| ==> !IsUpper(p[i]);
  }

  /** A line feed anywhere but at the very end fails. */
  lemma InnerLineFeedRejected()
    ensures !PasswordPattern("Abc\ndefg1")
  {
    var p := "Abc\ndefg1";
    assert PatternBody(p) == p;
    assert p[3] == '\n';
  }

  /** Length is counted in bytes: six characters with multi-byte letters are enough. */
  lemma SixCharacterPasswordAccepted()
    ensures PasswordPattern("Aąąą1b")
  {
    var p := "Aąąą1b";
    assert IsUpper(p[0]) && IsDigit(p[4]) && IsLower(p[5]);
    assert Utf8Length(p) == 9;
  }

  /** A rendered template with its optional `messages` and `confirmation` variables. */
  datatype Page = Page(template: string, messages: Option<string>, confirmation: Option<string>)

  datatype SecurityResponse =
    | Render(page: Page)
    | Die(text: string)
    | Redirect(path: string)

  function Message(template: string, text: string): Page {
    Page(template, Some(text), None)
  }

  const BadLength := "Niepoprawna długość."
  const FillAllFields := "Wypełnij wszystkie pola."
  const BadEmailFormat := "Niepoprawny format adresu e-mail."
  const WeakPassword :=
    "Hasło musi mieć przynajmniej 8 znaków i zawierać: przynajmniej jedną wielką literę, przynajmniej jedną małą literę, przynajmniej jedną cyfrę"
  const PasswordsDiffer := "Hasła się nie zgadzają"
  const EmailTaken := "Użytkownik z tym adresem e-mail już istnieje. Spróbuj się zalogować."
  const UsernameTaken := "Nazwa użytkownika jest już zajęta."
  const Registered := "Konto utworzone pomyślnie. Prosze się zalogować."
  const BadCredentials := "Błędny adres e-mail lub hasło."

  /** The page of a successful registration. */
  const RegisteredPage := Page("login", None, Some(Registered))

  /** The guard chain of `register`: the page of the first guard that fails, or None when all pass. */
  function RegisterCheck(email: string, password: string, password2: string, username: string,
                         validEmail: string -> bool, emailExists: bool, usernameTaken: bool)
    : Option<Page>
  {
    if Utf8Length(email) > 100 || Utf8Length(password) > 100 || Utf8Length(password) > 100
       || Utf8Length(username) > 100 then Some(Message("register", BadLength))
    else if Empty(email) || Empty(password) || Empty(password2) || Empty(username) then
      Some(Message("register", FillAllFields))
    else if !validEmail(email) then Some(Message("login", BadEmailFormat))
    else if !PasswordPattern(password) then Some(Message("register", WeakPassword))
    else if password != password2 then Some(Message("register", PasswordsDiffer))
    else if emailExists then Some(Message("register", EmailTaken))
    else if usernameTaken then Some(Message("register", UsernameTaken))
    else None
  }

  /** The length guard comes first and looks at email, password and username only, never at password2. */
  lemma LengthGuardFirst(email: string, password: string, password2: string, username: string,
                         validEmail: string -> bool, emailExists: bool, usernameTaken: bool)
    ensures RegisterCheck(email, password, password2, username, validEmail, emailExists, usernameTaken)
         == Some(Message("register", BadLength))
        <==> Utf8Length(email) > 100 || Utf8Length(password) > 100 || Utf8Length(username) > 100
  {
  }

  /** Registration passes every guard exactly when all of its conditions hold. */
  lemma RegisterAccepted(email: string, password: string, password2: string, username: string,
                         validEmail: string -> bool, emailExists: bool, usernameTaken: bool)
    ensures RegisterCheck(email, password, password2, username, validEmail, emailExists, usernameTaken).None?
        <==> && Utf8Length(email) <= 100 && Utf8Length(password) <= 100 && Utf8Length(username) <= 100
             && !Empty(email) && !Empty(password) && !Empty(password2) && !Empty(username)
             && validEmail(email) && PasswordPattern(password) && password == password2
             && !emailExists && !usernameTaken
  {
  }

  /**
   * Guard order: a weak password is reported even when the two passwords
   * also differ; a taken email even when the username is taken too; and an
   * invalid email answers with the login template.
   */
  lemma RegisterGuardOrder(email: string, password: string, password2: string, username: string,
                           validEmail: string -> bool, emailExists: bool, usernameTaken: bool)
    requires Utf8Length(email) <= 100 && Utf8Length(password) <= 100 && Utf8Length(username) <= 100
    requires !Empty(email) && !Empty(password) && !Empty(password2) && !Empty(username)
    ensures !validEmail(email) ==>
      RegisterCheck(email, password, password2, username, validEmail, emailExists, usernameTaken)
        == Some(Page("login", Some(BadEmailFormat), None))
    ensures validEmail(email) && !PasswordPattern(password) ==>
      RegisterCheck(email, password, password2, username, validEmail, emailExists, usernameTaken)
        == Some(Message("register", WeakPassword))
    ensures validEmail(email) && PasswordPattern(password) && password == password2 && emailExists ==>
      RegisterCheck(email, password, password2, username, validEmail, emailExists, usernameTaken)
        == Some(Message("register", EmailTaken))
  {
  }

  /** "0" counts as an empty field. */
  lemma ZeroIsAnEmptyField(password: string, password2: string, username: string,
                           validEmail: string -> bool, emailExists: bool, usernameTaken: bool)
    requires Utf8Length(password) <= 100 && Utf8Length(username) <= 100
    ensures RegisterCheck("0", password, password2, username, validEmail, emailExists, usernameTaken)
         == Some(Message("register", FillAllFields))
  {
  }

  /** A request: GET, or POST with its form fields. */
  datatype Request = Get | Post(fields: map<string, string>)

  /** `$_POST[key] ?? ''`. */
  function Field(fields: map<string, string>, key: string): string {
    if key in fields then fields[key] else ""
  }

  /** `$_POST['csrf'] !== $_SESSION['csrf']`, either side possibly unset. */
  predicate CsrfMismatch(fields: map<string, string>, token: Option<string>) {
    (if "csrf" in fields then Some(fields["csrf"]) else None) != token
  }

  /**
   * `register`.  GET stores a fresh token and shows the form.  POST with a
   * foreign token dies.  Otherwise the email is trimmed, the passwords and
   * username are not, and the guards run; a user is created only when all pass.
   */
  method Register(session: Session, users: UserRepository, req: Request,
                  validEmail: string -> bool, hash: string -> string, token: string)
    returns (resp: SecurityResponse)
    requires users.Valid()
    modifies session, users
    ensures users.Valid()
    ensures session.user == old(session.user)
    ensures session.username == old(session.username)
    ensures req.Get? ==>
      resp == Render(Page("register", None, None)) && session.csrf == Some(token)
      && users.users == old(users.users)
    ensures req.Post? ==> session.csrf == old(session.csrf)
    ensures req.Post? && CsrfMismatch(req.fields, old(session.csrf)) ==>
      resp == Die("CSRF detected") && users.users == old(users.users)
    ensures req.Post? && !CsrfMismatch(req.fields, old(session.csrf)) ==>
      var email := Trim(Field(req.fields, "email"));
      var password := Field(req.fields, "password1");
      var username := Field(req.fields, "username");
      var rejection := RegisterCheck(email, password, Field(req.fields, "password2"), username, validEmail,
                                     old(users.GetUserByEmail(email)).Some?,
                                     old(users.GetUserByUsername(username)).Some?);
      && (rejection.Some? ==> resp == Render(rejection.value) && users.users == old(users.users))
      && (rejection.None? ==>
            && resp == Render(RegisteredPage)
            && users.users == old(users.users)[old(users.nextId) :=
                 UserRow(old(users.nextId), email, hash(password), username, None)])
  {
    if req.Get? {
      session.csrf := Some(token);
      return Render(Page("register", None, None));
    }
    if CsrfMismatch(req.fields, session.csrf) {
      return Die("CSRF detected");
    }
    var email := Trim(Field(req.fields, "email"));
    var password := Field(req.fields, "password1");
    var password2 := Field(req.fields, "password2");
    var username := Field(req.fields, "username");
    var rejection := RegisterCheck(email, password, password2, username, validEmail,
                                   users.GetUserByEmail(email).Some?,
                                   users.GetUserByUsername(username).Some?);
    if rejection.Some? {
      return Render(rejection.value);
    }
    var _ := users.CreateUser(email, hash(password), username);
    resp := Render(RegisteredPage);
  }

  datatype LoginCheckResult = LoginRejected(page: Page) | LoginAccepted(user: UserRow)

  /** The guard chain of `login`, given the row found for the email. */
  function LoginCheck(email: string, password: string, validEmail: string -> bool,
                      found: Option<UserRow>, verify: (string, string) -> bool): LoginCheckResult
  {
    if Empty(email) || Empty(password) then LoginRejected(Message("login", FillAllFields))
    else if !validEmail(email) then LoginRejected(Message("login", BadEmailFormat))
    else if found.None? then LoginRejected(Message("login", BadCredentials))
    else if !verify(password, found.value.hashedPassword) then LoginRejected(Message("login", BadCredentials))
    else LoginAccepted(found.value)
  }

  /** An unknown email and a wrong password get the same answer. */
  lemma UnknownEmailLooksLikeWrongPassword(email: string, password: string, validEmail: string -> bool,
                                           row: UserRow, verify: (string, string) -> bool)
    requires !verify(password, row.hashedPassword)
    ensures LoginCheck(email, password, validEmail, None, verify)
         == LoginCheck(email, password, validEmail, Some(row), verify)
  {
  }

  /** A login is accepted exactly when the fields are filled, the email valid, and the password verifies. */
  lemma LoginSucceedsExactly(email: string, password: string, validEmail: string -> bool,
                      found: Option<UserRow>, verify: (string, string) -> bool)
    ensures LoginCheck(email, password, validEmail, found, verify).LoginAccepted?
        <==> !Empty(email) && !Empty(password) && validEmail(email)
             && found.Some? && verify(password, found.value.hashedPassword)
  {
  }

  /** The session array `login` stores for an accepted user. */
  function SessionUserOf(u: UserRow): (s: SessionUser)
    ensures s.id == u.userId && s.email == u.email && s.username == u.username && s.role == u.userRole
  {
    SessionUser(u.userId, u.email, u.username, u.userRole)
  }

  /**
   * `login`.  GET stores a fresh token and shows the form; POST with a
   * foreign token dies; otherwise the session user is set, and the browser
   * sent to the dashboard, only when every guard passes.
   */
  method Login(session: Session, users: UserRepository, req: Request,
               validEmail: string -> bool, verify: (string, string) -> bool, token: string)
    returns (resp: SecurityResponse)
    modifies session
    ensures session.username == old(session.username)
    ensures req.Get? ==>
      resp == Render(Page("login", None, None)) && session.csrf == Some(token) && session.user == old(session.user)
    ensures req.Post? ==> session.csrf == old(session.csrf)
    ensures req.Post? && CsrfMismatch(req.fields, old(session.csrf)) ==>
      resp == Die("CSRF detected") && session.user == old(session.user)
    ensures req.Post? && !CsrfMismatch(req.fields, old(session.csrf)) ==>
      var email := Trim(Field(req.fields, "email"));
      var check := LoginCheck(email, Field(req.fields, "password"), validEmail,
                              users.GetUserByEmail(email), verify);
      && (check.LoginRejected? ==> resp == Render(check.page) && session.user == old(session.user))
      && (check.LoginAccepted? ==>
            && resp == Redirect("/dashboard")
            && session.user == Some(SessionUserOf(check.user)))
  {
    if req.Get? {
      session.csrf := Some(token);
      return Render(Page("login", None, None));
    }
    if CsrfMismatch(req.fields, session.csrf) {
      return Die("CSRF detected");
    }
    var email := Trim(Field(req.fields, "email"));
    var password := Field(req.fields, "password");
    var check := LoginCheck(email, password, validEmail, users.GetUserByEmail(email), verify);
    if check.LoginRejected? {
      return Render(check.page);
    }
    session.user := Some(SessionUserOf(check.user));
    resp := Redirect("/dashboard");
  }
}
