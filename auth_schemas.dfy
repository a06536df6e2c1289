/**
 * The zod schemas of the authentication forms. Parsing a form yields the list of issues zod
 * reports, field by field in declaration order and each field's checks in order; the refinement
 * comparing the two passwords runs after the fields, also when a field check failed (zod leaves
 * the object "dirty", not aborted, for length and format failures). A form is accepted exactly
 * when the list is empty. zod's e-mail check is a parameter.
 */
module AuthSchemas {
  const InvalidEmail: string := "Ugyldig e-postadresse"
  const TooShort: string := "Passord må være minst 6 tegn"
  const Mismatch: string := "Passordene matcher ikke"
  const InvalidResetLink: string := "Ugyldig tilbakestillingslenke"
  const MinPasswordLength: nat := 6

  /** One zod issue: the field it is reported on and its message. */
  datatype Issue = Issue(path: string, message: string)

  datatype RegisterForm = RegisterForm(email: string, password: string, repeatPassword: string)
  datatype LoginForm = LoginForm(email: string, password: string)
  datatype ForgotPasswordForm = ForgotPasswordForm(email: string)
  datatype ResetPasswordForm = ResetPasswordForm(token: string, password: string, confirm: string)

  /** One check: no issue when it holds, its issue on path otherwise. */
  function Check(holds: bool, path: string, message: string): (r: seq<Issue>)
    ensures holds <==> r == []
    ensures !holds ==> r == [Issue(path, message)]
  {
    if holds then [] else [Issue(path, message)]
  }

  /** The email field's check: z.string().email, reported on "email". */
  function EmailIssues(email: string, isEmail: string -> bool): (r: seq<Issue>)
    ensures r == [] <==> isEmail(email)
    ensures r != [] ==> r == [Issue("email", InvalidEmail)]
  {
    Check(isEmail(email), "email", InvalidEmail)
  }

  /** A password field's check: z.string().min(6), reported on that field. */
  function PasswordIssues(path: string, value: string): (r: seq<Issue>)
    ensures r == [] <==> |value| >= MinPasswordLength
    ensures r != [] ==> r == [Issue(path, TooShort)]
  {
    Check(|value| >= MinPasswordLength, path, TooShort)
  }

  predicate OnlyPaths(issues: seq<Issue>, paths: set<string>) {
    forall i :: 0 <= i < |issues| ==> issues[i].path in paths
  }

  /** registerSchema: the issues of a registration form. */
  function RegisterIssues(form: RegisterForm, isEmail: string -> bool): (r: seq<Issue>)
    ensures r == [] <==>
      isEmail(form.email) && |form.password| >= 6 && |form.repeatPassword| >= 6 && form.password == form.repeatPassword
    ensures form.password != form.repeatPassword ==> r[|r| - 1] == Issue("repeatPassword", Mismatch)
    ensures form.password == form.repeatPassword ==> forall i :: 0 <= i < |r| ==> r[i].message != Mismatch
    ensures OnlyPaths(r, {"email", "password", "repeatPassword"})
  {
    EmailIssues(form.email, isEmail) + PasswordIssues("password", form.password)
    + PasswordIssues("repeatPassword", form.repeatPassword)
    + Check(form.password == form.repeatPassword, "repeatPassword", Mismatch)
  }

  /** loginSchema. */
  function LoginIssues(form: LoginForm, isEmail: string -> bool): (r: seq<Issue>)
    ensures r == [] <==> isEmail(form.email) && |form.password| >= 6
    ensures OnlyPaths(r, {"email", "password"}) && |r| <= 2
  {
    EmailIssues(form.email, isEmail) + PasswordIssues("password", form.password)
  }

  /** forgotPasswordSchema: only the address. */
  function ForgotPasswordIssues(form: ForgotPasswordForm, isEmail: string -> bool): (r: seq<Issue>)
    ensures r == [] <==> isEmail(form.email)
    ensures OnlyPaths(r, {"email"})
  {
    EmailIssues(form.email, isEmail)
  }

  /** resetPasswordSchema: a token, and two equal passwords of the minimum length; a mismatch is reported on confirm. */
  function ResetPasswordIssues(form: ResetPasswordForm): (r: seq<Issue>)
    ensures r == [] <==> form.token != [] && |form.password| >= 6 && |form.confirm| >= 6 && form.password == form.confirm
    ensures form.password != form.confirm ==> r[|r| - 1] == Issue("confirm", Mismatch)
    ensures form.token == [] ==> r[0] == Issue("token", InvalidResetLink)
    ensures OnlyPaths(r, {"token", "password", "confirm"})
  {
    Check(|form.token| >= 1, "token", InvalidResetLink) + PasswordIssues("password", form.password)
    + PasswordIssues("confirm", form.confirm) + Check(form.password == form.confirm, "confirm", Mismatch)
  }

  /** Credentials accepted at registration are accepted at login, and their address for a reset request. */
  lemma RegisteredCredentialsLogIn(form: RegisterForm, isEmail: string -> bool)
    requires RegisterIssues(form, isEmail) == []
    ensures LoginIssues(LoginForm(form.email, form.password), isEmail) == []
    ensures ForgotPasswordIssues(ForgotPasswordForm(form.email), isEmail) == []
  {
  }

  /** Registration and reset enforce the same rule on the pair of passwords. */
  lemma RegisterAndResetAgreeOnPasswords(email: string, token: string, password: string, repeat: string, isEmail: string -> bool)
    requires isEmail(email) && token != []
    ensures RegisterIssues(RegisterForm(email, password, repeat), isEmail) == [] <==>
      ResetPasswordIssues(ResetPasswordForm(token, password, repeat)) == []
  {
  }

  /** Two equal passwords that are too short give one length issue each and no mismatch. */
  lemma ShortEqualPasswords(email: string, password: string, isEmail: string -> bool)
    requires isEmail(email) && |password| < 6
    ensures RegisterIssues(RegisterForm(email, password, password), isEmail) ==
      [Issue("password", TooShort), Issue("repeatPassword", TooShort)]
  {
  }
}
