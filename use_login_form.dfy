/**
 * The login form's submit handler: where a successful login redirects to, and which feedback a
 * failed login shows. The hook's feedback is a field that submit clears and then sets; login
 * itself is an input, nothing when it resolves and what it threw otherwise.
 */
module UseLoginForm {
  import opened Wrappers
  import opened Text
  import ApiClient
  import AuthSchemas

  const DefaultRedirect: string := "/plan"
  const InvalidCredentials: string := "Ugyldig e-post eller passord."
  const UnknownUser: string := "Brukeren finnes ikke."
  const ServerTrouble: string := "Kunne ikke logge inn. Sjekk e-post og passord, eller prøv igjen senere."
  const LoginFailed: string := "Innlogging feilet."

  /** A link shown under the message. */
  datatype FeedbackAction = FeedbackAction(to: string, caption: string)

  /** Every feedback of this form has the error variant. */
  datatype Feedback = Feedback(message: string, action: Option<FeedbackAction>)

  /** redirectTarget || '/plan': the page the login came from, unless there is none or it is empty. */
  function RedirectTo(from: Option<string>): (r: string)
    ensures from.Some? && from.value != "" ==> r == from.value
    ensures from.None? || from.value == "" ==> r == DefaultRedirect
  {
    if from.Some? && from.value != "" then from.value else DefaultRedirect
  }

  /** The feedback for what login threw: 401, 404 and server errors by status, anything else by its message. */
  function LoginFeedback(err: ApiClient.Thrown): (r: Feedback)
    ensures err.ApiErrorThrown? && err.error.status == 401 ==> r == Feedback(InvalidCredentials, None)
    ensures err.ApiErrorThrown? && err.error.status == 404 ==>
      r == Feedback(UnknownUser, Some(FeedbackAction("/register", "Registrer deg her.")))
    ensures err.ApiErrorThrown? && err.error.status >= 500 && Contains(ToLower(err.error.message), "invalid email or password") ==>
      r == Feedback(InvalidCredentials, None)
    ensures err.ApiErrorThrown? && err.error.status >= 500 && !Contains(ToLower(err.error.message), "invalid email or password") ==>
      r == Feedback(ServerTrouble, Some(FeedbackAction("/register", "Opprett bruker")))
    ensures !(err.ApiErrorThrown? && (err.error.status in {401, 404} || err.error.status >= 500)) ==>
      r == Feedback(ApiClient.GetErrorMessage(err, Some(LoginFailed)), None)
  {
    if err.ApiErrorThrown? && err.error.status == 401 then Feedback(InvalidCredentials, None)
    else if err.ApiErrorThrown? && err.error.status == 404 then Feedback(UnknownUser, Some(FeedbackAction("/register", "Registrer deg her.")))
    else if err.ApiErrorThrown? && err.error.status >= 500 then
      if Contains(ToLower(err.error.message), "invalid email or password") then Feedback(InvalidCredentials, None)
      else Feedback(ServerTrouble, Some(FeedbackAction("/register", "Opprett bruker")))
    else Feedback(ApiClient.GetErrorMessage(err, Some(LoginFailed)), None)
  }

  /** An ApiError gets a link to the registration page exactly for 404 and for server errors that are not about the credentials. */
  lemma RegisterLinkCases(error: ApiClient.ApiError)
    ensures LoginFeedback(ApiClient.ApiErrorThrown(error)).action.Some? <==>
      error.status == 404 || (error.status >= 500 && !Contains(ToLower(error.message), "invalid email or password"))
    ensures LoginFeedback(ApiClient.ApiErrorThrown(error)).action.Some? ==>
      LoginFeedback(ApiClient.ApiErrorThrown(error)).action.value.to == "/register"
  {
  }

  /** A server error naming bad credentials reads as rejected credentials, whatever the letter case. */
  lemma ServerErrorAboutCredentials(status: int, before: string, after: string)
    requires status >= 500
    ensures LoginFeedback(ApiClient.ApiErrorThrown(ApiClient.ApiError(before + "Invalid Email or Password" + after, status, None))) ==
      Feedback(InvalidCredentials, None)
  {
    ContainsLowered(before, "Invalid Email or Password", after);
    LowerCredentialsPhrase();
  }

  lemma LowerCredentialsPhrase()
    ensures ToLower("Invalid Email or Password") == "invalid email or password"
  {
  }

  /** The feedback a submit leaves: nothing after a successful login, the failure's feedback otherwise. */
  function FeedbackAfterSubmit(loginFailure: Option<ApiClient.Thrown>): (r: Option<Feedback>)
    ensures loginFailure.None? <==> r.None?
    ensures loginFailure.Some? ==> r == Some(LoginFeedback(loginFailure.value))
  {
    if loginFailure.None? then None else Some(LoginFeedback(loginFailure.value))
  }

  /** What onSubmit hands to login: the credentials and the page to go to afterwards. */
  datatype LoginCall = LoginCall(email: string, password: string, redirectTo: string)

  /**
   * The hook's state: the feedback it shows and every value setFeedback was given, in order.
   * redirectTarget is location.state.from, fixed while the hook lives.
   */
  class LoginFormHook {
    const redirectTarget: Option<string>
    var feedback: Option<Feedback>
    var shown: seq<Option<Feedback>>

    /** useState(null): no feedback yet. */
    constructor (from: Option<string>)
      ensures redirectTarget == from && feedback.None? && shown == []
    {
      redirectTarget := from;
      feedback := None;
      shown := [];
    }

    /** setFeedback. */
    method SetFeedback(f: Option<Feedback>)
      modifies this
      ensures feedback == f && shown == old(shown) + [f]
    {
      feedback := f;
      shown := shown + [f];
    }

    /**
     * onSubmit: handleSubmit runs the handler only for values the login schema accepts. The handler
     * clears the feedback, calls login, and on a failure sets the failure's feedback. `loginFailure`
     * is what login threw, nothing when it resolved; `call` is the login call made, if any.
     */
    method Submit(values: AuthSchemas.LoginForm, isEmail: string -> bool, loginFailure: Option<ApiClient.Thrown>)
      returns (call: Option<LoginCall>)
      modifies this
      ensures AuthSchemas.LoginIssues(values, isEmail) != [] ==>
        call.None? && feedback == old(feedback) && shown == old(shown)
      ensures AuthSchemas.LoginIssues(values, isEmail) == [] ==>
        call == Some(LoginCall(values.email, values.password, RedirectTo(redirectTarget)))
      ensures AuthSchemas.LoginIssues(values, isEmail) == [] ==>
        feedback == FeedbackAfterSubmit(loginFailure)
      ensures AuthSchemas.LoginIssues(values, isEmail) == [] ==>
        shown == old(shown) + ShownBySubmit(loginFailure)
    {
      if AuthSchemas.LoginIssues(values, isEmail) != [] {
        return None;
      }
      SetFeedback(None);
      call := Some(LoginCall(values.email, values.password, RedirectTo(redirectTarget)));
      if loginFailure.Some? {
        SetFeedback(Some(LoginFeedback(loginFailure.value)));
      }
    }
  }

  /**
   * The values one accepted submit passes to setFeedback: it first clears what an earlier attempt
   * showed, and ends showing exactly the feedback of its own outcome.
   */
  function ShownBySubmit(loginFailure: Option<ApiClient.Thrown>): (r: seq<Option<Feedback>>)
    ensures 1 <= |r| <= 2 && r[0].None?
    ensures r[|r| - 1] == FeedbackAfterSubmit(loginFailure)
  {
    [None] + (if loginFailure.Some? then [Some(LoginFeedback(loginFailure.value))] else [])
  }
}
