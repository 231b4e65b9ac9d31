/**
 * The sign-in page: its field validators, the order in which it reports the first failing one,
 * the mapping of backend error messages to friendly ones, and the sign-in, sign-up and
 * password-reset handlers. A backend call is an input saying how it ended; each handler returns
 * the call it issued, if any, so that its arguments can be stated.
 */
module LoginPage {
  import opened Wrappers
  import opened JsString
  import Security

  /** The roles the sign-up form offers; `admin` is not among them. */
  const RoleOptions: seq<string> := ["researcher", "regulator", "consultant", "public"]

  /** The form offers exactly four roles, `public`, its default, among them; `admin` is not one. */
  lemma RoleOptionsFacts(r: string)
    ensures r in RoleOptions <==> r == "researcher" || r == "regulator" || r == "consultant" || r == "public"
    ensures "public" in RoleOptions && "admin" !in RoleOptions
  {
  }

  const InvalidEmailMessage := "Please enter a valid email address"
  const ShortPasswordMessage := "Password must be at least 8 characters long"
  const MissingNameMessage := "Please enter your full name"
  const MissingOrganizationMessage := "Please enter your organization"
  const UnexpectedLoginMessage := "An unexpected error occurred. Please try again."
  const UnexpectedMessage := "An unexpected error occurred"
  const LoginSuccessMessage := "Login successful! Redirecting..."
  const SignUpSuccessMessage :=
    "Account created successfully! Please check your email for verification. "
    + "After email verification, your account will be reviewed by an administrator. "
    + "You will receive an email when your account is approved."
  const ResetSuccessMessage := "Password reset email sent! Please check your inbox."

  /** `validatePassword`: at least eight characters. */
  predicate ValidPassword(p: string) {
    |p| >= 8
  }

  /** `validateName` and `validateOrganization`: at least two characters once trimmed. */
  predicate ValidName(n: string) {
    |Trim(n)| >= 2
  }

  /** A name is valid exactly when it has two characters that are not white space. */
  lemma ValidNameIff(n: string)
    ensures ValidName(n) <==> exists i, j :: 0 <= i < j < |n| && !IsSpace(n[i]) && !IsSpace(n[j])
  {
    TrimAtLeastTwo(n);
  }

  /** `searchParams.get('redirectTo') || '/settings'`. */
  function RedirectTo(param: Option<string>): (r: string)
    ensures param.Some? && param.value != "" ==> r == param.value
    ensures param.None? || param.value == "" ==> r == "/settings"
  {
    if param.Some? && param.value != "" then param.value else "/settings"
  }

  /** The message of the first check `handleLogin` fails: the email, then the password. */
  function LoginCheck(email: string, password: string): (r: Option<string>)
    ensures r.None? <==> Security.ValidateEmail(email) && ValidPassword(password)
    ensures !Security.ValidateEmail(email) ==> r == Some(InvalidEmailMessage)
    ensures Security.ValidateEmail(email) && !ValidPassword(password) ==> r == Some(ShortPasswordMessage)
  {
    if !Security.ValidateEmail(email) then Some(InvalidEmailMessage)
    else if !ValidPassword(password) then Some(ShortPasswordMessage)
    else None
  }

  /** The message of the first check `handleSignUp` fails: the two of sign-in, then name, then organisation. */
  function SignUpCheck(email: string, password: string, fullName: string, organization: string): (r: Option<string>)
    ensures r.None? <==>
      Security.ValidateEmail(email) && ValidPassword(password) && ValidName(fullName) && ValidName(organization)
  {
    var first := LoginCheck(email, password);
    if first.Some? then first
    else if !ValidName(fullName) then Some(MissingNameMessage)
    else if !ValidName(organization) then Some(MissingOrganizationMessage)
    else None
  }

  /** Sign-up reports the sign-in checks' message first, then the name's, then the organisation's. */
  lemma SignUpCheckOrder(email: string, password: string, fullName: string, organization: string)
    ensures LoginCheck(email, password).Some? ==> SignUpCheck(email, password, fullName, organization) == LoginCheck(email, password)
    ensures LoginCheck(email, password).None? && !ValidName(fullName) ==>
      SignUpCheck(email, password, fullName, organization) == Some(MissingNameMessage)
    ensures (LoginCheck(email, password).None? && ValidName(fullName) && !ValidName(organization)) ==>
      SignUpCheck(email, password, fullName, organization) == Some(MissingOrganizationMessage)
  {
  }

  /** The message shown for a sign-in error; the first listed phrase the backend message contains wins. */
  function LoginErrorMessage(message: string): (r: string)
    ensures Includes(message, "Invalid login credentials") ==> r == "Invalid email or password. Please try again."
    ensures !Includes(message, "Invalid login credentials") && Includes(message, "Email not confirmed") ==>
      r == "Please check your email and click the confirmation link before signing in."
    ensures (!Includes(message, "Invalid login credentials") && !Includes(message, "Email not confirmed")
             && Includes(message, "User not found")) ==>
      r == "Account not found. Please check your email or create a new account."
    ensures (!Includes(message, "Invalid login credentials") && !Includes(message, "Email not confirmed")
             && !Includes(message, "User not found")) ==> r == message
  {
    if Includes(message, "Invalid login credentials") then "Invalid email or password. Please try again."
    else if Includes(message, "Email not confirmed") then
      "Please check your email and click the confirmation link before signing in."
    else if Includes(message, "User not found") then
      "Account not found. Please check your email or create a new account."
    else message
  }

  /** How a backend auth call ended: without an error, with an error message, or by throwing. */
  datatype AuthAnswer = AuthOk | AuthError(message: string) | AuthThrew

  /** What `signUp` answered: the new user's id if any, an error message, or an exception. */
  datatype SignUpAnswer = SignedUp(userId: Option<string>) | SignUpError(message: string) | SignUpThrew

  /** How the profile insert ended; its error is logged and otherwise ignored. */
  datatype InsertOutcome = Inserted | InsertError | InsertThrew

  /** The user metadata `signUp` sends. */
  datatype SignUpCall = SignUpCall(email: string, password: string, fullName: string, organization: string,
                                   role: string, status: string)

  /** The row inserted into `user_profiles`. */
  datatype ProfileInsert = ProfileInsert(userId: Option<string>, email: string, fullName: string,
                                         organization: string, role: string, status: string)

  class LoginForm {
    var email: string
    var password: string
    var fullName: string
    var organization: string
    var role: string
    var loading: bool
    var error: string
    var success: string
    var isSignUpMode: bool
    var isResetMode: bool

    /** The chosen role is always one the form offers. */
    predicate Valid()
      reads this
    {
      role in RoleOptions
    }

    constructor ()
      ensures email == "" && password == "" && fullName == "" && organization == ""
      ensures role == "public" && !loading && error == "" && success == ""
      ensures !isSignUpMode && !isResetMode
      ensures Valid()
    {
      email, password, fullName, organization := "", "", "", "";
      role, loading, error, success := "public", false, "", "";
      isSignUpMode, isResetMode := false, false;
    }

    /** The role selector; it can only pick one of the offered roles. It also clears the messages. */
    method SelectRole(value: string)
      requires value in RoleOptions
      modifies this
      ensures role == value && error == "" && success == ""
      ensures email == old(email) && password == old(password) && fullName == old(fullName)
      ensures organization == old(organization) && isSignUpMode == old(isSignUpMode)
      ensures Valid()
    {
      role, error, success := value, "", "";
    }

    /** The plain test dropdown next to the selector: it sets the role and nothing else. */
    method PickTestRole(value: string)
      requires value in RoleOptions
      modifies this
      ensures role == value && error == old(error) && success == old(success)
      ensures email == old(email) && password == old(password) && fullName == old(fullName)
      ensures organization == old(organization) && isSignUpMode == old(isSignUpMode)
      ensures loading == old(loading) && isResetMode == old(isResetMode)
      ensures Valid()
    {
      role := value;
    }

    /**
     * `handleLogin`: the first failing check is reported and nothing is sent; otherwise the
     * credentials are sent, and success navigates to `redirectTo`.
     */
    method HandleLogin(redirectParam: Option<string>, answer: AuthAnswer)
      returns (sent: Option<(string, string)>, navigate: Option<string>)
      modifies this
      ensures LoginCheck(old(email), old(password)).Some? ==>
        sent.None? && navigate.None? && error == LoginCheck(old(email), old(password)).value && success == ""
      ensures LoginCheck(old(email), old(password)).None? ==> sent == Some((old(email), old(password)))
      ensures navigate.Some? <==> sent.Some? && answer.AuthOk?
      ensures navigate.Some? ==> navigate.value == RedirectTo(redirectParam) && success == LoginSuccessMessage && error == ""
      ensures sent.Some? && answer.AuthError? ==> error == LoginErrorMessage(answer.message) && success == ""
      ensures sent.Some? && answer.AuthThrew? ==> error == UnexpectedLoginMessage && success == ""
      ensures email == old(email) && password == old(password) && fullName == old(fullName)
      ensures organization == old(organization) && role == old(role)
      ensures isSignUpMode == old(isSignUpMode) && isResetMode == old(isResetMode)
      ensures !loading
    {
      loading, error, success := true, "", "";
      var problem := LoginCheck(email, password);
      if problem.Some? {
        error, loading := problem.value, false;
        return None, None;
      }
      sent := Some((email, password));
      navigate := None;
      match answer {
        case AuthError(message) =>
          error := LoginErrorMessage(message);
        case AuthOk =>
          success := LoginSuccessMessage;
          navigate := Some(RedirectTo(redirectParam));
        case AuthThrew =>
          error := UnexpectedLoginMessage;
      }
      loading := false;
    }

    /**
     * `handleSignUp`: after the four checks, registers the account with status
     * `pending_approval` whatever role was chosen, then inserts the matching profile row.
     */
    method HandleSignUp(answer: SignUpAnswer, insert: InsertOutcome)
      returns (problem: Option<string>, signUp: Option<SignUpCall>, profile: Option<ProfileInsert>)
      requires Valid()
      modifies this
      ensures problem == SignUpCheck(old(email), old(password), old(fullName), old(organization))
      ensures problem.Some? ==> signUp.None? && profile.None? && success == "" && error == problem.value
      ensures problem.None? ==>
        signUp == Some(SignUpCall(old(email), old(password), old(fullName), old(organization), old(role), "pending_approval"))
      ensures signUp.Some? ==> signUp.value.role in RoleOptions && signUp.value.role != "admin"
      ensures profile.Some? <==> signUp.Some? && answer.SignedUp?
      ensures profile.Some? ==>
        profile.value == ProfileInsert(answer.userId, old(email), old(fullName), old(organization), old(role), "pending_approval")
      ensures signUp.None? ==>
        email == old(email) && password == old(password) && fullName == old(fullName)
        && organization == old(organization) && role == old(role) && isSignUpMode == old(isSignUpMode)
      ensures isResetMode == old(isResetMode) && !loading
      ensures Valid()
    {
      problem := SignUpCheck(email, password, fullName, organization);
      loading, error, success := true, "", "";
      if problem.Some? {
        error, loading := problem.value, false;
        return problem, None, None;
      }
      RoleOptionsFacts("admin");
      signUp := Some(SignUpCall(email, password, fullName, organization, role, "pending_approval"));
      profile := Register(answer, insert);
    }

    /**
     * The part of `handleSignUp` after the checks pass. A failed insert is not shown; success
     * clears the form and returns to sign-in mode; a thrown exception shows a generic message.
     */
    method Register(answer: SignUpAnswer, insert: InsertOutcome) returns (profile: Option<ProfileInsert>)
      requires Valid()
      modifies this
      ensures profile.Some? <==> answer.SignedUp?
      ensures profile.Some? ==>
        profile.value == ProfileInsert(answer.userId, old(email), old(fullName), old(organization), old(role), "pending_approval")
      ensures answer.SignUpError? ==> error == answer.message && success == old(success)
      ensures answer.SignUpThrew? || (answer.SignedUp? && insert == InsertThrew) ==>
        error == UnexpectedMessage && success == old(success)
      ensures answer.SignedUp? && insert != InsertThrew ==>
        success == SignUpSuccessMessage && error == old(error)
        && email == "" && password == "" && fullName == "" && organization == ""
        && role == "public" && !isSignUpMode
      ensures !(answer.SignedUp? && insert != InsertThrew) ==>
        email == old(email) && password == old(password) && fullName == old(fullName)
        && organization == old(organization) && role == old(role) && isSignUpMode == old(isSignUpMode)
      ensures isResetMode == old(isResetMode) && !loading
      ensures Valid()
    {
      profile := None;
      match answer {
        case SignUpThrew =>
          error := UnexpectedMessage;
        case SignUpError(message) =>
          error := message;
        case SignedUp(userId) =>
          profile := Some(ProfileInsert(userId, email, fullName, organization, role, "pending_approval"));
          if insert == InsertThrew {
            error := UnexpectedMessage;
          } else {
            success := SignUpSuccessMessage;
            email, password, fullName, organization := "", "", "", "";
            RoleOptionsFacts("admin");
            role, isSignUpMode := "public", false;
          }
      }
      loading := false;
    }

    /** `handlePasswordReset`: checks the email, asks for a reset mail, and leaves reset mode on success. */
    method HandlePasswordReset(answer: AuthAnswer) returns (sent: Option<string>)
      modifies this
      ensures !Security.ValidateEmail(old(email)) ==> sent.None? && error == InvalidEmailMessage && success == ""
      ensures Security.ValidateEmail(old(email)) ==> sent == Some(old(email))
      ensures sent.Some? && answer.AuthOk? ==> success == ResetSuccessMessage && error == "" && !isResetMode
      ensures sent.Some? && answer.AuthError? ==> error == answer.message && success == ""
      ensures sent.Some? && answer.AuthThrew? ==> error == UnexpectedMessage && success == ""
      ensures !(sent.Some? && answer.AuthOk?) ==> isResetMode == old(isResetMode)
      ensures email == old(email) && password == old(password) && role == old(role)
      ensures isSignUpMode == old(isSignUpMode) && !loading
    {
      loading, error, success := true, "", "";
      if !Security.ValidateEmail(email) {
        error, loading := InvalidEmailMessage, false;
        return None;
      }
      sent := Some(email);
      match answer {
        case AuthError(message) =>
          error := message;
        case AuthOk =>
          success := ResetSuccessMessage;
          isResetMode := false;
        case AuthThrew =>
          error := UnexpectedMessage;
      }
      loading := false;
    }
  }
}
