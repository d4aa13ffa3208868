/**
 * `SignUpForm` (client/components/organisms/SignUpForm.tsx): three fields,
 * three error messages and a validity flag that the validation effect
 * recomputes whenever a field changes, and the submit guard.
 */
module SignUpForm {
  import opened Wrappers
  import opened EmailPattern

  const InvalidEmail := "Please enter a valid email address"
  const PasswordTooShort := "Password must be at least 8 characters long"
  const PasswordsDiffer := "Passwords do not match"
  const MinPasswordLength := 8

  /** What `onSubmit` receives. */
  datatype SignUpData = SignUpData(email: string, password: string, confirmPassword: string)

  /** Lines 27-30, 44: the three rules and the form's validity. */
  predicate FormValid(email: string, password: string, confirmPassword: string)
    ensures FormValid(email, password, confirmPassword) <==>
      WellFormedAddress(email) && |password| >= MinPasswordLength && confirmPassword == password
  {
    MatchesIff(email);
    Matches(email) && |password| >= MinPasswordLength
    && password == confirmPassword && |confirmPassword| > 0
  }

  /** Line 32: the email error, shown only for a non-empty invalid email. */
  function EmailError(email: string): (r: Option<string>)
    ensures r.Some? <==> email != "" && !WellFormedAddress(email)
    ensures r.Some? ==> r.value == InvalidEmail
  {
    MatchesIff(email);
    if email != "" && !Matches(email) then Some(InvalidEmail) else None
  }

  /** Lines 33-37: the password error, shown only for a non-empty password shorter than 8. */
  function PasswordError(password: string): (r: Option<string>)
    ensures r.Some? <==> 0 < |password| < MinPasswordLength
    ensures r.Some? ==> r.value == PasswordTooShort
  {
    if password != "" && |password| < MinPasswordLength then Some(PasswordTooShort) else None
  }

  /** Lines 38-42: the confirmation error, shown only for a non-empty confirmation that differs. */
  function ConfirmError(password: string, confirmPassword: string): (r: Option<string>)
    ensures r.Some? <==> confirmPassword != "" && password != confirmPassword
    ensures r.Some? ==> r.value == PasswordsDiffer
  {
    if confirmPassword != "" && password != confirmPassword then Some(PasswordsDiffer) else None
  }

  /** A valid form shows no error at all. */
  lemma ValidFormShowsNoError(email: string, password: string, confirmPassword: string)
    requires FormValid(email, password, confirmPassword)
    ensures EmailError(email).None? && PasswordError(password).None? && ConfirmError(password, confirmPassword).None?
  {
  }

  /** An empty form is invalid yet shows no error. */
  lemma EmptyFormIsQuiet()
    ensures !FormValid("", "", "")
    ensures EmailError("").None? && PasswordError("").None? && ConfirmError("", "").None?
  {
    MatchesIff("");
  }

  /** Some invalid forms show no error either: a password of 8 or more with an empty confirmation. */
  lemma InvalidWithoutError(email: string, password: string)
    requires Matches(email) && |password| >= MinPasswordLength
    ensures !FormValid(email, password, "")
    ensures EmailError(email).None? && PasswordError(password).None? && ConfirmError(password, "").None?
  {
    MatchesIff(email);
  }

  /** The component's state. */
  class Form {
    var email: string
    var password: string
    var confirmPassword: string
    var emailError: Option<string>
    var passwordError: Option<string>
    var confirmPasswordError: Option<string>
    var isFormValid: bool

    /** The effect has run on the current fields. */
    predicate Valid()
      reads this
    {
      emailError == EmailError(email)
      && passwordError == PasswordError(password)
      && confirmPasswordError == ConfirmError(password, confirmPassword)
      && isFormValid == FormValid(email, password, confirmPassword)
    }

    /** The initial state, after the effect's first run. */
    constructor()
      ensures Valid()
      ensures email == "" && password == "" && confirmPassword == ""
      ensures emailError.None? && passwordError.None? && confirmPasswordError.None? && !isFormValid
    {
      email, password, confirmPassword := "", "", "";
      emailError, passwordError, confirmPasswordError := None, None, None;
      isFormValid := false;
      EmptyFormIsQuiet();
    }

    /** The validation effect of lines 26-45. */
    method Revalidate()
      modifies this
      ensures Valid()
      ensures email == old(email) && password == old(password) && confirmPassword == old(confirmPassword)
    {
      var isEmailValid := Matches(email);
      var isPasswordValid := |password| >= MinPasswordLength;
      var isConfirmValid := password == confirmPassword && |confirmPassword| > 0;
      emailError := EmailError(email);
      passwordError := PasswordError(password);
      confirmPasswordError := ConfirmError(password, confirmPassword);
      isFormValid := isEmailValid && isPasswordValid && isConfirmValid;
    }

    method SetEmail(value: string)
      modifies this
      ensures Valid()
      ensures email == value && password == old(password) && confirmPassword == old(confirmPassword)
    {
      email := value;
      Revalidate();
    }

    method SetPassword(value: string)
      modifies this
      ensures Valid()
      ensures password == value && email == old(email) && confirmPassword == old(confirmPassword)
    {
      password := value;
      Revalidate();
    }

    method SetConfirmPassword(value: string)
      modifies this
      ensures Valid()
      ensures confirmPassword == value && email == old(email) && password == old(password)
    {
      confirmPassword := value;
      Revalidate();
    }

    /** `handleSubmit`: the data handed to `onSubmit`, if it is called. */
    method HandleSubmit(loading: bool) returns (submitted: Option<SignUpData>)
      requires Valid()
      ensures submitted.Some? <==>
        WellFormedAddress(email) && |password| >= MinPasswordLength && password == confirmPassword && !loading
      ensures submitted.Some? ==> submitted.value == SignUpData(email, password, confirmPassword)
    {
      MatchesIff(email);
      if !isFormValid || loading {
        return None;
      }
      submitted := Some(SignUpData(email, password, confirmPassword));
    }
  }
}
