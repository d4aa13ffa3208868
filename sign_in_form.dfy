/**
 * `SignInForm` (client/components/organisms/SignInForm.tsx): two fields,
 * an email error and a validity flag recomputed by the validation effect,
 * and the submit guard. The password only has to be non-empty.
 */
module SignInForm {
  import opened Wrappers
  import opened EmailPattern
  import SignUpForm

  /** What `onSubmit` receives. */
  datatype SignInData = SignInData(email: string, password: string)

  /** Lines 26-28, 31: the two rules and the form's validity. */
  predicate FormValid(email: string, password: string)
    ensures FormValid(email, password) <==> WellFormedAddress(email) && password != ""
  {
    MatchesIff(email);
    Matches(email) && |password| > 0
  }

  /** A short password that sign-up refuses is enough to sign in. */
  lemma NoMinimumLength(email: string, password: string)
    requires Matches(email) && 0 < |password| < SignUpForm.MinPasswordLength
    ensures FormValid(email, password)
    ensures !SignUpForm.FormValid(email, password, password)
  {
  }

  /** Every sign-up that may be submitted may also be used to sign in. */
  lemma SignUpImpliesSignIn(email: string, password: string, confirmPassword: string)
    requires SignUpForm.FormValid(email, password, confirmPassword)
    ensures FormValid(email, password)
  {
  }

  /** The component's state. */
  class Form {
    var email: string
    var password: string
    var emailError: Option<string>
    var isFormValid: bool

    /** The effect has run on the current fields; the error message is the one sign-up shows. */
    predicate Valid()
      reads this
    {
      emailError == SignUpForm.EmailError(email) && isFormValid == FormValid(email, password)
    }

    constructor()
      ensures Valid()
      ensures email == "" && password == "" && emailError.None? && !isFormValid
    {
      email, password := "", "";
      emailError := None;
      isFormValid := false;
      SignUpForm.EmptyFormIsQuiet();
    }

    /** The validation effect of lines 25-32. */
    method Revalidate()
      modifies this
      ensures Valid()
      ensures email == old(email) && password == old(password)
    {
      var isEmailValid := Matches(email);
      var isPasswordValid := |password| > 0;
      emailError := if email != "" && !isEmailValid then Some(SignUpForm.InvalidEmail) else None;
      isFormValid := isEmailValid && isPasswordValid;
    }

    method SetEmail(value: string)
      modifies this
      ensures Valid()
      ensures email == value && password == old(password)
    {
      email := value;
      Revalidate();
    }

    method SetPassword(value: string)
      modifies this
      ensures Valid()
      ensures password == value && email == old(email)
    {
      password := value;
      Revalidate();
    }

    /** `handleSubmit`: the data handed to `onSubmit`, if it is called. */
    method HandleSubmit(loading: bool) returns (submitted: Option<SignInData>)
      requires Valid()
      ensures submitted.Some? <==> WellFormedAddress(email) && password != "" && !loading
      ensures submitted.Some? ==> submitted.value == SignInData(email, password)
    {
      MatchesIff(email);
      if !isFormValid || loading {
        return None;
      }
      submitted := Some(SignInData(email, password));
    }
  }
}
