/**
 * The sign-up form of frontend/src/pages/SignUpPage.jsx: a record of four
 * fields edited one at a time, an ordered validation chain that reports only
 * its first failure, and the `isLoading` flag around the `signup` call, which
 * is a parameter of the model.
 */
module SignUpPage {
  import opened Wrappers
  import Text

  datatype Field = FullName | Email | Password | ConfirmPassword

  datatype FormData = FormData(fullName: string, email: string, password: string, confirmPassword: string)
  {
    function Get(f: Field): string
    {
      match f
      case FullName => fullName
      case Email => email
      case Password => password
      case ConfirmPassword => confirmPassword
    }
  }

  const RequiredError := "Please fill all the required fields"
  const MismatchError := "Passwords do not match"
  const LengthError := "Password must be at least 6 characters long"
  const MinPasswordLength: nat := 6

  /** `{ ...formData, [name]: value }`: the named field takes the value and the others stay. */
  function HandleChange(form: FormData, field: Field, value: string): (r: FormData)
    ensures r.Get(field) == value
    ensures forall g: Field :: g != field ==> r.Get(g) == form.Get(g)
  {
    match field
    case FullName => form.(fullName := value)
    case Email => form.(email := value)
    case Password => form.(password := value)
    case ConfirmPassword => form.(confirmPassword := value)
  }

  /**
   * The checks of `handleSubmit`, in order: a missing full name, email or
   * password; then a confirmation that differs; then a password shorter than
   * six code units. Only the first failure is reported.
   */
  function Validate(form: FormData): (r: Option<string>)
    ensures r.None? <==> && form.fullName != "" && form.email != "" && form.password != ""
                         && form.password == form.confirmPassword && |Text.Utf16(form.password)| >= MinPasswordLength
    ensures (form.fullName == "" || form.email == "" || form.password == "") ==> r == Some(RequiredError)
    ensures (form.fullName != "" && form.email != "" && form.password != "" && form.password != form.confirmPassword)
              ==> r == Some(MismatchError)
    ensures (form.fullName != "" && form.email != "" && form.password != "" && form.password == form.confirmPassword
             && |Text.Utf16(form.password)| < MinPasswordLength) ==> r == Some(LengthError)
  {
    if form.fullName == "" || form.email == "" || form.password == "" then Some(RequiredError)
    else if form.password != form.confirmPassword then Some(MismatchError)
    else if |Text.Utf16(form.password)| < 6 then Some(LengthError)
    else None
  }

  /**
   * An empty confirmation with a password filled in fails the match check,
   * not the required-fields check; a six-character password passes the
   * length check and a five-character one does not.
   */
  lemma ValidateExamples()
    ensures Validate(FormData("Ada", "a@b.c", "secret", "")) == Some(MismatchError)
    ensures Validate(FormData("Ada", "a@b.c", "secret", "secret")) == None
    ensures Validate(FormData("Ada", "a@b.c", "short", "short")) == Some(LengthError)
    ensures Validate(FormData("", "a@b.c", "x", "y")) == Some(RequiredError)
  {
    assert |Text.Utf16("secret")| == 6;
    assert |Text.Utf16("short")| == 5;
  }

  /** What `signup(formData)` settled with. */
  datatype SignupOutcome = Resolved(success: bool) | ResolvedEmpty | Threw(message: string)

  class SignUpForm {
    var formData: FormData
    var isLoading: bool
    var showPassword: bool
    /** The form data passed to `signup`, oldest first. */
    var signupCalls: seq<FormData>

    constructor ()
      ensures formData == FormData("", "", "", "") && !isLoading && !showPassword && signupCalls == []
    {
      formData, isLoading, showPassword, signupCalls := FormData("", "", "", ""), false, false, [];
    }

    method Change(field: Field, value: string)
      modifies this`formData
      ensures formData == HandleChange(old(formData), field, value)
    {
      formData := HandleChange(formData, field, value);
    }

    method TogglePasswordVisibility()
      modifies this`showPassword
      ensures showPassword == !old(showPassword)
    {
      showPassword := !showPassword;
    }

    /**
     * `handleSubmit` up to the `await`: a validation failure is reported, resets
     * `isLoading` and calls nothing; otherwise the form is handed to `signup`
     * and `isLoading` stays on.
     */
    method SubmitBegin() returns (error: Option<string>)
      modifies this`isLoading, this`signupCalls
      ensures error == Validate(formData)
      ensures isLoading <==> error.None?
      ensures signupCalls == if error.None? then old(signupCalls) + [formData] else old(signupCalls)
    {
      isLoading := true;
      error := Validate(formData);
      if error.Some? {
        isLoading := false;
        return;
      }
      signupCalls := signupCalls + [formData];
    }

    /**
     * `handleSubmit` once `signup` settles: only a successful result leaves
     * `isLoading` on; a throw is reported with its message or a default.
     */
    method SubmitResolve(outcome: SignupOutcome) returns (toast: Option<string>)
      modifies this`isLoading
      ensures isLoading == if outcome == Resolved(true) then old(isLoading) else false
      ensures toast == match outcome
                       case Threw(m) => Some(if m != "" then m else "Failed to create account")
                       case _ => None
    {
      match outcome {
        case Resolved(success) =>
          if !success { isLoading := false; }
          toast := None;
        case ResolvedEmpty =>
          isLoading := false;
          toast := None;
        case Threw(m) =>
          isLoading := false;
          toast := Some(if m != "" then m else "Failed to create account");
      }
    }
  }
}
