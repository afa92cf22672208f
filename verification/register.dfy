/** The registration form's submit handler: two checks in a fixed order,
    then one call to `register`, whose outcome is a parameter. The
    redirect to the login page two seconds after success is recorded as a
    flag. */
module RegisterForm {

  datatype Form = Form(username: string, email: string, password: string, confirmPassword: string, dateOfBirth: string)

  /** The call `register(username, password, email, dob)`; the date of
      birth is passed as the entered text, its `Date` parsing is not
      modelled. */
  datatype RegisterCall = RegisterCall(username: string, password: string, email: string, dob: string)

  /** What `register` does: resolves, or throws an error whose message
      may be empty. */
  datatype RegisterResult = Registered | Failed(message: string)

  /** The form's visible state after a submit. */
  datatype Submitted = Submitted(error: string, success: string, loading: bool, calls: seq<RegisterCall>, redirect: bool)

  const MismatchError := "Passwords don't match"
  const DobError := "Date of birth is required"
  const FallbackError := "Registration failed. Please try again."
  const SuccessMessage := "Đăng ký thành công! Đang chuyển hướng đến trang đăng nhập..."

  /** `handleSubmit`, from a form that shows `error` and `success`. */
  function HandleSubmit(f: Form, error: string, success: string, result: RegisterResult): (s: Submitted)
    ensures !s.loading
    ensures f.password != f.confirmPassword ==>
      s == Submitted(MismatchError, success, false, [], false)
    ensures f.password == f.confirmPassword && f.dateOfBirth == "" ==>
      s == Submitted(DobError, success, false, [], false)
    ensures |s.calls| == 1 <==> f.password == f.confirmPassword && f.dateOfBirth != ""
    ensures |s.calls| == 1 ==> s.calls[0] == RegisterCall(f.username, f.password, f.email, f.dateOfBirth)
    ensures |s.calls| == 1 && result == Registered ==> s.error == "" && s.success == SuccessMessage && s.redirect
    ensures |s.calls| == 1 && result.Failed? ==>
      (s.success == "" && !s.redirect
       && s.error == (if result.message != "" then result.message else FallbackError))
  {
    if f.password != f.confirmPassword then Submitted(MismatchError, success, false, [], false)
    else if f.dateOfBirth == "" then Submitted(DobError, success, false, [], false)
    else
      var call := RegisterCall(f.username, f.password, f.email, f.dateOfBirth);
      match result
      case Registered => Submitted("", SuccessMessage, false, [call], true)
      case Failed(m) => Submitted(if m != "" then m else FallbackError, "", false, [call], false)
  }

  /** The password check comes first: a form with both problems reports
      the mismatch. */
  lemma MismatchWins(f: Form, error: string, success: string, result: RegisterResult)
    requires f.password != f.confirmPassword && f.dateOfBirth == ""
    ensures HandleSubmit(f, error, success, result).error == MismatchError
  {
  }

  /** Unless the backend's own message happens to read like one of the
      form's, `register` is called exactly when the form shows no
      validation error. */
  lemma CalledIffValid(f: Form, error: string, success: string, result: RegisterResult)
    requires result.Failed? ==> result.message != MismatchError && result.message != DobError
    ensures var s := HandleSubmit(f, error, success, result);
      |s.calls| == 1 <==> s.error != MismatchError && s.error != DobError
  {
  }
}
