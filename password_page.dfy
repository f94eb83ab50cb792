/**
 * The change-password form: two local checks, then the request to
 * `/api/auth/change-password`, and the message shown for each outcome.
 */
module PasswordPage {
  import opened Wrappers
  import opened Text

  datatype Form = Form(currentPassword: string, newPassword: string, confirmPassword: string)

  /** The request body: `{ currentPassword, newPassword }`. */
  datatype ChangeRequest = ChangeRequest(currentPassword: string, newPassword: string)

  /** What the request came back with: no usable reply, or the status and the body's `error`. */
  datatype Reply = NetworkError | Response(ok: bool, error: Option<string>)

  datatype MessageType = Success | Error

  datatype Outcome = Outcome(
    form: Form,
    message: string,
    messageType: MessageType,
    request: Option<ChangeRequest>,  // the request sent, if any
    redirectToLogin: bool
  )

  const MismatchMessage: string := "New passwords do not match"
  const TooShortMessage: string := "New password must be at least 6 characters long"
  const MinLength: nat := 6

  /** The body's `error`, or the generic text when it is absent or empty. */
  function ErrorText(error: Option<string>): (t: string)
    ensures t != []
  {
    if error.Some? && error.value != [] then error.value else "Failed to change password"
  }

  /** `onSubmit` for the form's fields; `reply` is what the request would get back. */
  function OnSubmit(form: Form, reply: Reply): (o: Outcome)
    ensures form.newPassword != form.confirmPassword ==>
              o == Outcome(form, MismatchMessage, Error, None, false)
    ensures form.newPassword == form.confirmPassword && Utf16Length(form.newPassword) < MinLength ==>
              o == Outcome(form, TooShortMessage, Error, None, false)
    ensures o.request.Some? <==> form.newPassword == form.confirmPassword && Utf16Length(form.newPassword) >= MinLength
    ensures o.request.Some? ==> o.request.value == ChangeRequest(form.currentPassword, form.newPassword)
    ensures o.messageType == Success <==> o.request.Some? && reply.Response? && reply.ok
    ensures o.messageType == Success ==>
              o.form == Form("", "", "") && o.message == "Password changed successfully!" && o.redirectToLogin
    ensures o.messageType == Error ==> o.form == form && !o.redirectToLogin
    ensures o.request.Some? && reply.Response? && !reply.ok ==> o.message == ErrorText(reply.error)
    ensures o.request.Some? && reply.NetworkError? ==> o.message == "Error changing password"
  {
    if form.newPassword != form.confirmPassword then
      Outcome(form, MismatchMessage, Error, None, false)
    else if Utf16Length(form.newPassword) < MinLength then
      Outcome(form, TooShortMessage, Error, None, false)
    else
      var request := Some(ChangeRequest(form.currentPassword, form.newPassword));
      match reply
      case NetworkError => Outcome(form, "Error changing password", Error, request, false)
      case Response(ok, error) =>
        if ok then Outcome(Form("", "", ""), "Password changed successfully!", Success, request, true)
        else Outcome(form, ErrorText(error), Error, request, false)
  }

  /** The mismatch check comes first: an unconfirmed short password gets the mismatch message. */
  lemma MismatchCheckedFirst(reply: Reply)
    ensures OnSubmit(Form("old", "abc", "abd"), reply).message == MismatchMessage
  {
  }

  /** Length is counted as JavaScript counts it: two emoji (four UTF-16 units) plus two letters pass. */
  lemma LengthInCodeUnits(reply: Reply)
    ensures OnSubmit(Form("old", "ab\U{1F600}\U{1F600}", "ab\U{1F600}\U{1F600}"), reply).request.Some?
  {
    assert Utf16Length("ab\U{1F600}\U{1F600}") == 6;
  }
}
