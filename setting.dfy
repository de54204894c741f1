/**
 * The change-password form: an ordered validation (matching first, then the
 * minimum length), the request built from an accepted submission, the reset
 * of both fields after success and the live requirement indicators.
 */
module Setting {
  import opened Common

  const MinLength := 8
  const MismatchText := "Passwords do not match"
  const TooShortText := "Password must be at least 8 characters long"
  const UpdatedText := "Password updated successfully!"
  const FailedText := "Failed to update password"

  /** The verdict of the client-side checks on a submission. */
  datatype Verdict = Mismatch | TooShort | Accepted

  /** The "At least 8 characters long" indicator. */
  predicate LengthMet(newPassword: string) {
    |newPassword| >= MinLength
  }

  /** The "Passwords match" indicator. */
  predicate MatchMet(newPassword: string, rePassword: string) {
    newPassword == rePassword && |rePassword| > 0
  }

  /** Mismatch is reported before length; both checks pass exactly when both indicators are on. */
  function Validate(newPassword: string, rePassword: string): (v: Verdict)
    ensures v == Mismatch <==> newPassword != rePassword
    ensures v == TooShort <==> newPassword == rePassword && !LengthMet(newPassword)
    ensures v == Accepted <==> LengthMet(newPassword) && MatchMet(newPassword, rePassword)
  {
    if newPassword != rePassword then Mismatch
    else if |newPassword| < MinLength then TooShort
    else Accepted
  }

  /** The message toasted for a rejected submission. */
  function RejectionText(v: Verdict): (text: string)
    requires v != Accepted
    ensures text == (if v == Mismatch then MismatchText else TooShortText)
  {
    match v
    case Mismatch => MismatchText
    case TooShort => TooShortText
  }

  /**
   * A rejection's message tells which check failed: the mismatch message
   * exactly when the passwords differ, the length message exactly when they
   * agree but are short, and in either case the indicator it names is off.
   */
  lemma RejectionExplains(newPassword: string, rePassword: string)
    requires Validate(newPassword, rePassword) != Accepted
    ensures RejectionText(Validate(newPassword, rePassword)) == MismatchText <==> newPassword != rePassword
    ensures RejectionText(Validate(newPassword, rePassword)) == TooShortText <==>
              newPassword == rePassword && !LengthMet(newPassword)
    ensures RejectionText(Validate(newPassword, rePassword)) == MismatchText ==> !MatchMet(newPassword, rePassword)
    ensures RejectionText(Validate(newPassword, rePassword)) == TooShortText ==> !LengthMet(newPassword)
  {
  }

  /** The body of the PUT request; `email` is whatever local storage holds. */
  datatype UpdateRequest = UpdateRequest(email: Option<string>, newPassword: string)

  /** The reply to the request: success, or a failure with the server's optional message. */
  datatype Reply = Updated | Failed(serverMessage: Option<string>)

  datatype Notice = Success(text: string) | Error(text: string)

  /** What a submission does before the request is awaited. */
  datatype Submission = Rejected(notice: Notice) | Sending(request: UpdateRequest)

  class PasswordForm {
    var newPassword: string
    var rePassword: string
    var isLoading: bool

    constructor ()
      ensures newPassword == "" && rePassword == "" && !isLoading
    {
      newPassword := "";
      rePassword := "";
      isLoading := false;
    }

    method SetNewPassword(value: string)
      modifies this`newPassword
      ensures newPassword == value
    {
      newPassword := value;
    }

    method SetRePassword(value: string)
      modifies this`rePassword
      ensures rePassword == value
    {
      rePassword := value;
    }

    /**
     * The synchronous part of the submit handler: a rejected submission only
     * reports its reason; an accepted one raises `isLoading` and sends the
     * new password with the stored email.
     */
    method Submit(storedEmail: Option<string>) returns (s: Submission)
      modifies this`isLoading
      ensures s.Sending? <==> Validate(newPassword, rePassword) == Accepted
      ensures s.Rejected? ==>
                s.notice == Error(RejectionText(Validate(newPassword, rePassword))) && isLoading == old(isLoading)
      ensures s.Sending? ==> isLoading && s.request == UpdateRequest(storedEmail, newPassword)
    {
      var v := Validate(newPassword, rePassword);
      if v != Accepted {
        return Rejected(Error(RejectionText(v)));
      }
      isLoading := true;
      s := Sending(UpdateRequest(storedEmail, newPassword));
    }

    /**
     * The part after the request settles: success clears both fields, a
     * failure keeps them and shows the server's message or a default; the
     * loading flag drops either way.
     */
    method Complete(reply: Reply) returns (notice: Notice)
      modifies this
      ensures !isLoading
      ensures reply == Updated ==> newPassword == "" && rePassword == "" && notice == Success(UpdatedText)
      ensures reply.Failed? ==>
                newPassword == old(newPassword) && rePassword == old(rePassword)
                && notice == Error(OrElse(reply.serverMessage, FailedText))
    {
      match reply {
        case Updated =>
          notice := Success(UpdatedText);
          newPassword := "";
          rePassword := "";
        case Failed(message) =>
          notice := Error(OrElse(message, FailedText));
      }
      isLoading := false;
    }
  }
}
