/**
 * The change-password form of the settings page (app/settings/page.tsx).
 *
 * `handleSubmit` resets the messages, checks the two new-password fields on
 * the client and only then posts the request; the response then sets either
 * the success flag (clearing the three fields) or the error message. The
 * request itself is I/O: the submit is split at the `await` into the part
 * before the request and the part handling its outcome.
 */
module Settings {
  import opened Wrappers

  const MismatchMessage: string := "New passwords do not match"
  const TooShortMessage: string := "Password must be at least 6 characters long"
  const DefaultFailureMessage: string := "Failed to change password"
  const MinLength: nat := 6

  /** `String.prototype.length`: the number of UTF-16 code units. */
  function Utf16Length(s: string): (n: nat)
    ensures |s| <= n <= 2 * |s|
    ensures (forall i :: 0 <= i < |s| ==> s[i] as int < 0x1_0000) ==> n == |s|
    ensures |s| == 1 ==> n == (if s[0] as int < 0x1_0000 then 1 else 2)
  {
    if s == [] then 0
    else (if s[0] as int < 0x1_0000 then 1 else 2) + Utf16Length(s[1..])
  }

  /** The client-side checks, in their order: the error they report, if any. */
  function ValidationError(newPassword: string, confirmPassword: string): (e: Option<string>)
    ensures e.None? <==> newPassword == confirmPassword && Utf16Length(newPassword) >= MinLength
    ensures newPassword != confirmPassword ==> e == Some(MismatchMessage)
    ensures newPassword == confirmPassword && Utf16Length(newPassword) < MinLength ==> e == Some(TooShortMessage)
  {
    if newPassword != confirmPassword then Some(MismatchMessage)
    else if Utf16Length(newPassword) < MinLength then Some(TooShortMessage)
    else None
  }

  /** The JSON body the request carries. */
  datatype PasswordChange = PasswordChange(currentPassword: string, newPassword: string)

  /**
   * How the request ends: a response with its `ok` flag and the `error` field
   * of its JSON body, or an exception (network failure, a body that is not
   * JSON) with its message.
   */
  datatype Outcome = Response(ok: bool, errorField: Option<string>) | Threw(message: string)

  /** The message a failed request shows: `data.error || "Failed to change password"`, or the exception's. */
  function FailureMessage(outcome: Outcome): (m: string)
    requires !(outcome.Response? && outcome.ok)
    ensures outcome.Threw? ==> m == outcome.message
    ensures outcome.Response? && outcome.errorField.Some? && outcome.errorField.value != "" ==>
              m == outcome.errorField.value
    ensures outcome.Response? && (outcome.errorField.None? || outcome.errorField.value == "") ==>
              m == DefaultFailureMessage
  {
    match outcome
    case Threw(message) => message
    case Response(_, errorField) =>
      if errorField.Some? && errorField.value != "" then errorField.value else DefaultFailureMessage
  }

  /** The length of a concatenation is the sum of the lengths. */
  lemma {:induction false} Utf16LengthAppend(s: string, t: string)
    ensures Utf16Length(s + t) == Utf16Length(s) + Utf16Length(t)
  {
    if s == [] {
      assert s + t == t;
    } else {
      assert (s + t)[1..] == s[1..] + t;
      Utf16LengthAppend(s[1..], t);
    }
  }

  /** The bound is inclusive: six characters pass, five do not. */
  lemma SixCharactersPass()
    ensures ValidationError("abcdef", "abcdef").None?
    ensures ValidationError("abcde", "abcde") == Some(TooShortMessage)
  {
    assert Utf16Length("abcdef") == 6;
    assert Utf16Length("abcde") == 5;
  }

  /** Length counts UTF-16 code units, so three characters outside the BMP already pass. */
  lemma AstralCharactersCountTwice()
    ensures ValidationError("\U{1F525}\U{1F525}\U{1F525}", "\U{1F525}\U{1F525}\U{1F525}").None?
  {
    assert Utf16Length("\U{1F525}\U{1F525}\U{1F525}") == 6;
  }

  /** The component's state. */
  class SettingsForm {
    var currentPassword: string
    var newPassword: string
    var confirmPassword: string
    var loading: bool
    var error: string
    var success: bool

    /** The `useState` initial values. */
    constructor()
      ensures currentPassword == newPassword == confirmPassword == ""
      ensures !loading && error == "" && !success
    {
      currentPassword, newPassword, confirmPassword := "", "", "";
      loading, error, success := false, "", false;
    }

    /** The `onChange` handler of the current-password input. */
    method SetCurrentPassword(value: string)
      modifies this
      ensures currentPassword == value
      ensures newPassword == old(newPassword) && confirmPassword == old(confirmPassword)
      ensures loading == old(loading) && error == old(error) && success == old(success)
    {
      currentPassword := value;
    }

    /** The `onChange` handler of the new-password input. */
    method SetNewPassword(value: string)
      modifies this
      ensures newPassword == value
      ensures currentPassword == old(currentPassword) && confirmPassword == old(confirmPassword)
      ensures loading == old(loading) && error == old(error) && success == old(success)
    {
      newPassword := value;
    }

    /** The `onChange` handler of the confirmation input. */
    method SetConfirmPassword(value: string)
      modifies this
      ensures confirmPassword == value
      ensures currentPassword == old(currentPassword) && newPassword == old(newPassword)
      ensures loading == old(loading) && error == old(error) && success == old(success)
    {
      confirmPassword := value;
    }

    /**
     * `handleSubmit` up to the request: start loading, clear both messages,
     * then stop with an error at the first failed check, or hand back the
     * request to send while still loading.
     */
    method BeginSubmit() returns (request: Option<PasswordChange>)
      modifies this
      ensures var e := ValidationError(old(newPassword), old(confirmPassword));
              && (request.None? <==> e.Some?)
              && (request.Some? ==> request.value == PasswordChange(old(currentPassword), old(newPassword)))
              && error == (if e.Some? then e.value else "")
              && loading == e.None?
      ensures !success
      ensures currentPassword == old(currentPassword) && newPassword == old(newPassword)
      ensures confirmPassword == old(confirmPassword)
    {
      loading := true;
      error := "";
      success := false;

      if newPassword != confirmPassword {
        error := MismatchMessage;
        loading := false;
        return None;
      }

      if Utf16Length(newPassword) < MinLength {
        error := TooShortMessage;
        loading := false;
        return None;
      }

      request := Some(PasswordChange(currentPassword, newPassword));
    }

    /**
     * `handleSubmit` after the request: on an `ok` response set success and
     * clear the three fields, otherwise show the failure message; loading
     * always ends.
     */
    method FinishSubmit(outcome: Outcome)
      modifies this
      ensures !loading
      ensures outcome.Response? && outcome.ok ==>
                success && currentPassword == "" && newPassword == "" && confirmPassword == ""
                && error == old(error)
      ensures !(outcome.Response? && outcome.ok) ==>
                error == FailureMessage(outcome) && success == old(success)
                && currentPassword == old(currentPassword) && newPassword == old(newPassword)
                && confirmPassword == old(confirmPassword)
    {
      if outcome.Response? && outcome.ok {
        success := true;
        currentPassword := "";
        newPassword := "";
        confirmPassword := "";
      } else {
        error := FailureMessage(outcome);
      }
      loading := false;
    }
  }

  /**
   * A whole submit: the request goes out exactly when both checks pass, and
   * after it the form shows exactly one of success and an error.
   */
  method Submit(form: SettingsForm, outcome: Outcome) returns (sent: Option<PasswordChange>)
    modifies form
    ensures var e := ValidationError(old(form.newPassword), old(form.confirmPassword));
            (sent.Some? <==> e.None?) && !form.loading
            && (e.Some? ==> form.error == e.value && !form.success)
            && (e.None? && outcome.Response? && outcome.ok ==>
                  && form.success && form.error == ""
                  && form.currentPassword == "" && form.newPassword == "" && form.confirmPassword == "")
            && (e.None? && !(outcome.Response? && outcome.ok) ==>
                  !form.success && form.error == FailureMessage(outcome))
            && (e.Some? || !(outcome.Response? && outcome.ok) ==>
                  && form.currentPassword == old(form.currentPassword)
                  && form.newPassword == old(form.newPassword)
                  && form.confirmPassword == old(form.confirmPassword))
  {
    sent := form.BeginSubmit();
    if sent.Some? {
      form.FinishSubmit(outcome);
    }
  }
}
