/**
 * The administrator's password-change form.  The signed-in account is a
 * parameter (absent when nobody is signed in, with an optional email);
 * the messages the screen pops up are returned, and `onUpdatedCalls` counts
 * how often the "password updated" callback has run.
 */
module AdminProfile {
  import opened Strings
  import TeacherProfileVm

  /** The signed-in account, as far as the form looks at it. */
  datatype Account = Account(email: Option<string>)

  const FillAllFields := "Fill all fields"
  const PasswordTooShort := "New password must be at least 6 characters"
  const PasswordsDiffer := "Passwords do not match"
  const NotLoggedIn := "Not logged in"
  const NoEmail := "No email on account"

  predicate HasEmail(user: Option<Account>)
  {
    user.Some? && user.value.email.Some? && !IsBlank(user.value.email.value)
  }

  /** `validate()`: nothing when every field is filled, the new password has
      at least six characters and matches its confirmation, and an account
      with an email is signed in; otherwise the first failing check's message
      in that order. */
  function Validate(oldPass: string, newPass: string, confirmPass: string, user: Option<Account>): (r: Option<string>)
    ensures r.None? <==>
      && !IsBlank(oldPass) && !IsBlank(newPass) && !IsBlank(confirmPass)
      && |newPass| >= 6 && newPass == confirmPass && HasEmail(user)
    ensures r == Some(FillAllFields) <==> IsBlank(oldPass) || IsBlank(newPass) || IsBlank(confirmPass)
    ensures r == Some(PasswordTooShort) <==>
      !IsBlank(oldPass) && !IsBlank(newPass) && !IsBlank(confirmPass) && |newPass| < 6
    ensures r == Some(PasswordsDiffer) <==>
      !IsBlank(oldPass) && !IsBlank(newPass) && !IsBlank(confirmPass) && |newPass| >= 6 && newPass != confirmPass
    ensures r == Some(NotLoggedIn) <==>
      !IsBlank(oldPass) && !IsBlank(newPass) && !IsBlank(confirmPass) && |newPass| >= 6 && newPass == confirmPass
      && user.None?
    ensures r == Some(NoEmail) <==>
      !IsBlank(oldPass) && !IsBlank(newPass) && !IsBlank(confirmPass) && |newPass| >= 6 && newPass == confirmPass
      && user.Some? && !HasEmail(user)
  {
    if IsBlank(oldPass) || IsBlank(newPass) || IsBlank(confirmPass) then Some(FillAllFields)
    else if |newPass| < 6 then Some(PasswordTooShort)
    else if newPass != confirmPass then Some(PasswordsDiffer)
    else if user.None? then Some(NotLoggedIn)
    else if user.value.email.None? || IsBlank(user.value.email.value) then Some(NoEmail)
    else None
  }

  /** Unlike the teacher's form, the administrator's form accepts a new
      password equal to the old one. */
  lemma SamePasswordAccepted(p: string, user: Option<Account>)
    requires !IsBlank(p) && |p| >= 6 && HasEmail(user)
    ensures Validate(p, p, p, user).None?
    ensures TeacherProfileVm.ValidateChangePass(p, p, p) == Some(TeacherProfileVm.PasswordUnchanged)
  {
  }

  class AdminProfileForm {
    var oldPass: string
    var newPass: string
    var confirmPass: string
    var loading: bool
    var onUpdatedCalls: nat

    constructor ()
      ensures oldPass == "" && newPass == "" && confirmPass == "" && !loading && onUpdatedCalls == 0
    {
      oldPass, newPass, confirmPass := "", "", "";
      loading := false;
      onUpdatedCalls := 0;
    }

    /** `submit()`, up to the backend calls: a refused form only shows its
        message; an accepted one starts loading and yields the account's
        email with the old and new passwords. */
    method Submit(user: Option<Account>) returns (toast: Option<string>, request: Option<(string, string, string)>)
      modifies this
      ensures toast == Validate(old(oldPass), old(newPass), old(confirmPass), user)
      ensures toast.Some? ==> request.None? && loading == old(loading)
      ensures toast.None? ==> request == Some((user.value.email.value, old(oldPass), old(newPass))) && loading
      ensures oldPass == old(oldPass) && newPass == old(newPass) && confirmPass == old(confirmPass)
      ensures onUpdatedCalls == old(onUpdatedCalls)
    {
      toast := Validate(oldPass, newPass, confirmPass, user);
      if toast.Some? {
        request := None;
        return;
      }
      request := Some((user.value.email.value, oldPass, newPass));
      loading := true;
    }

    /** Reauthentication and the update succeeded: the fields are emptied,
        the callback runs once, and loading ends. */
    method Updated() returns (toast: string)
      modifies this
      ensures toast == "Password updated successfully \U{2705}"
      ensures oldPass == "" && newPass == "" && confirmPass == "" && !loading
      ensures onUpdatedCalls == old(onUpdatedCalls) + 1
    {
      toast := "Password updated successfully \U{2705}";
      oldPass, newPass, confirmPass := "", "", "";
      onUpdatedCalls := onUpdatedCalls + 1;
      loading := false;
    }

    /** Reauthentication or the update failed: the fields stay, the callback
        does not run, and loading ends. */
    method UpdateFailed(message: Option<string>) returns (toast: string)
      modifies this
      ensures toast == OrElse(message, "Failed to update password")
      ensures oldPass == old(oldPass) && newPass == old(newPass) && confirmPass == old(confirmPass)
      ensures !loading && onUpdatedCalls == old(onUpdatedCalls)
    {
      toast := OrElse(message, "Failed to update password");
      loading := false;
    }
  }

  /** One submission from start to end: the callback runs only when the form
      was accepted and the backend succeeded, and loading is off afterwards
      whenever the backend was reached. */
  method SubmitRound(form: AdminProfileForm, user: Option<Account>, succeeds: bool, message: Option<string>)
    returns (toasts: seq<string>)
    modifies form
    ensures form.onUpdatedCalls == old(form.onUpdatedCalls) +
      (if Validate(old(form.oldPass), old(form.newPass), old(form.confirmPass), user).None? && succeeds then 1 else 0)
    ensures Validate(old(form.oldPass), old(form.newPass), old(form.confirmPass), user).None? ==> !form.loading
    ensures |toasts| == 1
  {
    var toast, request := form.Submit(user);
    if toast.Some? {
      return [toast.value];
    }
    var t;
    if succeeds {
      t := form.Updated();
    } else {
      t := form.UpdateFailed(message);
    }
    toasts := [t];
  }
}
