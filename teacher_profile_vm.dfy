/**
 * The teacher's profile screen state: the name form, the password change
 * with its checks, and account deletion.  Each asynchronous step is a
 * completion method that receives the backend's answer as a parameter;
 * `onDoneCalls` counts how often the screen's "done" callback has run.
 */
module TeacherProfileVm {
  import opened Strings

  /** `TeacherProfileUiState`. */
  datatype ProfileState = ProfileState(
    loading: bool,
    saving: bool,
    changingPass: bool,
    deletingAcc: bool,
    username: string,
    firstName: string,
    middleName: string,
    lastName: string,
    oldPass: string,
    newPass: string,
    confirmPass: string,
    deletePassword: string,
    error: string,
    success: string)

  const InitialProfile := ProfileState(true, false, false, false, "", "", "", "", "", "", "", "", "", "")

  const NamesRequired := "First name and last name are required"
  const AllPasswordsRequired := "All password fields are required"
  const PasswordTooShort := "New password must be at least 6 characters"
  const PasswordsDiffer := "Passwords do not match"
  const PasswordUnchanged := "New password must be different from old password"
  const DeletePasswordRequired := "Password is required to delete the account"
  const MinPasswordLength := 6

  /** A password change the checks accept. */
  predicate AcceptablePasswordChange(oldP: string, newP: string, conf: string)
  {
    && !IsBlank(oldP) && !IsBlank(newP) && !IsBlank(conf)
    && |newP| >= MinPasswordLength
    && newP == conf
    && oldP != newP
  }

  /** `validateChangePass`: nothing for an acceptable change, otherwise the
      first failing check's message, in the order all filled, length, match,
      different from the old one. */
  function ValidateChangePass(oldP: string, newP: string, conf: string): (r: Option<string>)
    ensures r.None? <==> AcceptablePasswordChange(oldP, newP, conf)
    ensures r == Some(AllPasswordsRequired) <==> IsBlank(oldP) || IsBlank(newP) || IsBlank(conf)
    ensures r == Some(PasswordTooShort) <==>
      !IsBlank(oldP) && !IsBlank(newP) && !IsBlank(conf) && |newP| < MinPasswordLength
    ensures r == Some(PasswordsDiffer) <==>
      !IsBlank(oldP) && !IsBlank(newP) && !IsBlank(conf) && |newP| >= MinPasswordLength && newP != conf
    ensures r == Some(PasswordUnchanged) <==>
      !IsBlank(oldP) && !IsBlank(newP) && !IsBlank(conf) && |newP| >= MinPasswordLength && newP == conf && oldP == newP
  {
    if IsBlank(oldP) || IsBlank(newP) || IsBlank(conf) then Some(AllPasswordsRequired)
    else if |newP| < MinPasswordLength then Some(PasswordTooShort)
    else if newP != conf then Some(PasswordsDiffer)
    else if oldP == newP then Some(PasswordUnchanged)
    else None
  }

  /** Every state-changing event leaves the form fields it does not name as
      they were: the names and the password fields. */
  predicate SameInputs(a: ProfileState, b: ProfileState)
  {
    && a.username == b.username
    && a.firstName == b.firstName && a.middleName == b.middleName && a.lastName == b.lastName
    && a.oldPass == b.oldPass && a.newPass == b.newPass && a.confirmPass == b.confirmPass
    && a.deletePassword == b.deletePassword
  }

  class TeacherProfileViewModel {
    var ui: ProfileState
    var onDoneCalls: nat

    constructor ()
      ensures ui == InitialProfile && onDoneCalls == 0
    {
      ui := InitialProfile;
      onDoneCalls := 0;
    }

    /** `load(username)`, before the profile arrives. */
    method Load(username: string)
      modifies this
      ensures ui == old(ui).(loading := true, error := "", success := "", username := username)
      ensures onDoneCalls == old(onDoneCalls)
    {
      ui := ui.(loading := true, error := "", success := "", username := username);
    }

    method ProfileLoaded(firstName: string, middleName: string, lastName: string)
      modifies this
      ensures ui == old(ui).(loading := false, firstName := firstName, middleName := middleName, lastName := lastName)
      ensures onDoneCalls == old(onDoneCalls)
    {
      ui := ui.(loading := false, firstName := firstName, middleName := middleName, lastName := lastName);
    }

    method LoadFailed(message: Option<string>)
      modifies this
      ensures ui == old(ui).(loading := false, error := OrElse(message, "Failed to load profile"))
      ensures onDoneCalls == old(onDoneCalls)
    {
      ui := ui.(loading := false, error := OrElse(message, "Failed to load profile"));
    }

    /** `clearMessages()`: only the error and success lines are reset. */
    method ClearMessages()
      modifies this
      ensures ui == old(ui).(error := "", success := "")
      ensures onDoneCalls == old(onDoneCalls)
    {
      ui := ui.(error := "", success := "");
    }

    method SetFirstName(v: string)
      modifies this
      ensures ui == old(ui).(firstName := v, error := "", success := "")
      ensures onDoneCalls == old(onDoneCalls)
    {
      ui := ui.(firstName := v, error := "", success := "");
    }

    method SetMiddleName(v: string)
      modifies this
      ensures ui == old(ui).(middleName := v, error := "", success := "")
      ensures onDoneCalls == old(onDoneCalls)
    {
      ui := ui.(middleName := v, error := "", success := "");
    }

    method SetLastName(v: string)
      modifies this
      ensures ui == old(ui).(lastName := v, error := "", success := "")
      ensures onDoneCalls == old(onDoneCalls)
    {
      ui := ui.(lastName := v, error := "", success := "");
    }

    method SetOldPass(v: string)
      modifies this
      ensures ui == old(ui).(oldPass := v, error := "", success := "")
      ensures onDoneCalls == old(onDoneCalls)
    {
      ui := ui.(oldPass := v, error := "", success := "");
    }

    method SetNewPass(v: string)
      modifies this
      ensures ui == old(ui).(newPass := v, error := "", success := "")
      ensures onDoneCalls == old(onDoneCalls)
    {
      ui := ui.(newPass := v, error := "", success := "");
    }

    method SetConfirmPass(v: string)
      modifies this
      ensures ui == old(ui).(confirmPass := v, error := "", success := "")
      ensures onDoneCalls == old(onDoneCalls)
    {
      ui := ui.(confirmPass := v, error := "", success := "");
    }

    method SetDeletePassword(v: string)
      modifies this
      ensures ui == old(ui).(deletePassword := v, error := "", success := "")
      ensures onDoneCalls == old(onDoneCalls)
    {
      ui := ui.(deletePassword := v, error := "", success := "");
    }

    /** `saveProfile()`, up to the backend call: a blank first or last name
        (after trimming) is refused without saving; otherwise saving starts
        and the three names are sent as typed. */
    method SaveProfile() returns (request: Option<(string, string, string)>)
      modifies this
      ensures IsBlank(Trim(old(ui).firstName)) || IsBlank(Trim(old(ui).lastName)) ==>
        request.None? && ui == old(ui).(error := NamesRequired, success := "")
      ensures !IsBlank(Trim(old(ui).firstName)) && !IsBlank(Trim(old(ui).lastName)) ==>
        request == Some((old(ui).firstName, old(ui).middleName, old(ui).lastName))
        && ui == old(ui).(saving := true, error := "", success := "")
      ensures onDoneCalls == old(onDoneCalls)
    {
      if IsBlank(Trim(ui.firstName)) || IsBlank(Trim(ui.lastName)) {
        ui := ui.(error := NamesRequired, success := "");
        request := None;
        return;
      }
      request := Some((ui.firstName, ui.middleName, ui.lastName));
      ui := ui.(saving := true, error := "", success := "");
    }

    method ProfileSaved()
      modifies this
      ensures ui == old(ui).(saving := false, success := "Profile updated \U{2705}")
      ensures onDoneCalls == old(onDoneCalls)
    {
      ui := ui.(saving := false, success := "Profile updated \U{2705}");
    }

    method ProfileSaveFailed(message: Option<string>)
      modifies this
      ensures ui == old(ui).(saving := false, error := OrElse(message, "Failed to save profile"))
      ensures onDoneCalls == old(onDoneCalls)
    {
      ui := ui.(saving := false, error := OrElse(message, "Failed to save profile"));
    }

    /** `changePassword()`, up to the backend call: a refused change shows the
        first failing check and leaves the password fields and
        `changingPass` alone; an accepted one starts and sends the old and new
        passwords. */
    method ChangePassword() returns (request: Option<(string, string)>)
      modifies this
      ensures var msg := ValidateChangePass(old(ui).oldPass, old(ui).newPass, old(ui).confirmPass);
        && (msg.Some? ==> request.None? && ui == old(ui).(error := msg.value, success := ""))
        && (msg.None? ==> request == Some((old(ui).oldPass, old(ui).newPass))
                          && ui == old(ui).(changingPass := true, error := "", success := ""))
      ensures onDoneCalls == old(onDoneCalls)
    {
      var msg := ValidateChangePass(ui.oldPass, ui.newPass, ui.confirmPass);
      if msg.Some? {
        ui := ui.(error := msg.value, success := "");
        request := None;
        return;
      }
      request := Some((ui.oldPass, ui.newPass));
      ui := ui.(changingPass := true, error := "", success := "");
    }

    /** The password was changed: the three password fields are emptied. */
    method PasswordChanged()
      modifies this
      ensures ui == old(ui).(changingPass := false, oldPass := "", newPass := "", confirmPass := "",
                             success := "Password changed successfully \U{2705}")
      ensures onDoneCalls == old(onDoneCalls)
    {
      ui := ui.(changingPass := false, oldPass := "", newPass := "", confirmPass := "",
                success := "Password changed successfully \U{2705}");
    }

    method PasswordChangeFailed(message: Option<string>)
      modifies this
      ensures ui == old(ui).(changingPass := false, error := OrElse(message, "Failed to change password"))
      ensures onDoneCalls == old(onDoneCalls)
    {
      ui := ui.(changingPass := false, error := OrElse(message, "Failed to change password"));
    }

    /** `deleteAccount(onDone)`, up to the backend call: a blank password is
        refused and deletion never starts. */
    method DeleteAccount() returns (request: Option<string>)
      modifies this
      ensures IsBlank(old(ui).deletePassword) ==>
        request.None? && ui == old(ui).(error := DeletePasswordRequired, success := "")
      ensures !IsBlank(old(ui).deletePassword) ==>
        request == Some(old(ui).deletePassword) && ui == old(ui).(deletingAcc := true, error := "", success := "")
      ensures onDoneCalls == old(onDoneCalls)
    {
      if IsBlank(ui.deletePassword) {
        ui := ui.(error := DeletePasswordRequired, success := "");
        request := None;
        return;
      }
      request := Some(ui.deletePassword);
      ui := ui.(deletingAcc := true, error := "", success := "");
    }

    /** The account was deleted: the password field is emptied, then the
        callback runs once. */
    method AccountDeleted()
      modifies this
      ensures ui == old(ui).(deletingAcc := false, deletePassword := "", success := "Account deleted \U{2705}")
      ensures onDoneCalls == old(onDoneCalls) + 1
    {
      ui := ui.(deletingAcc := false, deletePassword := "", success := "Account deleted \U{2705}");
      onDoneCalls := onDoneCalls + 1;
    }

    method AccountDeleteFailed(message: Option<string>)
      modifies this
      ensures ui == old(ui).(deletingAcc := false, error := OrElse(message, "Failed to delete account"))
      ensures onDoneCalls == old(onDoneCalls)
    {
      ui := ui.(deletingAcc := false, error := OrElse(message, "Failed to delete account"));
    }
  }

  /** A password change that the checks refuse never reaches the backend and
      leaves every input and every busy flag as it was. */
  method RefusedChange(vm: TeacherProfileViewModel)
    requires !AcceptablePasswordChange(vm.ui.oldPass, vm.ui.newPass, vm.ui.confirmPass)
    modifies vm
    ensures SameInputs(vm.ui, old(vm.ui))
    ensures vm.ui.changingPass == old(vm.ui.changingPass) && vm.ui.error != ""
  {
    var request := vm.ChangePassword();
    assert request.None?;
  }

  /** An accepted change that the backend confirms ends with the password
      fields empty, nothing in progress and the success line set. */
  method AcceptedChange(vm: TeacherProfileViewModel) returns (request: Option<(string, string)>)
    requires AcceptablePasswordChange(vm.ui.oldPass, vm.ui.newPass, vm.ui.confirmPass)
    modifies vm
    ensures request == Some((old(vm.ui.oldPass), old(vm.ui.newPass)))
    ensures vm.ui.oldPass == "" && vm.ui.newPass == "" && vm.ui.confirmPass == ""
    ensures !vm.ui.changingPass && vm.ui.error == "" && vm.ui.success != ""
  {
    request := vm.ChangePassword();
    vm.PasswordChanged();
  }
}
