/** The registration and login forms (frontend RegisterForm.jsx and
    LoginForm.jsx). Each form's state variables are the fields of an
    object; each handler is a method that sets them. The call to the
    authentication context, an asynchronous request, is replaced by its
    outcome, given as a parameter. */
module Forms {
  import opened Wrappers
  import opened Validators

  const NameRequired := "Le nom est requis"
  const InvalidEmail := "Email invalide"
  const ShortPassword := "Le mot de passe doit contenir au moins 6 caractères"
  const PasswordMismatch := "Les mots de passe ne correspondent pas"

  /** What `register` or `login` of the authentication context resolves to. */
  datatype Outcome = Outcome(success: bool, message: string)

  /** The error `validateForm` leaves: the message of the first failing
      check, in the order name, email, password, confirmation; none when
      every check passes. */
  function FormError(name: string, email: string, password: string, confirm: string): (msg: string)
    ensures msg == "" <==> name != "" && ValidEmail(email) && ClientPasswordOk(password) && password == confirm
    ensures msg == NameRequired <==> name == ""
    ensures msg == InvalidEmail <==> name != "" && !ValidEmail(email)
    ensures msg == ShortPassword <==> name != "" && ValidEmail(email) && !ClientPasswordOk(password)
    ensures msg == PasswordMismatch <==>
      name != "" && ValidEmail(email) && ClientPasswordOk(password) && password != confirm
  {
    if name == "" then NameRequired
    else if !ValidEmail(email) then InvalidEmail
    else if !ClientPasswordOk(password) then ShortPassword
    else if password != confirm then PasswordMismatch
    else ""
  }

  /** Once a check fails, the fields it has not reached yet do not change
      the message. */
  lemma FirstFailureWins(name: string, email: string, password: string, confirm: string,
                         email': string, password': string, confirm': string)
    ensures name == "" ==> FormError(name, email, password, confirm) == FormError(name, email', password', confirm')
    ensures !ValidEmail(email) ==>
      FormError(name, email, password, confirm) == FormError(name, email, password', confirm')
    ensures !ClientPasswordOk(password) ==>
      FormError(name, email, password, confirm) == FormError(name, email, password, confirm')
  {
  }

  /** The error an email field shows while being typed in: none while it
      is empty, "Email invalide" while it does not match. */
  function EmailFeedback(value: string): (msg: string)
    ensures msg == "" <==> value == "" || ValidEmail(value)
    ensures msg != "" ==> msg == InvalidEmail
  {
    if value != "" && !ValidEmail(value) then InvalidEmail else ""
  }

  /** The error the password field of the registration form shows while
      being typed in: too short first, then a mismatch with a confirmation
      already typed. */
  function PasswordFeedback(value: string, confirm: string): (msg: string)
    ensures msg == ShortPassword <==> value != "" && !ClientPasswordOk(value)
    ensures msg == PasswordMismatch <==> (value == "" || ClientPasswordOk(value)) && confirm != "" && value != confirm
    ensures msg in {"", ShortPassword, PasswordMismatch}
  {
    if value != "" && !ClientPasswordOk(value) then ShortPassword
    else if confirm != "" && value != confirm then PasswordMismatch
    else ""
  }

  /** The state of RegisterForm.jsx. */
  class RegisterForm {
    var name: string
    var email: string
    var password: string
    var confirm: string
    var error: string

    constructor ()
      ensures name == "" && email == "" && password == "" && confirm == "" && error == ""
    {
      name, email, password, confirm, error := "", "", "", "", "";
    }

    /** `validateForm` (RegisterForm.jsx:21-40). */
    method ValidateForm() returns (ok: bool)
      modifies this
      ensures ok <==> FormError(name, email, password, confirm) == ""
      ensures error == FormError(name, email, password, confirm)
      ensures name == old(name) && email == old(email) && password == old(password) && confirm == old(confirm)
    {
      error := FormError(name, email, password, confirm);
      ok := error == "";
    }

    /** The name input's change handler. */
    method ChangeName(value: string)
      modifies this
      ensures name == value
      ensures email == old(email) && password == old(password) && confirm == old(confirm) && error == old(error)
    {
      name := value;
    }

    /** `handleEmailChange` (RegisterForm.jsx:42-50). */
    method ChangeEmail(value: string)
      modifies this
      ensures email == value && error == EmailFeedback(value)
      ensures name == old(name) && password == old(password) && confirm == old(confirm)
    {
      email := value;
      error := EmailFeedback(value);
    }

    /** `handlePasswordChange` (RegisterForm.jsx:52-62): compares with the
        confirmation typed so far. */
    method ChangePassword(value: string)
      modifies this
      ensures password == value && error == PasswordFeedback(value, old(confirm))
      ensures name == old(name) && email == old(email) && confirm == old(confirm)
    {
      password := value;
      error := PasswordFeedback(value, confirm);
    }

    /** `handleConfirmPasswordChange` (RegisterForm.jsx:64-72). */
    method ChangeConfirm(value: string)
      modifies this
      ensures confirm == value
      ensures error == (if value != old(password) then PasswordMismatch else "")
      ensures name == old(name) && email == old(email) && password == old(password)
    {
      confirm := value;
      error := if value != password then PasswordMismatch else "";
    }

    /** `handleSubmit` (RegisterForm.jsx:74-95). `sent` says whether
        `register` is called, `result` is what it resolves to, and
        `notified` is the email handed to `onRegisterSuccess`: the one
        typed before the fields were cleared. */
    method Submit(result: Outcome) returns (sent: bool, notified: Option<string>)
      modifies this
      ensures sent <==> FormError(old(name), old(email), old(password), old(confirm)) == ""
      ensures !sent ==>
        && error == FormError(old(name), old(email), old(password), old(confirm))
        && name == old(name) && email == old(email) && password == old(password) && confirm == old(confirm)
        && notified == None
      ensures sent && result.success ==>
        && name == "" && email == "" && password == "" && confirm == ""
        && error == "" && notified == Some(old(email))
      ensures sent && !result.success ==>
        && name == old(name) && email == old(email) && password == old(password) && confirm == old(confirm)
        && error == result.message && notified == None
    {
      var ok := ValidateForm();
      if !ok {
        return false, None;
      }
      var typed := email;
      if result.success {
        name, email, password, confirm := "", "", "", "";
        return true, Some(typed);
      }
      error := result.message;
      return true, None;
    }
  }

  /** The state of LoginForm.jsx. */
  class LoginForm {
    var email: string
    var password: string
    var error: string

    constructor ()
      ensures email == "" && password == "" && error == ""
    {
      email, password, error := "", "", "";
    }

    /** `handleEmailChange` (LoginForm.jsx:14-22), the same rule as the
        registration form's. */
    method ChangeEmail(value: string)
      modifies this
      ensures email == value && error == EmailFeedback(value) && password == old(password)
    {
      email := value;
      error := EmailFeedback(value);
    }

    /** The password input's change handler. */
    method ChangePassword(value: string)
      modifies this
      ensures password == value && email == old(email) && error == old(error)
    {
      password := value;
    }

    /** `handleSubmit` (LoginForm.jsx:24-37): an invalid email stops the
        submission; otherwise `login` is called (`sent`) and a failure
        shows its message. */
    method Submit(result: Outcome) returns (sent: bool)
      modifies this
      ensures sent <==> ValidEmail(old(email))
      ensures email == old(email) && password == old(password)
      ensures !sent ==> error == InvalidEmail
      ensures sent && !result.success ==> error == result.message
      ensures sent && result.success ==> error == old(error)
    {
      if !ValidEmail(email) {
        error := InvalidEmail;
        return false;
      }
      if !result.success {
        error := result.message;
      }
      return true;
    }
  }
}
