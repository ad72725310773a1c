/**
 * The login form: its character filter, the message shown for a field's
 * errors, and the page state around the login request. Angular's own
 * e-mail validator is outside the model: its verdict is the parameter
 * `emailOk`.
 */
module Login {
  import opened Wrappers
  import Text
  import opened Forms
  import Registro

  /** The quote, semicolon, hash, hyphen, slash and asterisk characters rejected by `sanitizarInput` and blocked by `validarCaracteres`. */
  const Forbidden: set<char> := {'\'', '"', ';', '#', '-', '/', '*'}

  predicate Sanitizar(v: string) {
    Text.ContainsAnyOf(v, Forbidden)
  }

  /** The login filter is strictly stronger than the registration filter. */
  lemma LoginFilterExtendsRegistro(v: string)
    ensures Registro.Forbidden < Forbidden
    ensures Registro.Sanitizar(v) ==> Sanitizar(v)
    ensures Sanitizar("#") && !Registro.Sanitizar("#")
  {
    assert "#"[0] in Forbidden;
    if Registro.Sanitizar(v) {
      var i :| 0 <= i < |v| && v[i] in Registro.Forbidden;
      assert v[i] in Forbidden;
    }
  }

  /** `validarCaracteres` on the login page. */
  predicate ValidarCaracteres(key: string) {
    KeyBlocked(key, Forbidden)
  }

  /** With pasting prevented, nothing typed into a login field is ever reported by `sanitizarInput`. */
  lemma TypedValueNeverFlagged(keys: seq<string>)
    ensures !Sanitizar(Typed(keys, Forbidden))
  {
    TypedValueHasNoForbiddenChar(keys, Forbidden);
  }

  /**
   * A password that registration accepts (the rule and its filter both pass)
   * but that holds '#', '/' or '*' can never be typed into the login field,
   * and pasted it is reported by the login filter.
   */
  lemma RegisteredPasswordNotTypable(password: string, keys: seq<string>)
    requires Registro.PasswordValid(password) && !Registro.Sanitizar(password)
    requires Text.ContainsAnyOf(password, Forbidden - Registro.Forbidden)
    ensures Typed(keys, Forbidden) != password
    ensures Sanitizar(password)
  {
    TypedValueHasNoForbiddenChar(keys, Forbidden);
    var i :| 0 <= i < |password| && password[i] in Forbidden - Registro.Forbidden;
    assert password[i] in Forbidden;
  }

  /** The errors of the e-mail field: required, email, and the filter. */
  function EmailErrors(v: string, emailOk: bool): set<ErrorKey> {
    (if RequiredFails(v) then {Required} else {}) + (if v != "" && !emailOk then {Email} else {})
    + (if Sanitizar(v) then {InvalidInput} else {})
  }

  /** The errors of the password field: required, at least eight characters, and the filter. */
  function PasswordErrors(v: string): set<ErrorKey> {
    (if RequiredFails(v) then {Required} else {}) + (if MinLengthFails(v, 8) then {MinLength} else {})
    + (if Sanitizar(v) then {InvalidInput} else {})
  }

  /** The form is valid when neither field has an error. */
  predicate FormValid(email: string, password: string, emailOk: bool) {
    EmailErrors(email, emailOk) == {} && PasswordErrors(password) == {}
  }

  /** What a valid form guarantees about the credentials it sends. */
  lemma ValidFormCredentials(email: string, password: string, emailOk: bool)
    requires FormValid(email, password, emailOk)
    ensures email != "" && emailOk && !Sanitizar(email)
    ensures |password| >= 8 && !Sanitizar(password)
  {
    assert Required !in EmailErrors(email, emailOk);
    assert Email !in EmailErrors(email, emailOk);
    assert InvalidInput !in EmailErrors(email, emailOk);
    assert Required !in PasswordErrors(password);
    assert MinLength !in PasswordErrors(password);
    assert InvalidInput !in PasswordErrors(password);
  }

  const Messages: seq<(ErrorKey, string)> := [
    (Required, "Este campo es obligatorio."),
    (Email, "Por favor, introduce un correo válido."),
    (MinLength, "La contraseña debe tener al menos 8 caracteres."),
    (InvalidInput, "Caracteres no permitidos detectados.")
  ]

  /** `getErrorMessage`: required, email, minlength, invalidInput, in that order. */
  function GetErrorMessage(errors: set<ErrorKey>): string {
    FirstMessage(errors, Messages)
  }

  /** A field shows no message exactly when it has no error. */
  lemma NoMessageIffNoError(email: string, password: string, emailOk: bool)
    ensures GetErrorMessage(EmailErrors(email, emailOk)) == "" <==> EmailErrors(email, emailOk) == {}
    ensures GetErrorMessage(PasswordErrors(password)) == "" <==> PasswordErrors(password) == {}
  {
    MessageOfErrors(EmailErrors(email, emailOk));
    MessageOfErrors(PasswordErrors(password));
  }

  lemma MessageOfErrors(e: set<ErrorKey>)
    requires e <= {Required, Email, MinLength, InvalidInput}
    ensures GetErrorMessage(e) == "" <==> e == {}
  {
    if Required in e {
      FirstMessageSpec(e, Messages, 0);
    } else if Email in e {
      FirstMessageSpec(e, Messages, 1);
    } else if MinLength in e {
      FirstMessageSpec(e, Messages, 2);
    } else if InvalidInput in e {
      FirstMessageSpec(e, Messages, 3);
    } else {
      FirstMessageNone(e, Messages);
    }
  }

  /** The body of the login request: the e-mail travels as `correo`. */
  datatype LoginBody = LoginBody(correo: string, password: string)

  const CredencialesIncorrectas := "Credenciales incorrectas o usuario no encontrado."

  class LoginView {
    var showPassword: bool
    var errorMessage: string
    var isLoading: bool

    constructor()
      ensures !showPassword && errorMessage == "" && !isLoading
    {
      showPassword := false;
      errorMessage := "";
      isLoading := false;
    }

    /** `onSubmit`: an invalid form sends nothing and changes nothing; a valid one starts loading. */
    method OnSubmit(email: string, password: string, emailOk: bool) returns (request: Option<LoginBody>)
      modifies this`isLoading, this`errorMessage
      ensures !FormValid(email, password, emailOk) ==>
                request == None && isLoading == old(isLoading) && errorMessage == old(errorMessage)
      ensures FormValid(email, password, emailOk) ==>
                request == Some(LoginBody(email, password)) && isLoading && errorMessage == ""
    {
      if !FormValid(email, password, emailOk) {
        return None;
      }
      isLoading := true;
      errorMessage := "";
      return Some(LoginBody(email, password));
    }

    /** The login request failed. */
    method OnLoginError()
      modifies this`isLoading, this`errorMessage
      ensures errorMessage == CredencialesIncorrectas && !isLoading
    {
      errorMessage := CredencialesIncorrectas;
      isLoading := false;
    }

    method TogglePasswordVisibility()
      modifies this`showPassword
      ensures showPassword == !old(showPassword)
    {
      showPassword := !showPassword;
    }
  }
}
