/**
 * The registration form: the password rule, the character filter against
 * injection, the check that both e-mail fields agree (a group validator that
 * rewrites the confirmation field's errors), and the message shown for a
 * field's errors. Angular's own e-mail validator is outside the model: its
 * verdict on a value is the parameter `emailOk`.
 */
module Registro {
  import Text
  import opened Forms

  const Digits: set<char> := {'0', '1', '2', '3', '4', '5', '6', '7', '8', '9'}

  /** The class `[!@#$%^&*()_+\-=\[\]{};':"\\|,.<>\/?]` of the password rule. */
  const SpecialChars: set<char> :=
    {'!', '@', '#', '$', '%', '^', '&', '*', '(', ')', '_', '+', '-', '=', '[', ']', '{', '}',
     ';', '\'', ':', '"', '\\', '|', ',', '.', '<', '>', '/', '?'}

  /** The class `['";\-]` rejected by `sanitizarInput` and blocked by `validarCaracteres`. */
  const Forbidden: set<char> := {'\'', '"', ';', '-'}

  /** `passwordValidator` returns null: empty, or eight characters with a digit and a special character. */
  predicate PasswordValid(v: string) {
    v == "" || (|v| >= 8 && Text.ContainsAnyOf(v, Digits) && Text.ContainsAnyOf(v, SpecialChars))
  }

  /** `sanitizarInput` reports `invalidInput`. */
  predicate Sanitizar(v: string) {
    Text.ContainsAnyOf(v, Forbidden)
  }

  /** Every password `minLength(8)` refuses, the password rule refuses too; the rule needs both classes. */
  lemma PasswordRuleCoversMinLength(v: string)
    ensures MinLengthFails(v, 8) ==> !PasswordValid(v)
    ensures PasswordValid("abcdefg1!") && !PasswordValid("abcdefgh1") && !PasswordValid("abcdefgh!")
  {
    assert "abcdefg1!"[7] in Digits && "abcdefg1!"[8] in SpecialChars;
    var noSpecial := "abcdefgh1";
    assert forall i :: 0 <= i < |noSpecial| ==> noSpecial[i] !in SpecialChars;
    var noDigit := "abcdefgh!";
    assert forall i :: 0 <= i < |noDigit| ==> noDigit[i] !in Digits;
  }

  /** A special character that the filter also forbids makes a valid password unusable: it is flagged. */
  lemma HyphenPasswordIsFlagged()
    ensures PasswordValid("abcdefg1-") && Sanitizar("abcdefg1-")
  {
    assert "abcdefg1-"[7] in Digits && "abcdefg1-"[8] in SpecialChars && "abcdefg1-"[8] in Forbidden;
  }

  datatype Field = Nombre | ApellidoPaterno | ApellidoMaterno | Correo | ConfirmarCorreo | Password

  /** The errors the field's own validators give a value (before the group validator runs). */
  function FieldErrors(field: Field, v: string, emailOk: bool): (errors: set<ErrorKey>)
    ensures InvalidInput in errors <==> Sanitizar(v)
    ensures Required in errors <==> field != ApellidoMaterno && v == ""
  {
    var required := if field != ApellidoMaterno && RequiredFails(v) then {Required} else {};
    var email := if (field == Correo || field == ConfirmarCorreo) && v != "" && !emailOk then {Email} else {};
    var minLength := if field == Password && MinLengthFails(v, 8) then {MinLength} else {};
    var password := if field == Password && !PasswordValid(v) then {InvalidPassword} else {};
    var input := if Sanitizar(v) then {InvalidInput} else {};
    required + email + minLength + password + input
  }

  /** The errors of the confirmation field after `correoMatchValidator`. */
  function MatchErrors(correo: string, confirmar: string, errors: set<ErrorKey>): set<ErrorKey> {
    if confirmar != "" && correo != confirmar then {CorreoNoCoincide}
    else errors - {CorreoNoCoincide}
  }

  /**
   * The validator settles the mismatch key and nothing else when the fields
   * agree; running it again changes nothing.
   */
  lemma MatchErrorsSpec(correo: string, confirmar: string, errors: set<ErrorKey>)
    ensures CorreoNoCoincide in MatchErrors(correo, confirmar, errors) <==> confirmar != "" && correo != confirmar
    ensures (confirmar == "" || correo == confirmar) ==> MatchErrors(correo, confirmar, errors) == errors - {CorreoNoCoincide}
    ensures MatchErrors(correo, confirmar, MatchErrors(correo, confirmar, errors)) == MatchErrors(correo, confirmar, errors)
  {
  }

  /** The field whose errors the group validator rewrites. */
  class Control {
    var value: string
    var errors: set<ErrorKey>

    constructor(value: string, errors: set<ErrorKey>)
      ensures this.value == value && this.errors == errors
    {
      this.value := value;
      this.errors := errors;
    }
  }

  /**
   * `correoMatchValidator`: a differing, non-empty confirmation replaces all
   * of its errors by the mismatch; otherwise only the mismatch key is
   * removed. The group itself never gets an error.
   */
  method CorreoMatchValidator(correo: Control, confirmarCorreo: Control) returns (groupErrors: set<ErrorKey>)
    modifies confirmarCorreo`errors
    ensures confirmarCorreo.errors == MatchErrors(correo.value, confirmarCorreo.value, old(confirmarCorreo.errors))
    ensures groupErrors == {}
  {
    if confirmarCorreo.value != "" && correo.value != confirmarCorreo.value {
      confirmarCorreo.errors := {CorreoNoCoincide};
    } else {
      var errors := confirmarCorreo.errors;
      if CorreoNoCoincide in errors {
        errors := errors - {CorreoNoCoincide};
        confirmarCorreo.errors := errors;
      }
    }
    return {};
  }

  const Messages: seq<(ErrorKey, string)> := [
    (Required, "Este campo es obligatorio."),
    (Email, "Por favor, introduce un correo válido."),
    (MinLength, "La contraseña debe tener al menos 8 caracteres."),
    (InvalidPassword, "La contraseña debe tener al menos 8 caracteres, incluir números y caracteres especiales."),
    (CorreoNoCoincide, "Los correos electrónicos no coinciden."),
    (InvalidInput, "Caracteres no permitidos detectados.")
  ]

  /** `getErrorMessage`: required, email, minlength, invalidPassword, correoNoCoincide, invalidInput, in that order. */
  function GetErrorMessage(errors: set<ErrorKey>): string {
    FirstMessage(errors, Messages)
  }

  /** The message a password gets: empty, short, weak and filtered passwords each have their own. */
  lemma PasswordMessage(v: string)
    ensures v == "" ==> GetErrorMessage(FieldErrors(Password, v, true)) == Messages[0].1
    ensures v != "" && |v| < 8 ==> GetErrorMessage(FieldErrors(Password, v, true)) == Messages[2].1
    ensures |v| >= 8 && !PasswordValid(v) ==> GetErrorMessage(FieldErrors(Password, v, true)) == Messages[3].1
    ensures |v| >= 8 && PasswordValid(v) && Sanitizar(v) ==> GetErrorMessage(FieldErrors(Password, v, true)) == Messages[5].1
    ensures |v| >= 8 && PasswordValid(v) && !Sanitizar(v) ==> GetErrorMessage(FieldErrors(Password, v, true)) == ""
  {
    var e := FieldErrors(Password, v, true);
    if v == "" {
      FirstMessageSpec(e, Messages, 0);
    } else if |v| < 8 {
      FirstMessageSpec(e, Messages, 2);
    } else if !PasswordValid(v) {
      FirstMessageSpec(e, Messages, 3);
    } else if Sanitizar(v) {
      FirstMessageSpec(e, Messages, 5);
    } else {
      FirstMessageNone(e, Messages);
    }
  }

  /**
   * A mismatched confirmation shows the mismatch message even when the value
   * is malformed: the group validator has replaced its other errors.
   */
  lemma MismatchHidesOtherErrors(correo: string, confirmar: string, emailOk: bool)
    requires confirmar != "" && correo != confirmar
    ensures GetErrorMessage(MatchErrors(correo, confirmar, FieldErrors(ConfirmarCorreo, confirmar, emailOk)))
            == "Los correos electrónicos no coinciden."
  {
    FirstMessageSpec({CorreoNoCoincide}, Messages, 4);
  }

  /** `validarCaracteres`: the key press is prevented when the key's name holds a forbidden character. */
  predicate ValidarCaracteres(key: string) {
    KeyBlocked(key, Forbidden)
  }

  /** With pasting prevented, nothing typed into a field is ever reported by `sanitizarInput`. */
  lemma TypedValueNeverFlagged(keys: seq<string>)
    ensures !Sanitizar(Typed(keys, Forbidden))
  {
    TypedValueHasNoForbiddenChar(keys, Forbidden);
  }
}
