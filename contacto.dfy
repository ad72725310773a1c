/**
 * The contact form: its field validators, the message shown for a field,
 * and the simulated send, which after a delay shows a confirmation and
 * resets the form. Angular's own e-mail validator is outside the model:
 * its verdict is the parameter `emailOk`.
 */
module Contacto {
  import Text
  import opened Forms

  /** `validateName`: empty, or only letters (with the Spanish accented ones) and white space. */
  predicate ValidateName(v: string) {
    v == "" || forall k :: 0 <= k < |v| ==> Text.IsNameChar(v[k])
  }

  predicate LocalChar(c: char) {
    Text.IsAsciiLetter(c) || Text.IsDigit(c) || c in {'.', '_', '%', '+', '-'}
  }

  predicate DomainChar(c: char) {
    Text.IsAsciiLetter(c) || Text.IsDigit(c) || c in {'.', '-'}
  }

  /**
   * `v` read as `local@domain.tld` with '@' at `i` and the last '.' at `j`:
   * a non-empty local part, a non-empty domain and a top-level domain of two
   * to four ASCII letters.
   */
  predicate EmailSplit(v: string, i: nat, j: nat) {
    0 < i && i + 1 < j && j + 3 <= |v| <= j + 5 && v[i] == '@' && v[j] == '.' &&
    (forall k :: 0 <= k < i ==> LocalChar(v[k])) &&
    (forall k :: i < k < j ==> DomainChar(v[k])) &&
    (forall k :: j < k < |v| ==> Text.IsAsciiLetter(v[k]))
  }

  /** The pattern `^[a-zA-Z0-9._%+-]+@[a-zA-Z0-9.-]+\.[a-zA-Z]{2,4}$` of `validateEmail`. */
  predicate EmailPattern(v: string) {
    exists i: nat, j: nat | i < |v| && j < |v| :: EmailSplit(v, i, j)
  }

  /** `validateEmail`: empty, or the pattern. */
  predicate ValidateEmail(v: string) {
    v == "" || EmailPattern(v)
  }

  /** An address the pattern accepts has exactly one '@', and the top-level domain follows the last '.'. */
  lemma EmailPatternShape(v: string, i: nat, j: nat)
    requires EmailSplit(v, i, j)
    ensures forall k :: 0 <= k < |v| && v[k] == '@' ==> k == i
    ensures Text.LastIndexOf(v, '@') == i && Text.LastIndexOf(v, '.') == j
  {
    assert forall k :: 0 <= k < |v| && k != i && k != j ==> v[k] != '@' && (k > j ==> v[k] != '.');
    LastIndexOfIs(v, '@', i);
    LastIndexOfIs(v, '.', j);
  }

  lemma LastIndexOfIs(s: string, c: char, i: nat)
    requires i < |s| && s[i] == c && forall k :: i < k < |s| ==> s[k] != c
    ensures Text.LastIndexOf(s, c) == i
  {
    var r := Text.LastIndexOf(s, c);
    assert !(r > i);
    assert !(r < i);
  }

  /** `validatePhoneNumber`: empty, or exactly ten digits. */
  predicate ValidatePhoneNumber(v: string) {
    v == "" || (|v| == 10 && forall k :: 0 <= k < |v| ==> Text.IsDigit(v[k]))
  }

  /** The form's controls; `Correo` is the control named `email`. */
  datatype Campo = Nombre | Correo | Telefono | Mensaje | MetodoContacto

  /** The errors the validators of `campo` give a value. */
  function FieldErrors(campo: Campo, v: string, emailOk: bool): (errors: set<ErrorKey>)
    ensures errors == {} <==>
              match campo
              case Nombre => v != "" && |v| >= 3 && ValidateName(v)
              case Correo => v != "" && emailOk && ValidateEmail(v)
              case Telefono => ValidatePhoneNumber(v)
              case Mensaje => 10 <= |v| <= 500
              case MetodoContacto => v != ""
  {
    match campo
    case Nombre =>
      (if RequiredFails(v) then {Required} else {}) + (if MinLengthFails(v, 3) then {MinLength} else {})
      + (if !ValidateName(v) then {InvalidName} else {})
    case Correo =>
      (if RequiredFails(v) then {Required} else {}) + (if v != "" && !emailOk then {Email} else {})
      + (if !ValidateEmail(v) then {InvalidEmail} else {})
    case Telefono =>
      if !ValidatePhoneNumber(v) then {InvalidPhone} else {}
    case Mensaje =>
      (if RequiredFails(v) then {Required} else {}) + (if MinLengthFails(v, 10) then {MinLength} else {})
      + (if MaxLengthFails(v, 500) then {MaxLength} else {})
    case MetodoContacto =>
      if RequiredFails(v) then {Required} else {}
  }

  const Obligatorio := "Este campo es obligatorio."
  const Minimo3 := "Mínimo 3 caracteres."
  const Minimo10 := "Mínimo 10 caracteres."
  const Maximo500 := "Máximo 500 caracteres."
  const CorreoValido := "Ingrese un correo válido."
  const SoloLetras := "Solo letras y espacios."
  const DiezDigitos := "Ingrese 10 dígitos."

  /**
   * `getErrorMessage`: required first; a too-short value names the minimum
   * of the name or the message field; then too long, e-mail, name and phone.
   */
  function GetErrorMessage(campo: Campo, errors: set<ErrorKey>): string {
    if errors == {} then ""
    else if Required in errors then Obligatorio
    else if MinLength in errors && campo == Nombre then Minimo3
    else if MinLength in errors && campo == Mensaje then Minimo10
    else if MaxLength in errors then Maximo500
    else if Email in errors || InvalidEmail in errors then CorreoValido
    else if InvalidName in errors then SoloLetras
    else if InvalidPhone in errors || Pattern in errors then DiezDigitos
    else ""
  }

  /** The message each field shows for a value: every error of the form is reported. */
  lemma FieldMessages(v: string, emailOk: bool)
    ensures GetErrorMessage(Nombre, FieldErrors(Nombre, v, emailOk)) ==
              if v == "" then Obligatorio else if |v| < 3 then Minimo3
              else if !ValidateName(v) then SoloLetras else ""
    ensures GetErrorMessage(Correo, FieldErrors(Correo, v, emailOk)) ==
              if v == "" then Obligatorio else if !emailOk || !ValidateEmail(v) then CorreoValido else ""
    ensures GetErrorMessage(Telefono, FieldErrors(Telefono, v, emailOk)) ==
              if !ValidatePhoneNumber(v) then DiezDigitos else ""
    ensures GetErrorMessage(Mensaje, FieldErrors(Mensaje, v, emailOk)) ==
              if v == "" then Obligatorio else if |v| < 10 then Minimo10
              else if |v| > 500 then Maximo500 else ""
    ensures GetErrorMessage(MetodoContacto, FieldErrors(MetodoContacto, v, emailOk)) ==
              if v == "" then Obligatorio else ""
  {
  }

  /** The form is valid when no field has an error. */
  predicate FormularioValido(nombre: string, email: string, telefono: string, mensaje: string,
                             metodoContacto: string, emailOk: bool) {
    FieldErrors(Nombre, nombre, emailOk) == {} && FieldErrors(Correo, email, emailOk) == {}
    && FieldErrors(Telefono, telefono, emailOk) == {} && FieldErrors(Mensaje, mensaje, emailOk) == {}
    && FieldErrors(MetodoContacto, metodoContacto, emailOk) == {}
  }

  /** After the reset, the form cannot be sent again without being filled in. */
  lemma ResetFormIsInvalid(emailOk: bool)
    ensures !FormularioValido("", "", "", "", "email", emailOk)
    ensures FieldErrors(Telefono, "", emailOk) == {} && FieldErrors(MetodoContacto, "email", emailOk) == {}
  {
    assert Required in FieldErrors(Nombre, "", emailOk);
  }

  const EnvioExitoso := "¡Mensaje enviado correctamente! Nos pondremos en contacto pronto."

  class ContactoView {
    var nombre: string
    var email: string
    var telefono: string
    var mensaje: string
    var metodoContacto: string
    var touched: bool
    var enviando: bool
    var mensajeExito: string
    var mensajeError: string
    /** Simulated sends whose delay has not yet run out. */
    var pendientes: nat

    constructor()
      ensures nombre == "" && email == "" && telefono == "" && mensaje == "" && metodoContacto == "email"
      ensures !touched && !enviando && mensajeExito == "" && mensajeError == "" && pendientes == 0
    {
      nombre, email, telefono, mensaje, metodoContacto := "", "", "", "", "email";
      touched, enviando := false, false;
      mensajeExito, mensajeError := "", "";
      pendientes := 0;
    }

    /** The user edits the form. */
    method Editar(nombre: string, email: string, telefono: string, mensaje: string, metodoContacto: string)
      modifies this`nombre, this`email, this`telefono, this`mensaje, this`metodoContacto
      ensures this.nombre == nombre && this.email == email && this.telefono == telefono
      ensures this.mensaje == mensaje && this.metodoContacto == metodoContacto
    {
      this.nombre, this.email, this.telefono, this.mensaje, this.metodoContacto :=
        nombre, email, telefono, mensaje, metodoContacto;
    }

    /** `enviarFormulario`: an invalid form is only marked touched; a valid one starts the simulated send. */
    method EnviarFormulario(emailOk: bool) returns (enviado: bool)
      modifies this`touched, this`enviando, this`mensajeExito, this`mensajeError, this`pendientes
      ensures enviado <==> FormularioValido(nombre, email, telefono, mensaje, metodoContacto, emailOk)
      ensures !enviado ==> touched && enviando == old(enviando) && mensajeExito == old(mensajeExito)
                           && mensajeError == old(mensajeError) && pendientes == old(pendientes)
      ensures enviado ==> touched == old(touched) && enviando && mensajeExito == "" && mensajeError == ""
                          && pendientes == old(pendientes) + 1
    {
      if !FormularioValido(nombre, email, telefono, mensaje, metodoContacto, emailOk) {
        touched := true;
        return false;
      }
      enviando := true;
      mensajeExito := "";
      mensajeError := "";
      pendientes := pendientes + 1;
      return true;
    }

    /** The delay of a send runs out: confirmation, reset form (contact by e-mail), no longer sending. */
    method OnEnvioTimeout()
      requires pendientes > 0
      modifies this`nombre, this`email, this`telefono, this`mensaje, this`metodoContacto
      modifies this`touched, this`enviando, this`mensajeExito, this`pendientes
      ensures mensajeExito == EnvioExitoso && !enviando && !touched && pendientes == old(pendientes) - 1
      ensures nombre == "" && email == "" && telefono == "" && mensaje == "" && metodoContacto == "email"
    {
      mensajeExito := EnvioExitoso;
      nombre, email, telefono, mensaje, metodoContacto := "", "", "", "", "email";
      touched := false;
      enviando := false;
      pendientes := pendientes - 1;
    }
  }
}
