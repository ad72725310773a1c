/**
 * The landing page's "notify me" box: the loose e-mail check, the message
 * it shows, and the timer that clears that message.
 */
module Contenido {
  import Text
  import Contacto

  /**
   * `validateEmail`, the pattern `x@y.z`: one '@' at `i` with something
   * before it, a '.' at `j` with something between the two and something
   * after it, and no white space and no other '@' anywhere.
   */
  predicate ValidateEmail(v: string) {
    exists i, j :: 0 < i && i + 1 < j && j + 1 < |v| && v[i] == '@' && v[j] == '.' &&
      forall k :: 0 <= k < |v| ==> !Text.IsJsWhitespace(v[k]) && (v[k] == '@' ==> k == i)
  }

  /** Every address the contact form accepts, the landing page accepts. */
  lemma ContactoEmailIsAccepted(v: string)
    ensures Contacto.EmailPattern(v) ==> ValidateEmail(v)
  {
    if Contacto.EmailPattern(v) {
      var i: nat, j: nat :| Contacto.EmailSplit(v, i, j);
      ContactoWitness(v, i, j);
    }
  }

  lemma ContactoWitness(v: string, i: nat, j: nat)
    requires Contacto.EmailSplit(v, i, j)
    ensures ValidateEmail(v)
  {
    Contacto.EmailPatternShape(v, i, j);
    forall k | 0 <= k < |v|
      ensures !Text.IsJsWhitespace(v[k])
    {
      if k < i {
        assert Contacto.LocalChar(v[k]);
      } else if i < k < j {
        assert Contacto.DomainChar(v[k]);
      } else if j < k {
        assert Text.IsAsciiLetter(v[k]);
      }
    }
  }

  /** The landing page accepts addresses the contact form refuses, such as a non-ASCII local part. */
  lemma LandingPageIsLooser()
    ensures ValidateEmail("ñ@a.b") && !Contacto.EmailPattern("ñ@a.b")
  {
    var w := "ñ@a.b";
    assert 0 < 1 && 1 + 1 < 3 && 3 + 1 < |w| && w[1] == '@' && w[3] == '.';
    assert forall k :: 0 <= k < |w| ==> !Text.IsJsWhitespace(w[k]) && (w[k] == '@' ==> k == 1);
    assert !Contacto.LocalChar(w[0]);
  }

  datatype TipoMensaje = Ninguno | Exito | Error

  const EmailInvalido := "Por favor ingresa un email válido"

  /** The thanks message, which repeats the address. */
  function Gracias(email: string): string {
    "Gracias! Te notificaremos cuando lancemos nuevas funciones a " + email
  }

  class NotifyView {
    var email: string
    var mensaje: string
    var tipoMensaje: TipoMensaje
    /** Five-second timers that have not yet fired. */
    var pendientes: nat

    constructor()
      ensures email == "" && mensaje == "" && tipoMensaje == Ninguno && pendientes == 0
    {
      email, mensaje, tipoMensaje, pendientes := "", "", Ninguno, 0;
    }

    /**
     * `handleNotify`: a valid address is thanked and cleared from the box;
     * anything else gets the error message and stays. Either way a timer
     * will clear the message.
     */
    method HandleNotify()
      modifies this`email, this`mensaje, this`tipoMensaje, this`pendientes
      ensures pendientes == old(pendientes) + 1
      ensures old(email) != "" && ValidateEmail(old(email)) ==>
                mensaje == Gracias(old(email)) && tipoMensaje == Exito && email == ""
      ensures !(old(email) != "" && ValidateEmail(old(email))) ==>
                mensaje == EmailInvalido && tipoMensaje == Error && email == old(email)
    {
      if email != "" && ValidateEmail(email) {
        mensaje := Gracias(email);
        tipoMensaje := Exito;
        email := "";
      } else {
        mensaje := EmailInvalido;
        tipoMensaje := Error;
      }
      pendientes := pendientes + 1;
    }

    /** A timer fires: whatever message is shown now is cleared, even a newer one. */
    method OnTimeout()
      requires pendientes > 0
      modifies this`mensaje, this`tipoMensaje, this`pendientes
      ensures mensaje == "" && tipoMensaje == Ninguno && pendientes == old(pendientes) - 1
    {
      mensaje := "";
      tipoMensaje := Ninguno;
      pendientes := pendientes - 1;
    }
  }

  /** The message is never empty while shown, and the two messages cannot be confused. */
  lemma MessagesAreDistinct(email: string)
    ensures Gracias(email) != EmailInvalido && Gracias(email) != "" && EmailInvalido != ""
  {
    assert |Gracias(email)| > |EmailInvalido| > 0;
  }
}
