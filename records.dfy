/**
 * The records the dashboard pages exchange with the API, and the two
 * JavaScript conversions they rely on: the truthiness of an optional number
 * and the text a missing field prints as inside a template literal.
 */
module Records {
  import opened Wrappers
  import Text

  /** A patient. The id is absent until the API assigns one; the age is a JavaScript number. */
  datatype Paciente = Paciente(id: Option<int>, nombre: string, edad: real, genero: string)

  /** The empty form: `{ nombre: '', edad: 0, genero: '' }`. */
  const PacienteVacio := Paciente(None, "", 0.0, "")

  /** The body of a POST that stores an analysis for a patient. */
  datatype NuevoAnalisis = NuevoAnalisis(tipo: string, resultado: string, pacienteId: int)

  /** An entry of a patient's history as the API lists it; date and patient name may be missing. */
  datatype Analisis = Analisis(fecha: Option<string>, tipo: string, resultado: string, paciente: Option<string>)

  /** JavaScript truthiness of an optional number: present and different from 0. */
  predicate Truthy(n: Option<int>) {
    n.Some? && n.value != 0
  }

  /** An optional field inside a template literal: a missing one prints as "undefined". */
  function Show(v: Option<string>): (s: string)
    ensures v.Some? ==> s == v.value
    ensures v.None? ==> s == "undefined"
  {
    match v
    case None => "undefined"
    case Some(text) => text
  }

  /** A nullable number inside a template literal: `null` prints as "null". */
  function ShowNullable(n: Option<int>): (s: string)
    ensures n.None? ==> s == "null"
    ensures n.Some? ==> s == Text.IntToString(n.value)
  {
    match n
    case None => "null"
    case Some(v) => Text.IntToString(v)
  }
}
