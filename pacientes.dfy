/**
 * The patient page: the name and age checks of the form, the choice between
 * updating and creating a patient, and the changes the API's answers make to
 * the displayed list. Requests are returned to the caller; the answers come
 * back through the `On...` methods.
 */
module Pacientes {
  import opened Wrappers
  import Text
  import opened Records

  /** How many characters at the start of `s` the name class admits. */
  function NameRun(s: string): (n: nat)
    ensures n <= |s|
    ensures forall i :: 0 <= i < n ==> Text.IsNameChar(s[i])
    ensures n < |s| ==> !Text.IsNameChar(s[n])
  {
    if s != [] && Text.IsNameChar(s[0]) then 1 + NameRun(s[1..]) else 0
  }

  /** `validarNombre`: the trimmed name is at least two admitted characters. */
  function ValidarNombre(nombre: string): (ok: bool)
    ensures ok <==> |Text.Trim(nombre)| >= 2 &&
                    forall i :: 0 <= i < |Text.Trim(nombre)| ==> Text.IsNameChar(Text.Trim(nombre)[i])
  {
    var t := Text.Trim(nombre);
    NameRun(t) == |t| && |t| >= 2
  }

  /** White space around a name never changes the verdict. */
  lemma ValidarNombreIgnoresPadding(pre: string, nombre: string, post: string)
    requires Text.AllWhitespace(pre) && Text.AllWhitespace(post)
    ensures ValidarNombre(pre + nombre + post) == ValidarNombre(nombre)
  {
    Text.TrimIgnoresPadding(pre, nombre, post);
  }

  /** The age check `!edad || edad <= 1 || edad > 100`, negated. */
  predicate EdadValida(edad: real) {
    !(edad == 0.0 || edad <= 1.0 || edad > 100.0)
  }

  /**
   * The accepted ages are the numbers above 1 up to 100: age 1 itself is
   * refused although the message names it, and a fractional age passes.
   */
  lemma EdadValidaRange(edad: real)
    ensures EdadValida(edad) <==> 1.0 < edad <= 100.0
    ensures !EdadValida(1.0) && EdadValida(1.5) && EdadValida(100.0) && !EdadValida(100.5)
  {
  }

  const NombreInvalido := "El nombre debe tener al menos 2 letras y solo contener letras y espacios."
  const EdadInvalida := "La edad debe estar entre 1 y 100 años."
  const GeneroFaltante := "Por favor, selecciona un género."

  /** What `guardarPaciente` does: an alert, or the request it sends. */
  datatype SaveRequest = Rejected(alert: string) | Put(id: int, body: Paciente) | Post(body: Paciente)

  /** The patient with the given id, as `findIndex` finds it: the first match, or -1. */
  method FindIndexById(lista: seq<Paciente>, id: Option<int>) returns (index: int)
    ensures -1 <= index < |lista|
    ensures index == -1 <==> forall k :: 0 <= k < |lista| ==> lista[k].id != id
    ensures index >= 0 ==> lista[index].id == id && forall k :: 0 <= k < index ==> lista[k].id != id
  {
    var i := 0;
    while i < |lista|
      invariant 0 <= i <= |lista|
      invariant forall k :: 0 <= k < i ==> lista[k].id != id
    {
      if lista[i].id == id {
        return i;
      }
      i := i + 1;
    }
    return -1;
  }

  /** The list after the first patient with the same id as `p` is replaced by `p`. */
  function ReplaceFirst(lista: seq<Paciente>, p: Paciente): seq<Paciente> {
    if lista == [] then []
    else if lista[0].id == p.id then [p] + lista[1..]
    else [lista[0]] + ReplaceFirst(lista[1..], p)
  }

  /** Replacing touches exactly the first match, and nothing when there is none. */
  lemma {:induction false} ReplaceFirstSpec(lista: seq<Paciente>, p: Paciente, index: int)
    requires -1 <= index < |lista|
    requires index == -1 <==> forall k :: 0 <= k < |lista| ==> lista[k].id != p.id
    requires index >= 0 ==> lista[index].id == p.id && forall k :: 0 <= k < index ==> lista[k].id != p.id
    ensures index == -1 ==> ReplaceFirst(lista, p) == lista
    ensures index >= 0 ==> ReplaceFirst(lista, p) == lista[index := p]
  {
    if lista != [] {
      if lista[0].id != p.id {
        var rest := if index == -1 then -1 else index - 1;
        assert forall k :: 0 <= k < |lista[1..]| ==> lista[1..][k] == lista[k + 1];
        ReplaceFirstSpec(lista[1..], p, rest);
        if index >= 0 {
          assert [lista[0]] + lista[1..][rest := p] == lista[index := p];
        } else {
          assert [lista[0]] + lista[1..] == lista;
        }
      } else {
        assert [p] + lista[1..] == lista[0 := p];
      }
    }
  }

  /** The patients whose id is not `id`, in their order (`filter(p => p.id !== id)`). */
  function FilterOutId(lista: seq<Paciente>, id: int): (r: seq<Paciente>)
    ensures |r| <= |lista|
    ensures forall k :: 0 <= k < |r| ==> r[k] in lista && r[k].id != Some(id)
    ensures forall p :: p in lista && p.id != Some(id) ==> p in r
    ensures forall p :: multiset(r)[p] == if p.id == Some(id) then 0 else multiset(lista)[p]
  {
    if lista == [] then []
    else
      assert lista == [lista[0]] + lista[1..];
      if lista[0].id == Some(id) then FilterOutId(lista[1..], id)
      else [lista[0]] + FilterOutId(lista[1..], id)
  }

  /**
   * Filtering goes element by element and keeps order: it distributes over
   * concatenation, and on one patient it keeps or drops that patient.
   */
  lemma {:induction false} FilterOutIdAppend(a: seq<Paciente>, b: seq<Paciente>, id: int)
    ensures FilterOutId(a + b, id) == FilterOutId(a, id) + FilterOutId(b, id)
  {
    if a == [] {
      assert a + b == b;
    } else {
      assert (a + b)[0] == a[0];
      assert (a + b)[1..] == a[1..] + b;
      FilterOutIdAppend(a[1..], b, id);
    }
  }

  lemma FilterOutIdSingle(p: Paciente, id: int)
    ensures FilterOutId([p], id) == if p.id == Some(id) then [] else [p]
  {
    assert [p][1..] == [];
  }

  /** Deleting twice is deleting once. */
  lemma {:induction false} FilterOutIdIdempotent(lista: seq<Paciente>, id: int)
    ensures FilterOutId(FilterOutId(lista, id), id) == FilterOutId(lista, id)
  {
    if lista != [] {
      var rest := FilterOutId(lista[1..], id);
      FilterOutIdIdempotent(lista[1..], id);
      if lista[0].id != Some(id) {
        FilterOutIdAppend([lista[0]], rest, id);
        FilterOutIdSingle(lista[0], id);
      }
    }
  }

  /** Deleting an id no patient carries changes nothing. */
  lemma {:induction false} FilterOutIdAbsent(lista: seq<Paciente>, id: int)
    requires forall k :: 0 <= k < |lista| ==> lista[k].id != Some(id)
    ensures FilterOutId(lista, id) == lista
  {
    if lista != [] {
      assert forall k :: 0 <= k < |lista[1..]| ==> lista[1..][k] == lista[k + 1];
      FilterOutIdAbsent(lista[1..], id);
      assert [lista[0]] + lista[1..] == lista;
    }
  }

  /** `eliminarPaciente`: the id to delete, when there is one and the user confirms. */
  function EliminarPaciente(id: Option<int>, confirmed: bool): (request: Option<int>)
    ensures request.Some? <==> id.Some? && confirmed
    ensures request.Some? ==> request == id
  {
    if id.None? then None
    else if confirmed then id
    else None
  }

  class PacientesView {
    var listaPacientes: seq<Paciente>
    var nuevoPaciente: Paciente
    var mostrarFormulario: bool
    var modoEdicion: bool

    constructor()
      ensures listaPacientes == [] && nuevoPaciente == PacienteVacio
      ensures !mostrarFormulario && !modoEdicion
    {
      listaPacientes := [];
      nuevoPaciente := PacienteVacio;
      mostrarFormulario := false;
      modoEdicion := false;
    }

    /** The patients received when the page loads. */
    method OnPacientesCargados(data: seq<Paciente>)
      modifies this`listaPacientes
      ensures listaPacientes == data
    {
      listaPacientes := data;
    }

    /** `mostrarFormularioPaciente`: an empty form, for a new patient. */
    method MostrarFormularioPaciente()
      modifies this`nuevoPaciente, this`mostrarFormulario, this`modoEdicion
      ensures nuevoPaciente == PacienteVacio && mostrarFormulario && !modoEdicion
    {
      nuevoPaciente := PacienteVacio;
      mostrarFormulario := true;
      modoEdicion := false;
    }

    /** `actualizarPaciente`: the form holds a copy of the patient, in edit mode. */
    method ActualizarPaciente(paciente: Paciente)
      modifies this`nuevoPaciente, this`mostrarFormulario, this`modoEdicion
      ensures nuevoPaciente == paciente && mostrarFormulario && modoEdicion
    {
      nuevoPaciente := paciente;
      mostrarFormulario := true;
      modoEdicion := true;
    }

    /** `cerrarFormulario`: the form is hidden, emptied and out of edit mode. */
    method CerrarFormulario()
      modifies this`nuevoPaciente, this`mostrarFormulario, this`modoEdicion
      ensures nuevoPaciente == PacienteVacio && !mostrarFormulario && !modoEdicion
    {
      mostrarFormulario := false;
      modoEdicion := false;
      nuevoPaciente := PacienteVacio;
    }

    /**
     * `guardarPaciente`: name, then age, then gender; the first failing check
     * is the alert. A valid form is a PUT when editing a patient with a
     * truthy id, a POST otherwise.
     */
    method GuardarPaciente() returns (request: SaveRequest)
      ensures !ValidarNombre(nuevoPaciente.nombre) ==> request == Rejected(NombreInvalido)
      ensures ValidarNombre(nuevoPaciente.nombre) && !EdadValida(nuevoPaciente.edad) ==> request == Rejected(EdadInvalida)
      ensures ValidarNombre(nuevoPaciente.nombre) && EdadValida(nuevoPaciente.edad) && nuevoPaciente.genero == ""
              ==> request == Rejected(GeneroFaltante)
      ensures request.Rejected? <==>
              !ValidarNombre(nuevoPaciente.nombre) || !EdadValida(nuevoPaciente.edad) || nuevoPaciente.genero == ""
      ensures request.Put? <==> !request.Rejected? && modoEdicion && Truthy(nuevoPaciente.id)
      ensures request.Put? ==> request == Put(nuevoPaciente.id.value, nuevoPaciente)
      ensures request.Post? ==> request == Post(nuevoPaciente)
    {
      var p := nuevoPaciente;
      if !ValidarNombre(p.nombre) {
        return Rejected(NombreInvalido);
      }
      if p.edad == 0.0 || p.edad <= 1.0 || p.edad > 100.0 {
        return Rejected(EdadInvalida);
      }
      if p.genero == "" {
        return Rejected(GeneroFaltante);
      }
      if modoEdicion && p.id.Some? && p.id.value != 0 {
        return Put(p.id.value, p);
      }
      return Post(p);
    }

    /** The answer to the PUT: the first patient with the returned id is replaced, and the form closes. */
    method OnPacienteActualizado(actualizado: Paciente)
      modifies this
      ensures listaPacientes == ReplaceFirst(old(listaPacientes), actualizado)
      ensures nuevoPaciente == PacienteVacio && !mostrarFormulario && !modoEdicion
    {
      var index := FindIndexById(listaPacientes, actualizado.id);
      ReplaceFirstSpec(listaPacientes, actualizado, index);
      if index != -1 {
        listaPacientes := listaPacientes[index := actualizado];
      }
      CerrarFormulario();
    }

    /** The answer to the POST: the created patient is appended, and the form closes. */
    method OnPacienteCreado(creado: Paciente)
      modifies this
      ensures listaPacientes == old(listaPacientes) + [creado]
      ensures nuevoPaciente == PacienteVacio && !mostrarFormulario && !modoEdicion
    {
      listaPacientes := listaPacientes + [creado];
      CerrarFormulario();
    }

    /** The answer to the DELETE: every patient with that id leaves the list. */
    method OnPacienteEliminado(id: int)
      modifies this`listaPacientes
      ensures listaPacientes == FilterOutId(old(listaPacientes), id)
    {
      listaPacientes := FilterOutId(listaPacientes, id);
    }
  }
}
