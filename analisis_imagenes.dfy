/**
 * The image-analysis page: a list of at most five loaded images, the two
 * guards before an analysis starts, the simulated result, and the four
 * charts whose series the page fills or resets.
 *
 * File reading is asynchronous: `CargarImagen` starts the reads, and each
 * finished read arrives through `OnImagenLeida`, in any order. The delayed
 * completion of an analysis arrives through `OnAnalisisTerminado`.
 */
module AnalisisImagenes {
  import opened Wrappers
  import Text
  import opened Records

  const MaxImages := 5

  /** The data series of the four charts: anomalies, severity, trend, and the three risk-factor series. */
  datatype Charts = Charts(anomalias: seq<int>, severidad: seq<int>, tendencia: seq<int>, factores: seq<seq<int>>)

  const ChartsEnCero := Charts([0, 0], [0, 0, 0], [0, 0, 0, 0, 0], [[0, 0, 0, 0], [0, 0, 0, 0], [0, 0, 0, 0]])
  const ChartsAnalisis := Charts([70, 30], [50, 30, 20], [10, 25, 15, 30, 20],
                                 [[20, 30, 10, 25], [15, 20, 25, 30], [10, 15, 20, 15]])

  /** The series lengths the charts are created with: 2, 3, 5, and three series of 4. */
  predicate WellShaped(c: Charts) {
    |c.anomalias| == 2 && |c.severidad| == 3 && |c.tendencia| == 5 &&
    |c.factores| == 3 && forall k :: 0 <= k < 3 ==> |c.factores[k]| == 4
  }

  /** Resetting and filling keep every series at its length, and the reset is all zeros. */
  lemma ChartsShapes()
    ensures WellShaped(ChartsEnCero) && WellShaped(ChartsAnalisis)
    ensures forall k :: 0 <= k < 3 ==> forall j :: 0 <= j < 4 ==> ChartsEnCero.factores[k][j] == 0
    ensures forall j :: 0 <= j < 5 ==> ChartsEnCero.tendencia[j] == 0
  {
  }

  /**
   * JavaScript's `splice(start, 1)` on a list: a negative start counts from
   * the end (and stops at 0), a start past the end removes nothing.
   */
  function SpliceOne<T>(s: seq<T>, start: int): (r: seq<T>)
    ensures 0 <= start < |s| ==> r == s[..start] + s[start + 1..]
    ensures start >= |s| ==> r == s
    ensures -|s| <= start < 0 ==> r == s[..|s| + start] + s[|s| + start + 1..]
    ensures start < -|s| && |s| > 0 ==> r == s[1..]
  {
    var k := if start < 0 then (if |s| + start > 0 then |s| + start else 0) else start;
    if k < |s| then s[..k] + s[k + 1..] else s
  }

  /** A splice at a valid index removes exactly that element: one fewer, same multiset otherwise. */
  lemma SpliceOneRemovesOne<T>(s: seq<T>, index: int)
    requires 0 <= index < |s|
    ensures |SpliceOne(s, index)| == |s| - 1
    ensures multiset(SpliceOne(s, index)) + multiset{s[index]} == multiset(s)
    ensures forall k :: 0 <= k < index ==> SpliceOne(s, index)[k] == s[k]
    ensures forall k :: index <= k < |s| - 1 ==> SpliceOne(s, index)[k] == s[k + 1]
  {
    assert s == s[..index] + [s[index]] + s[index + 1..];
  }

  /** The result text of a finished analysis, from the patient id and the image count at that moment. */
  function ResultadoTexto(pacienteId: Option<int>, imagenes: nat): string {
    "Análisis para paciente ID " + ShowNullable(pacienteId) + " completo. Posible anomalía detectada en "
      + Text.NatToString(imagenes) + " imagen(es)."
  }

  const SinPaciente := "Selecciona un paciente antes de analizar la imagen."
  const SinImagenes := "Por favor, sube al menos una imagen antes de procesar."
  const FaltanDatos := "Faltan datos para guardar análisis"

  class AnalisisImagenesView {
    /** Whether the four canvases are present, so that the charts can be created. */
    const canvasReady: bool
    var pacienteSeleccionadoId: Option<int>
    var imagenesCargadas: seq<string>
    /** The data of the reads started and not yet finished. */
    var lecturas: seq<string>
    var tipoAnalisis: string
    var resultadoAnalisis: Option<string>
    var mostrarMensajeAnalisis: bool
    /** The charts, once created; `None` while `chartsInitialized` is false. */
    var charts: Option<Charts>
    /** The number of analyses started whose delayed completion has not arrived yet. */
    var pendientes: nat

    ghost predicate Valid()
      reads this
    {
      |imagenesCargadas| <= MaxImages && (charts.Some? ==> canvasReady && WellShaped(charts.value))
    }

    constructor(canvasReady: bool)
      ensures Valid()
      ensures this.canvasReady == canvasReady
      ensures pacienteSeleccionadoId == None && imagenesCargadas == [] && lecturas == []
      ensures tipoAnalisis == "Anomalías" && resultadoAnalisis == None && !mostrarMensajeAnalisis
      ensures charts == None && pendientes == 0
    {
      this.canvasReady := canvasReady;
      pacienteSeleccionadoId := None;
      imagenesCargadas := [];
      lecturas := [];
      tipoAnalisis := "Anomalías";
      resultadoAnalisis := None;
      mostrarMensajeAnalisis := false;
      charts := None;
      pendientes := 0;
    }

    /** `inicializarGraficos`: the charts are created with zero series when the canvases are there. */
    method InicializarGraficos()
      requires Valid()
      modifies this`charts
      ensures Valid()
      ensures charts == if canvasReady then Some(ChartsEnCero) else old(charts)
    {
      if canvasReady {
        charts := Some(ChartsEnCero);
      }
    }

    /** `onSeleccionarPaciente`, with the selected value already converted to a number. */
    method OnSeleccionarPaciente(value: int)
      modifies this`pacienteSeleccionadoId
      ensures pacienteSeleccionadoId == Some(value)
    {
      pacienteSeleccionadoId := Some(value);
    }

    /** `cargarImagen`: reads start for the first `5 - |imagenesCargadas|` files of the batch, in order. */
    method CargarImagen(files: seq<string>)
      requires Valid()
      modifies this`lecturas
      ensures Valid()
      ensures var slots := MaxImages - |imagenesCargadas|;
              lecturas == old(lecturas) + (if |files| <= slots then files else files[..slots])
    {
      var remainingSlots := MaxImages - |imagenesCargadas|;
      var filesToProcess := if |files| <= remainingSlots then files else files[..remainingSlots];
      lecturas := lecturas + filesToProcess;
    }

    /** A started read finishes: its image is pushed only while the list is shorter than five. */
    method OnImagenLeida(k: nat)
      requires Valid() && k < |lecturas|
      modifies this`lecturas, this`imagenesCargadas
      ensures Valid()
      ensures lecturas == old(lecturas[..k] + lecturas[k + 1..])
      ensures imagenesCargadas == if |old(imagenesCargadas)| < MaxImages
                                  then old(imagenesCargadas) + [old(lecturas[k])]
                                  else old(imagenesCargadas)
    {
      var imageData := lecturas[k];
      lecturas := lecturas[..k] + lecturas[k + 1..];
      if |imagenesCargadas| < MaxImages {
        imagenesCargadas := imagenesCargadas + [imageData];
      }
    }

    /** `destruirGraficos`: every existing chart is reset to zeros. */
    method DestruirGraficos()
      requires Valid()
      modifies this`charts
      ensures Valid()
      ensures charts == if old(charts).Some? then Some(ChartsEnCero) else None
    {
      if charts.Some? {
        charts := Some(ChartsEnCero);
      }
    }

    /** `eliminarImagen`: the element at `index` is spliced out; an emptied list clears the result and the charts. */
    method EliminarImagen(index: int)
      requires Valid()
      modifies this`imagenesCargadas, this`resultadoAnalisis, this`charts
      ensures Valid()
      ensures imagenesCargadas == SpliceOne(old(imagenesCargadas), index)
      ensures imagenesCargadas == [] ==> resultadoAnalisis == None && charts == (if old(charts).Some? then Some(ChartsEnCero) else None)
      ensures imagenesCargadas != [] ==> resultadoAnalisis == old(resultadoAnalisis) && charts == old(charts)
    {
      imagenesCargadas := SpliceOne(imagenesCargadas, index);
      if |imagenesCargadas| == 0 {
        resultadoAnalisis := None;
        DestruirGraficos();
      }
    }

    /** `procesarImagen`: a patient, then at least one image; then the analysis starts. */
    method ProcesarImagen() returns (alert: Option<string>)
      modifies this`mostrarMensajeAnalisis, this`pendientes
      ensures !Truthy(pacienteSeleccionadoId) ==> alert == Some(SinPaciente)
      ensures Truthy(pacienteSeleccionadoId) && imagenesCargadas == [] ==> alert == Some(SinImagenes)
      ensures alert.Some? ==> mostrarMensajeAnalisis == old(mostrarMensajeAnalisis) && pendientes == old(pendientes)
      ensures alert.None? <==> Truthy(pacienteSeleccionadoId) && imagenesCargadas != []
      ensures alert.None? ==> mostrarMensajeAnalisis && pendientes == old(pendientes) + 1
    {
      if !(pacienteSeleccionadoId.Some? && pacienteSeleccionadoId.value != 0) {
        return Some(SinPaciente);
      }
      if |imagenesCargadas| == 0 {
        return Some(SinImagenes);
      }
      mostrarMensajeAnalisis := true;
      pendientes := pendientes + 1;
      return None;
    }

    /** `actualizarGraficos`: creates the charts if needed, then fills them with the fixed series. */
    method ActualizarGraficos()
      requires Valid()
      modifies this`charts
      ensures Valid()
      ensures charts == if canvasReady || old(charts).Some? then Some(ChartsAnalisis) else None
    {
      if charts.None? {
        InicializarGraficos();
      }
      if charts.Some? {
        charts := Some(ChartsAnalisis);
      }
    }

    /**
     * The delayed completion of an analysis: the result names the patient and
     * counts the images as they are when it fires.
     */
    method OnAnalisisTerminado()
      requires Valid() && pendientes > 0
      modifies this`resultadoAnalisis, this`mostrarMensajeAnalisis, this`charts, this`pendientes
      ensures Valid()
      ensures resultadoAnalisis == Some(ResultadoTexto(pacienteSeleccionadoId, |imagenesCargadas|))
      ensures !mostrarMensajeAnalisis && pendientes == old(pendientes) - 1
      ensures charts == if canvasReady || old(charts).Some? then Some(ChartsAnalisis) else None
    {
      pendientes := pendientes - 1;
      resultadoAnalisis := Some(ResultadoTexto(pacienteSeleccionadoId, |imagenesCargadas|));
      mostrarMensajeAnalisis := false;
      ActualizarGraficos();
    }

    /** `guardarAnalisis`: with a result and a patient, the record to store. */
    method GuardarAnalisis() returns (r: Result<NuevoAnalisis, string>)
      ensures r.Success? <==> resultadoAnalisis.Some? && resultadoAnalisis.value != "" && Truthy(pacienteSeleccionadoId)
      ensures r.Failure? ==> r.error == FaltanDatos
      ensures r.Success? ==> r.value == NuevoAnalisis(tipoAnalisis, resultadoAnalisis.value, pacienteSeleccionadoId.value)
    {
      if resultadoAnalisis.None? || resultadoAnalisis.value == "" || !(pacienteSeleccionadoId.Some? && pacienteSeleccionadoId.value != 0) {
        return Failure(FaltanDatos);
      }
      return Success(NuevoAnalisis(tipoAnalisis, resultadoAnalisis.value, pacienteSeleccionadoId.value));
    }
  }

  /** The list after the reads of `finished` complete in that order. */
  function Pushed(imagenes: seq<string>, finished: seq<string>): seq<string>
    decreases |finished|
  {
    if finished == [] then imagenes
    else Pushed(if |imagenes| < MaxImages then imagenes + [finished[0]] else imagenes, finished[1..])
  }

  /** Whatever order the reads finish in, the list never holds more than five images. */
  lemma {:induction false} ReadsNeverOverfill(imagenes: seq<string>, finished: seq<string>)
    requires |imagenes| <= MaxImages
    ensures |Pushed(imagenes, finished)| <= MaxImages
    ensures |Pushed(imagenes, finished)| == if |imagenes| + |finished| <= MaxImages then |imagenes| + |finished| else MaxImages
    decreases |finished|
  {
    if finished != [] {
      ReadsNeverOverfill(if |imagenes| < MaxImages then imagenes + [finished[0]] else imagenes, finished[1..]);
    }
  }
}
