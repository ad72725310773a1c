/**
 * The ECG page: choosing an image, the two guards before it is sent to the
 * classifier, the text shown for the classifier's answer, and the record
 * stored for a patient. The HTTP answers arrive through `OnRespuesta` and
 * `OnErrorHttp`.
 */
module Ecg {
  import opened Wrappers
  import opened Records

  /**
   * The classifier's JSON answer, reduced to the fields the page reads. The
   * confidence is carried as the text `toFixed(2)` makes of it.
   */
  datatype PredictResponse = PredictResponse(predictedClass: Option<string>, confidence: Option<string>,
                                             error: Option<string>)

  /** JavaScript truthiness of an optional string: present and non-empty. */
  predicate TruthyText(s: Option<string>) {
    s.Some? && s.value != ""
  }

  const SinRespuestaValida := "No se recibió un resultado válido."
  const ErrorPeticion := "Ocurrió un error al analizar la imagen."

  /** The text the page shows for an answer of the classifier. */
  function ResultadoDeRespuesta(r: PredictResponse): (text: string)
    ensures TruthyText(r.predictedClass) && r.confidence.Some? ==>
              text == "Predicción: " + r.predictedClass.value + " (Confianza: " + r.confidence.value + "%)"
    ensures !(TruthyText(r.predictedClass) && r.confidence.Some?) && TruthyText(r.error) ==>
              text == "Error del servidor: " + r.error.value
    ensures !(TruthyText(r.predictedClass) && r.confidence.Some?) && !TruthyText(r.error) ==>
              text == SinRespuestaValida
  {
    if TruthyText(r.predictedClass) && r.confidence.Some? then
      "Predicción: " + r.predictedClass.value + " (Confianza: " + r.confidence.value + "%)"
    else if TruthyText(r.error) then
      "Error del servidor: " + r.error.value
    else
      SinRespuestaValida
  }

  /** Every answer, and the HTTP failure, leaves a non-empty result, so saving then depends only on the patient. */
  lemma AnswerTextIsNeverEmpty(r: PredictResponse)
    ensures ResultadoDeRespuesta(r) != "" && ErrorPeticion != ""
    ensures ResultadoDeRespuesta(r) != ErrorPeticion
  {
    var t := ResultadoDeRespuesta(r);
    if TruthyText(r.predictedClass) && r.confidence.Some? {
      assert t[0] == 'P';
    } else if TruthyText(r.error) {
      assert t[0] == 'E' && t[1] == 'r';
    } else {
      assert t[0] == 'N';
    }
  }

  const SinImagen := "Por favor, selecciona una imagen antes de enviar."
  const SinPaciente := "Por favor, selecciona un paciente."
  const FaltanDatos := "Faltan datos para guardar clasificación ECG"

  class EcgView {
    var pacienteSeleccionadoId: Option<int>
    var resultadoECG: Option<string>
    var nombreArchivo: string
    /** The chosen file, identified by its name. */
    var imagenSeleccionada: Option<string>
    var mostrarMensajeAnalisis: bool

    constructor()
      ensures pacienteSeleccionadoId == None && resultadoECG == None && nombreArchivo == ""
      ensures imagenSeleccionada == None && !mostrarMensajeAnalisis
    {
      pacienteSeleccionadoId := None;
      resultadoECG := None;
      nombreArchivo := "";
      imagenSeleccionada := None;
      mostrarMensajeAnalisis := false;
    }

    method OnSeleccionarPaciente(value: int)
      modifies this`pacienteSeleccionadoId
      ensures pacienteSeleccionadoId == Some(value)
    {
      pacienteSeleccionadoId := Some(value);
    }

    /** `seleccionarImagenECG`: with at least one file, the first is chosen and the old result cleared. */
    method SeleccionarImagenECG(files: seq<string>)
      modifies this`imagenSeleccionada, this`nombreArchivo, this`resultadoECG
      ensures files == [] ==> imagenSeleccionada == old(imagenSeleccionada) && nombreArchivo == old(nombreArchivo)
                              && resultadoECG == old(resultadoECG)
      ensures files != [] ==> imagenSeleccionada == Some(files[0]) && nombreArchivo == files[0] && resultadoECG == None
    {
      if |files| > 0 {
        imagenSeleccionada := Some(files[0]);
        nombreArchivo := files[0];
        resultadoECG := None;
      }
    }

    /** `enviarImagenECG`: an image, then a patient; then the image is sent and the waiting message shown. */
    method EnviarImagenECG() returns (alert: Option<string>)
      modifies this`mostrarMensajeAnalisis
      ensures imagenSeleccionada.None? ==> alert == Some(SinImagen)
      ensures imagenSeleccionada.Some? && !Truthy(pacienteSeleccionadoId) ==> alert == Some(SinPaciente)
      ensures alert.None? <==> imagenSeleccionada.Some? && Truthy(pacienteSeleccionadoId)
      ensures alert.Some? ==> mostrarMensajeAnalisis == old(mostrarMensajeAnalisis)
      ensures alert.None? ==> mostrarMensajeAnalisis
    {
      if imagenSeleccionada.None? {
        return Some(SinImagen);
      }
      if !(pacienteSeleccionadoId.Some? && pacienteSeleccionadoId.value != 0) {
        return Some(SinPaciente);
      }
      mostrarMensajeAnalisis := true;
      return None;
    }

    /** The classifier answered. */
    method OnRespuesta(r: PredictResponse)
      modifies this`mostrarMensajeAnalisis, this`resultadoECG
      ensures !mostrarMensajeAnalisis && resultadoECG == Some(ResultadoDeRespuesta(r))
    {
      mostrarMensajeAnalisis := false;
      resultadoECG := Some(ResultadoDeRespuesta(r));
    }

    /** The request failed. */
    method OnErrorHttp()
      modifies this`mostrarMensajeAnalisis, this`resultadoECG
      ensures !mostrarMensajeAnalisis && resultadoECG == Some(ErrorPeticion)
    {
      mostrarMensajeAnalisis := false;
      resultadoECG := Some(ErrorPeticion);
    }

    /** `guardarClasificacionECG`: with a result and a patient, the record to store, always of type "ECG". */
    method GuardarClasificacionECG() returns (r: Result<NuevoAnalisis, string>)
      ensures r.Success? <==> TruthyText(resultadoECG) && Truthy(pacienteSeleccionadoId)
      ensures r.Failure? ==> r.error == FaltanDatos
      ensures r.Success? ==> r.value == NuevoAnalisis("ECG", resultadoECG.value, pacienteSeleccionadoId.value)
    {
      if resultadoECG.None? || resultadoECG.value == "" || !(pacienteSeleccionadoId.Some? && pacienteSeleccionadoId.value != 0) {
        return Failure(FaltanDatos);
      }
      return Success(NuevoAnalisis("ECG", resultadoECG.value, pacienteSeleccionadoId.value));
    }
  }
}
