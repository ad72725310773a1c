/**
 * The reports section: the text report of a patient's analysis history,
 * shown in an alert, and the plain-text file offered for download.
 */
module Reportes {
  import opened Wrappers
  import opened Records
  import Text

  const SinHistorial := "No hay análisis en el historial para generar un reporte."
  const SinReportes := "No hay reportes disponibles para descargar."
  const Encabezado := "📑 **Reporte Médico**\n\n"
  const EncabezadoDescarga := "Reporte Médico\n\n"
  const Separador := "-----------------------------\n"
  const NombreArchivo := "Reporte_Medico.txt"

  /** The lines of the shown report for one analysis; a missing date or patient prints as "undefined". */
  function Bloque(a: Analisis): string {
    "📅 Fecha: " + Show(a.fecha) + "\n" + "🩺 Tipo de Análisis: " + a.tipo + "\n"
    + "👤 Paciente: " + Show(a.paciente) + "\n" + "🔍 Resultado: " + a.resultado + "\n" + Separador
  }

  /** The lines of the downloaded report for one analysis: the patient comes before the type. */
  function BloqueDescarga(a: Analisis): string {
    "Fecha: " + Show(a.fecha) + "\n" + "Paciente: " + Show(a.paciente) + "\n"
    + "Tipo de Análisis: " + a.tipo + "\n" + "Resultado: " + a.resultado + "\n\n"
  }

  /** The blocks `bloque` gives the analyses of the history, in its order. */
  function Cuerpo(historial: seq<Analisis>, bloque: Analisis -> string): string
    decreases |historial|
  {
    if historial == [] then ""
    else Cuerpo(historial[..|historial| - 1], bloque) + bloque(historial[|historial| - 1])
  }

  /** The body of a history made of two parts is the body of the first followed by that of the second. */
  lemma {:induction false} CuerpoAppend(a: seq<Analisis>, b: seq<Analisis>, bloque: Analisis -> string)
    ensures Cuerpo(a + b, bloque) == Cuerpo(a, bloque) + Cuerpo(b, bloque)
    decreases |b|
  {
    if b == [] {
      assert a + b == a;
    } else {
      var init := b[..|b| - 1];
      assert (a + b)[..|a + b| - 1] == a + init;
      assert (a + b)[|a + b| - 1] == b[|b| - 1];
      CuerpoAppend(a, init, bloque);
    }
  }

  /** One more analysis of the history adds its block to the body. */
  lemma CuerpoPrefix(historial: seq<Analisis>, i: nat, bloque: Analisis -> string)
    requires i < |historial|
    ensures Cuerpo(historial[..i + 1], bloque) == Cuerpo(historial[..i], bloque) + bloque(historial[i])
  {
    assert historial[..i + 1][..i] == historial[..i];
  }

  /** Every analysis of the history appears in the report as its own block, after those before it. */
  lemma BlockAppearsInReport(historial: seq<Analisis>, k: nat, bloque: Analisis -> string)
    requires k < |historial|
    ensures var off := |Cuerpo(historial[..k], bloque)|;
            off + |bloque(historial[k])| <= |Cuerpo(historial, bloque)| &&
            Cuerpo(historial, bloque)[off..off + |bloque(historial[k])|] == bloque(historial[k])
  {
    var pre := historial[..k];
    var rest := historial[k + 1..];
    assert historial == pre + [historial[k]] + rest;
    CuerpoAppend(pre + [historial[k]], rest, bloque);
    CuerpoAppend(pre, [historial[k]], bloque);
    assert [historial[k]][..0] == [];
  }

  /** Appending the five lines of an analysis one by one appends its block. */
  lemma AppendLines(r: string, a: Analisis)
    ensures r + ("📅 Fecha: " + Show(a.fecha) + "\n") + ("🩺 Tipo de Análisis: " + a.tipo + "\n")
            + ("👤 Paciente: " + Show(a.paciente) + "\n") + ("🔍 Resultado: " + a.resultado + "\n") + Separador
            == r + Bloque(a)
  {
  }

  lemma AppendLinesDescarga(r: string, a: Analisis)
    ensures r + ("Fecha: " + Show(a.fecha) + "\n") + ("Paciente: " + Show(a.paciente) + "\n")
            + ("Tipo de Análisis: " + a.tipo + "\n") + ("Resultado: " + a.resultado + "\n\n")
            == r + BloqueDescarga(a)
  {
  }

  /** The five lines `generarReporte` appends for one analysis. */
  method AgregarBloque(reporte: string, analisis: Analisis) returns (r: string)
    ensures r == reporte + Bloque(analisis)
  {
    AppendLines(reporte, analisis);
    r := reporte + ("📅 Fecha: " + Show(analisis.fecha) + "\n");
    r := r + ("🩺 Tipo de Análisis: " + analisis.tipo + "\n");
    r := r + ("👤 Paciente: " + Show(analisis.paciente) + "\n");
    r := r + ("🔍 Resultado: " + analisis.resultado + "\n");
    r := r + Separador;
  }

  /** `generarReporte`: the text of the alert. */
  method GenerarReporte(historial: seq<Analisis>) returns (alert: string)
    ensures historial == [] ==> alert == SinHistorial
    ensures historial != [] ==> alert == Encabezado + Cuerpo(historial, Bloque)
  {
    if |historial| == 0 {
      return SinHistorial;
    }
    var reporte := Encabezado;
    var i := 0;
    while i < |historial|
      invariant 0 <= i <= |historial|
      invariant reporte == Encabezado + Cuerpo(historial[..i], Bloque)
    {
      reporte := AgregarBloque(reporte, historial[i]);
      CuerpoPrefix(historial, i, Bloque);
      Text.AppendAssociative(Encabezado, Cuerpo(historial[..i], Bloque), Bloque(historial[i]));
      i := i + 1;
    }
    assert historial[..i] == historial;
    return reporte;
  }

  /** The four lines `descargarReporte` appends for one analysis. */
  method AgregarBloqueDescarga(contenido: string, analisis: Analisis) returns (r: string)
    ensures r == contenido + BloqueDescarga(analisis)
  {
    AppendLinesDescarga(contenido, analisis);
    r := contenido + ("Fecha: " + Show(analisis.fecha) + "\n");
    r := r + ("Paciente: " + Show(analisis.paciente) + "\n");
    r := r + ("Tipo de Análisis: " + analisis.tipo + "\n");
    r := r + ("Resultado: " + analisis.resultado + "\n\n");
  }

  /** A file offered for download. */
  datatype Descarga = Descarga(nombre: string, contenido: string)

  /** `descargarReporte`: an alert for an empty history, otherwise the file to download. */
  method DescargarReporte(historial: seq<Analisis>) returns (r: Result<Descarga, string>)
    ensures historial == [] ==> r == Failure(SinReportes)
    ensures historial != [] ==> r == Success(Descarga(NombreArchivo, EncabezadoDescarga + Cuerpo(historial, BloqueDescarga)))
  {
    if |historial| == 0 {
      return Failure(SinReportes);
    }
    var contenido := EncabezadoDescarga;
    var i := 0;
    while i < |historial|
      invariant 0 <= i <= |historial|
      invariant contenido == EncabezadoDescarga + Cuerpo(historial[..i], BloqueDescarga)
    {
      contenido := AgregarBloqueDescarga(contenido, historial[i]);
      CuerpoPrefix(historial, i, BloqueDescarga);
      Text.AppendAssociative(EncabezadoDescarga, Cuerpo(historial[..i], BloqueDescarga), BloqueDescarga(historial[i]));
      i := i + 1;
    }
    assert historial[..i] == historial;
    return Success(Descarga(NombreArchivo, contenido));
  }
}
