# DeepCardio, the deterministic core in Dafny

DeepCardio estimates the left-ventricular ejection fraction (FEVI) of
echocardiogram videos. It has an Angular front end and a Flask back end that
runs the segmentation and EF models. This project models the parts of the
system that decide something, and proves what they promise:

- **Series viewer** (`SeriesViewer`). The DICOM viewer of the ejection
  fraction page is a class with the page's own fields: frame index, frame
  count, playing flag, timer handle, speed, and listener count. Active
  timers are an explicit registry. Each timer callback and each
  `cornerstonenewimage` event is a method call. The module also covers the
  batch check on the chosen files and the confidence label of an RVEF value.
- **Video processor** (`Processor`). This covers:
  - the staging loop over the upload folder;
  - the centre crop and per-frame crop arithmetic of the DICOM conversion;
  - the triangular mask;
  - the rows of size.csv;
  - the per-video summary: volumes, volumetric EF, three-way classification and beat count.
- **Job table and file routing** (`Jobs`). The Flask `JOBS` dictionary is a
  class with one `map` field, changed by start, cancel, progress updates and
  the background task. Uploads are checked by extension. Video, plot and CSV
  names are derived.
- **Validation report** (`Validation`). This covers the report's own
  classifier, the merge of model results with the expert's list, and the
  early returns.
- **Dashboard pages**:
  - patients (`Pacientes`);
  - image analysis, with a list bounded to five images (`AnalisisImagenes`);
  - ECG classification (`Ecg`);
  - report builders (`Reportes`).
- **Public pages** (`Registro`, `Login`, `Contacto`, `Contenido`). This
  covers the pages' validators, their first-match error messages and their
  key filters. The module `Forms` holds what these pages share.

Shared modules:

- `Wrappers` holds Option and Result.
- `Text` holds JavaScript `trim()` and `\s`, Python `os.path.splitext`,
  ASCII lower-casing and decimal printing.
- `Records` holds the patient and analysis records and JavaScript truthiness.

Events that come from outside become method calls or inputs. These are HTTP
answers, timer expiries, file reads, the peak set found by peak detection,
and the frame areas found by segmentation.

## Model

| member | source | states |
|---|---|---|
| SeriesViewer.NextIndex | deepcardio_pagina/src/app/componentes/dashboard/secciones/calculo-eyeccion/calculo-eyeccion.component.ts:283-288 | the index moves up by exactly one iff it is below the last frame, and otherwise stays; an index in range stays in range |
| SeriesViewer.PrevIndex | deepcardio_pagina/src/app/componentes/dashboard/secciones/calculo-eyeccion/calculo-eyeccion.component.ts:290-295 | the index moves down by exactly one iff it is above 0, and otherwise stays; it never becomes negative |
| SeriesViewer.TickIndex | deepcardio_pagina/src/app/componentes/dashboard/secciones/calculo-eyeccion/calculo-eyeccion.component.ts:316-323 | a playback tick lands in [0, total) from any index ≥ -1, and is (i + 1) mod total from an index in range |
| SeriesViewer.TicksWithinOneLap | deepcardio_pagina/src/app/componentes/dashboard/secciones/calculo-eyeccion/calculo-eyeccion.component.ts:316-323 | k ≤ total ticks from i reach i + k, wrapping once past the last frame |
| SeriesViewer.PlaybackReturnsToStart | deepcardio_pagina/src/app/componentes/dashboard/secciones/calculo-eyeccion/calculo-eyeccion.component.ts:316-323 | after exactly `total` ticks playback is back at the starting frame, and not earlier |
| SeriesViewer.RunStaysInRange | deepcardio_pagina/src/app/componentes/dashboard/secciones/calculo-eyeccion/calculo-eyeccion.component.ts:283-295 | any sequence of next/previous/tick events keeps an index in range in range |
| SeriesViewer.ClampVersusWrap | deepcardio_pagina/src/app/componentes/dashboard/secciones/calculo-eyeccion/calculo-eyeccion.component.ts:283-323 | at the last frame `nextImage` stays and a tick goes to 0; at frame 0 `previousImage` stays |
| SeriesViewer.ConfidenceLevel | deepcardio_pagina/src/app/componentes/dashboard/secciones/calculo-eyeccion/calculo-eyeccion.component.ts:388-392 | "Alta" iff rvef > 55, "Moderada" iff 45 < rvef ≤ 55, "Baja" iff rvef ≤ 45 |
| SeriesViewer.SomeNotDicom | deepcardio_pagina/src/app/componentes/dashboard/secciones/calculo-eyeccion/calculo-eyeccion.component.ts:176-179 | the batch is refused iff some file name, lower-cased, does not end in ".dcm" |
| SeriesViewer.UpperCaseExtensionAccepted | deepcardio_pagina/src/app/componentes/dashboard/secciones/calculo-eyeccion/calculo-eyeccion.component.ts:176-179 | a name ending in ".DCM" passes the check, because it is lower-cased first |
| SeriesViewer.Viewer.constructor | deepcardio_pagina/src/app/componentes/dashboard/secciones/calculo-eyeccion/calculo-eyeccion.component.ts:49-79 | the initial field values: index 0, no frames, not playing, speed 200, nothing loaded |
| SeriesViewer.Viewer.ScriptsLoaded | deepcardio_pagina/src/app/componentes/dashboard/secciones/calculo-eyeccion/calculo-eyeccion.component.ts:90-100 | once the scripts are loaded, `scriptsCargados` is set |
| SeriesViewer.Viewer.OnNewImage | deepcardio_pagina/src/app/componentes/dashboard/secciones/calculo-eyeccion/calculo-eyeccion.component.ts:311-313 | the new-image event sets the index only once a listener is attached |
| SeriesViewer.Viewer.NextImage | deepcardio_pagina/src/app/componentes/dashboard/secciones/calculo-eyeccion/calculo-eyeccion.component.ts:283-288 | the index becomes NextIndex of the old one, and an index in range stays in range |
| SeriesViewer.Viewer.PreviousImage | deepcardio_pagina/src/app/componentes/dashboard/secciones/calculo-eyeccion/calculo-eyeccion.component.ts:290-295 | the index becomes PrevIndex of the old one, and an index in range stays in range |
| SeriesViewer.Viewer.StopPlayback | deepcardio_pagina/src/app/componentes/dashboard/secciones/calculo-eyeccion/calculo-eyeccion.component.ts:326-332 | stopping leaves playback off with no handle and clears the handle's timer; on a stopped viewer it changes nothing, so a second stop is a no-op |
| SeriesViewer.Viewer.StartPlayback | deepcardio_pagina/src/app/componentes/dashboard/secciones/calculo-eyeccion/calculo-eyeccion.component.ts:305-324 | with at most one frame nothing changes; otherwise playback is on with a fresh timer and one more listener; starting twice leaves two timers running |
| SeriesViewer.Viewer.Tick | deepcardio_pagina/src/app/componentes/dashboard/secciones/calculo-eyeccion/calculo-eyeccion.component.ts:316-323 | a timer callback moves the index to TickIndex of the old one, which is in range |
| SeriesViewer.Viewer.TogglePlayback | deepcardio_pagina/src/app/componentes/dashboard/secciones/calculo-eyeccion/calculo-eyeccion.component.ts:297-303 | playing becomes stopped, its interval handle leaves the timer registry, listeners and handle counter unchanged; stopped with more than one frame becomes playing with one more listener and a fresh interval handle registered at the playback speed; stopped with at most one frame changes nothing; a single timer stays single |
| SeriesViewer.Viewer.ChangePlaybackSpeed | deepcardio_pagina/src/app/componentes/dashboard/secciones/calculo-eyeccion/calculo-eyeccion.component.ts:334-340 | the speed is stored; when playing with more than one frame, the old interval handle leaves the registry and a fresh one is registered at the new speed, with one more listener and the handle counter advanced; when playing with at most one frame, playback stops as in StopPlayback; when stopped, the timers, listeners and handles are untouched |
| SeriesViewer.Viewer.LoadSeries | deepcardio_pagina/src/app/componentes/dashboard/secciones/calculo-eyeccion/calculo-eyeccion.component.ts:198-237 | loading stops playback (the interval handle leaves the timer registry), sets the frame count and fresh image ids, and marks the series loaded; the index, speed, scripts flag, listeners and handle counter are left unchanged |
| SeriesViewer.Viewer.SelectSeries | deepcardio_pagina/src/app/componentes/dashboard/secciones/calculo-eyeccion/calculo-eyeccion.component.ts:165-195 | without the scripts, without files, or with a non-DICOM file, nothing changes; otherwise the first file and the count text are recorded, the results are cleared, and the series is loaded with the whole new state of LoadSeries: fresh image ids, playback stopped and its handle removed, speed, scripts flag, listeners and handle counter unchanged |
| Processor.Classify | backend_fevi_flask/scripts/processor.py:458-466 | Conservada iff ef ≥ 50; Ligeramente Reducida iff 40 < ef < 50; Reducida iff ef ≤ 40 |
| Processor.ClassificationIsTotalAndMonotone | backend_fevi_flask/scripts/processor.py:458-466 | exactly one class applies, and severity does not increase as ef grows; severity 0 only for Conservada |
| Processor.EfVolumetric | backend_fevi_flask/scripts/processor.py:452-455 | 0 when edv ≤ 0; within [0, 100] when 0 ≤ esv ≤ edv; 0 for equal volumes; 100 for an empty systole |
| Processor.PrepareInference | backend_fevi_flask/scripts/processor.py:232-251 | the loop stages the files that StagedFiles names, in folder order, and fails when there are none |
| Processor.StagedFilesAppend | backend_fevi_flask/scripts/processor.py:235-248 | staging a folder split in two stages the two parts one after the other |
| Processor.StagedFilesAreAvi | backend_fevi_flask/scripts/processor.py:235-248 | at most one staged file per entry, and every staged file is an .avi |
| Processor.IgnoredEntriesDoNotCount | backend_fevi_flask/scripts/processor.py:236-238 | directories and files that are neither DICOM nor AVI add nothing |
| Processor.AviNameEndsInAvi | backend_fevi_flask/scripts/processor.py:243-246 | a converted DICOM, named stem + ".avi", is itself accepted as AVI |
| Processor.SliceLen | backend_fevi_flask/scripts/processor.py:163-171 | the length of a Python slice is at most the axis length, and stop - start for bounds in range |
| Processor.CenterCrop | backend_fevi_flask/scripts/processor.py:166-171 | the crop keeps the shorter side and trims the longer one, so the sides then differ by at most one, with the same parity as before |
| Processor.ConvertedDims | backend_fevi_flask/scripts/processor.py:157-177 | the row crop, then the centre crop, then the zero-dimension check: a valid result has positive sides differing by at most one, and there is always one when yCrop < height |
| Processor.FrameCropOfConvertedFrame | backend_fevi_flask/scripts/processor.py:189-195 | on a converted frame the margin height/10 is taken from both axes, and the crop stays nearly square |
| Processor.ApplyMask | backend_fevi_flask/scripts/processor.py:128-135 | the mask keeps the square shape of the frame |
| Processor.ApplyMaskIdempotent | backend_fevi_flask/scripts/processor.py:128-135 | masking twice is masking once |
| Processor.MaskOfConvertedFrame | backend_fevi_flask/scripts/processor.py:128-135 | on a 112-pixel frame the threshold is 67; the top corners are blanked, the bottom ones kept, the whole top row blanked |
| Processor.SeqMin | backend_fevi_flask/scripts/processor.py:354-355 | the minimum frame area is one of the areas and below all of them |
| Processor.SeqMax | backend_fevi_flask/scripts/processor.py:354-356 | the maximum frame area is one of the areas and above all of them |
| Processor.AppendVideoRows | backend_fevi_flask/scripts/processor.py:362-366 | the loop appends one size.csv row per frame, in frame order, flagged iff the frame is a peak, with the model's EF as its two-decimal text reads back |
| Processor.Round2 | backend_fevi_flask/scripts/processor.py:363-366 | the EF that `{:.2f}` writes and `read_csv` reads back is a whole number of hundredths within 0.005 of the exact one |
| Processor.RoundingChangesClassOnlyNearThresholds | backend_fevi_flask/scripts/processor.py:448-466 | the read-back EF has the exact EF's class except within 0.005 above 40 and below 50, where 49.996 becomes Conservada and 40.004 Reducida |
| Processor.RowsOf | backend_fevi_flask/scripts/processor.py:446-446 | the rows selected for a file name are exactly the table's rows with that name: each comes from the table and carries the name, and every such row is selected |
| Processor.UniqueNames | backend_fevi_flask/scripts/processor.py:445-445 | every name of the table appears, once, and nothing else |
| Processor.UniqueNamesInFirstAppearanceOrder | backend_fevi_flask/scripts/processor.py:445-445 | `unique()` lists the names in order of first appearance: an earlier name first occurs on an earlier row |
| Processor.Sizes | backend_fevi_flask/scripts/processor.py:449-450 | the Size column, row by row |
| Processor.RowsOfNonEmpty | backend_fevi_flask/scripts/processor.py:445-446 | a name taken from the table selects at least one row, so min and max are defined |
| Processor.ClassifyVideos | backend_fevi_flask/scripts/processor.py:445-489 | the loop yields one summary per distinct file name, in order, each from that name's rows |
| Processor.PeaksBelowIsCardinality | backend_fevi_flask/scripts/processor.py:468-469 | the flagged frames among the first n are counted by the peak set's cardinality below n |
| Processor.CountSmallOfVideoRows | backend_fevi_flask/scripts/processor.py:362-366 | the ComputerSmall flags of a video's rows count its peak frames |
| Processor.RowsOfOneVideo | backend_fevi_flask/scripts/processor.py:446-446 | selecting by name from a single video's rows returns them all |
| Processor.RowsOfAppend | backend_fevi_flask/scripts/processor.py:446-446 | selecting by name distributes over concatenated tables and keeps the table order |
| Processor.RowsOfAbsent | backend_fevi_flask/scripts/processor.py:446-446 | a name no row carries selects nothing |
| Processor.TableRowsNamed | backend_fevi_flask/scripts/processor.py:319-366 | every row of size.csv belongs to a video of the loop that has at least one frame |
| Processor.RowsOfTable | backend_fevi_flask/scripts/processor.py:319-366 | with distinct video names, selecting a video's name from the whole size.csv gives exactly that video's rows, in frame order |
| Processor.VideoSummary | backend_fevi_flask/scripts/processor.py:445-489 | a video's own rows summarise to its file name, its EF as size.csv reads it back and that value's class, its peak count, extreme areas, and the volumetric EF of those areas, in [0, 100] |
| Processor.EveryResultSummarizesItsVideo | backend_fevi_flask/scripts/processor.py:445-489 | over a size.csv of many videos with distinct names, every result of the classification loop is the summary of the one video with that name, classed on its two-decimal EF |
| Processor.SummaryOfOneVideo | backend_fevi_flask/scripts/processor.py:445-489 | the beats are the peak frames inside the video, ESV and EDV the extreme areas, the volumetric EF in [0, 100], and EF_Model and the class those of the model's EF rounded to two decimals, as size.csv carries it |
| Jobs.Cancel | backend_fevi_flask/scripts/app.py:115-117 | cancelling sets the stop flag, status cancelled and the cancel message, keeping progress and error |
| Jobs.FinalJobOutcome | backend_fevi_flask/scripts/app.py:288-300 | the task ends in exactly one of: completed with progress 100 iff no cancel and no failure; cancelled iff a cancel event came or the failure is "Cancelled", keeping the last progress and message; error with the failure's text iff no cancel event and any other failure |
| Jobs.StoppedJobIgnoresProgress | backend_fevi_flask/scripts/app.py:282-286 | after the stop flag, the next progress update raises and progress is unchanged |
| Jobs.CancelThenProgressEndsCancelled | backend_fevi_flask/scripts/app.py:282-300 | a cancel followed by a progress report ends the task as cancelled, whatever comes after |
| Jobs.LateCancelIsOverwritten | backend_fevi_flask/scripts/app.py:288-292 | a cancel arriving after the last progress report is overwritten by completed, with the stop flag still set |
| Jobs.JobTable.constructor | backend_fevi_flask/scripts/app.py:29-29 | the job table starts empty |
| Jobs.JobTable.StartAnalysis | backend_fevi_flask/scripts/app.py:75-94 | an empty upload folder gives 400 and no job; otherwise exactly one job, processing at 0, under the new id |
| Jobs.JobTable.GetStatus | backend_fevi_flask/scripts/app.py:97-109 | a known id returns its job; an unknown one gives 404 |
| Jobs.JobTable.CancelAnalysis | backend_fevi_flask/scripts/app.py:112-119 | a known job is cancelled; an unknown id gives 404 and changes nothing |
| Jobs.JobTable.UpdateProgress | backend_fevi_flask/scripts/app.py:282-286 | it raises iff the stop flag is set, changing nothing; otherwise it stores progress and message |
| Jobs.JobTable.RunAnalysisTask | backend_fevi_flask/scripts/app.py:280-301 | the task's job ends as FinalJob of its events and failure; other jobs are untouched |
| Jobs.UploadFile | backend_fevi_flask/scripts/app.py:56-72 | no file part gives 400, then an empty name, then an extension outside .avi/.dcm/.dicom; success iff all three pass |
| Jobs.AcceptedUploadIsStageable | backend_fevi_flask/scripts/app.py:65-69 | every accepted upload is a file the processor stages |
| Jobs.HiddenAviIsRejected | backend_fevi_flask/scripts/app.py:65-69 | ".avi" alone has no extension for splitext, so the upload refuses it although the processor would stage it |
| Jobs.VideoToServe | backend_fevi_flask/scripts/app.py:223-237 | the exact name if present, else the root + ".mp4" if present, else nothing |
| Jobs.PlotNameIgnoresVideoExtension | backend_fevi_flask/scripts/app.py:241-249 | the plot of stem.dcm, stem.avi or stem.dicom is stem.pdf |
| Jobs.VideoFallsBackToMp4 | backend_fevi_flask/scripts/app.py:226-237 | a missing .avi with an .mp4 beside it serves the .mp4 |
| Jobs.CsvFileName | backend_fevi_flask/scripts/app.py:252-261 | ef and classification map to classification_results.csv, size to size.csv, anything else to "" |
| Validation.ClassifyGt | backend_fevi_flask/scripts/validation.py:93-96 | Normal iff ef ≥ 50; Ligeramente Reducida iff 40 ≤ ef < 50; Reducida iff ef < 40 |
| Validation.ClassifiersDisagreeOnlyAt40 | backend_fevi_flask/scripts/validation.py:93-96 | the report's classifier and the processor's agree at every ef except exactly 40 |
| Validation.Matches | backend_fevi_flask/scripts/validation.py:22-25 | the expert rows with a given FileName, all of them and only them |
| Validation.InnerJoinMembership | backend_fevi_flask/scripts/validation.py:22-25 | a pair is in the merge iff both rows are present and the name without its extension equals FileName |
| Validation.InnerJoinEmpty | backend_fevi_flask/scripts/validation.py:25-29 | the merge is empty iff no model row's key names an expert row |
| Validation.GenerateValidationReport | backend_fevi_flask/scripts/validation.py:12-29 | nothing iff a CSV is missing or the merge is empty; otherwise one class pair per merged row |
| Text.Trim | deepcardio_pagina/src/app/componentes/dashboard/secciones/pacientes/pacientes.component.ts:59-60 | `trim()` returns a slice of its input with only white space outside it and none at its ends |
| Text.TrimUnique | deepcardio_pagina/src/app/componentes/dashboard/secciones/pacientes/pacientes.component.ts:59-60 | that slice is the only one with those properties |
| Text.TrimIgnoresPadding | deepcardio_pagina/src/app/componentes/dashboard/secciones/pacientes/pacientes.component.ts:59-60 | white space added around a string is removed again |
| Text.SplitExt | backend_fevi_flask/scripts/validation.py:23-23 | `splitext` splits a path into root + ext, with ext empty or a dot followed by neither dots nor slashes |
| Text.SplitExtOfAppended | backend_fevi_flask/scripts/validation.py:23-23 | `splitext` takes back exactly an extension appended to a named component |
| Pacientes.ValidarNombre | deepcardio_pagina/src/app/componentes/dashboard/secciones/pacientes/pacientes.component.ts:58-61 | valid iff the trimmed name has at least two characters, all letters, accented vowels, ñ or white space |
| Pacientes.ValidarNombreIgnoresPadding | deepcardio_pagina/src/app/componentes/dashboard/secciones/pacientes/pacientes.component.ts:58-61 | white space around a name never changes the verdict |
| Pacientes.EdadValidaRange | deepcardio_pagina/src/app/componentes/dashboard/secciones/pacientes/pacientes.component.ts:71-74 | the accepted ages are exactly the numbers above 1 up to 100: age 1 is refused, 1.5 is accepted |
| Pacientes.FindIndexById | deepcardio_pagina/src/app/componentes/dashboard/secciones/pacientes/pacientes.component.ts:86-86 | the search loop returns the first patient with the id, or -1 iff there is none |
| Pacientes.ReplaceFirstSpec | deepcardio_pagina/src/app/componentes/dashboard/secciones/pacientes/pacientes.component.ts:86-88 | only the first match is replaced, and nothing changes without a match |
| Pacientes.FilterOutId | deepcardio_pagina/src/app/componentes/dashboard/secciones/pacientes/pacientes.component.ts:154-154 | the kept patients are exactly those with another id, each as many times as in the list |
| Pacientes.FilterOutIdIdempotent | deepcardio_pagina/src/app/componentes/dashboard/secciones/pacientes/pacientes.component.ts:154-154 | deleting twice is deleting once |
| Pacientes.FilterOutIdAbsent | deepcardio_pagina/src/app/componentes/dashboard/secciones/pacientes/pacientes.component.ts:154-154 | deleting an id no patient carries leaves the list as it is |
| Pacientes.FilterOutIdAppend | deepcardio_pagina/src/app/componentes/dashboard/secciones/pacientes/pacientes.component.ts:154-154 | deleting distributes over concatenation, so the kept patients stay in their order |
| Pacientes.FilterOutIdSingle | deepcardio_pagina/src/app/componentes/dashboard/secciones/pacientes/pacientes.component.ts:154-154 | on one patient, deleting drops it iff it carries the id |
| Pacientes.EliminarPaciente | deepcardio_pagina/src/app/componentes/dashboard/secciones/pacientes/pacientes.component.ts:148-152 | a request is sent iff the id is defined and the user confirms |
| Pacientes.PacientesView.constructor | deepcardio_pagina/src/app/componentes/dashboard/secciones/pacientes/pacientes.component.ts:31-34 | empty list, empty form, form hidden, not editing |
| Pacientes.PacientesView.OnPacientesCargados | deepcardio_pagina/src/app/componentes/dashboard/secciones/pacientes/pacientes.component.ts:44-50 | the loaded list replaces the old one |
| Pacientes.PacientesView.MostrarFormularioPaciente | deepcardio_pagina/src/app/componentes/dashboard/secciones/pacientes/pacientes.component.ts:52-56 | an empty form is shown, not in edit mode |
| Pacientes.PacientesView.ActualizarPaciente | deepcardio_pagina/src/app/componentes/dashboard/secciones/pacientes/pacientes.component.ts:142-146 | the form holds the patient, in edit mode |
| Pacientes.PacientesView.CerrarFormulario | deepcardio_pagina/src/app/componentes/dashboard/secciones/pacientes/pacientes.component.ts:113-117 | the form is hidden, emptied and out of edit mode |
| Pacientes.PacientesView.GuardarPaciente | deepcardio_pagina/src/app/componentes/dashboard/secciones/pacientes/pacientes.component.ts:63-111 | name, then age, then gender are checked and the first failure is reported; otherwise PUT iff editing a patient with an id, else POST |
| Pacientes.PacientesView.OnPacienteActualizado | deepcardio_pagina/src/app/componentes/dashboard/secciones/pacientes/pacientes.component.ts:85-90 | the first patient with the returned id is replaced and the form closes |
| Pacientes.PacientesView.OnPacienteCreado | deepcardio_pagina/src/app/componentes/dashboard/secciones/pacientes/pacientes.component.ts:100-104 | the created patient is appended at the end and the form closes |
| Pacientes.PacientesView.OnPacienteEliminado | deepcardio_pagina/src/app/componentes/dashboard/secciones/pacientes/pacientes.component.ts:153-156 | every patient with the deleted id leaves the list |
| AnalisisImagenes.ChartsShapes | deepcardio_pagina/src/app/componentes/dashboard/secciones/analisis-imagenes/analisis-imagenes.component.ts:267-307 | the reset and filled charts have series of lengths 2, 3, 5 and 4, and the reset is all zeros |
| AnalisisImagenes.SpliceOne | deepcardio_pagina/src/app/componentes/dashboard/secciones/analisis-imagenes/analisis-imagenes.component.ts:122-122 | `splice(start, 1)` removes the element at a valid index, counts a negative start from the end, removes the first element below −length, and leaves the list alone past the end |
| AnalisisImagenes.SpliceOneRemovesOne | deepcardio_pagina/src/app/componentes/dashboard/secciones/analisis-imagenes/analisis-imagenes.component.ts:122-122 | one element fewer, the same multiset but for that element, the others in order |
| AnalisisImagenes.ReadsNeverOverfill | deepcardio_pagina/src/app/componentes/dashboard/secciones/analisis-imagenes/analisis-imagenes.component.ts:103-110 | in whatever order the reads finish, the list holds at most five images, and exactly min(5, before + read) |
| AnalisisImagenes.AnalisisImagenesView.constructor | deepcardio_pagina/src/app/componentes/dashboard/secciones/analisis-imagenes/analisis-imagenes.component.ts:34-42 | no patient, no images, no result, no charts, analysis type "Anomalías" |
| AnalisisImagenes.AnalisisImagenesView.InicializarGraficos | deepcardio_pagina/src/app/componentes/dashboard/secciones/analisis-imagenes/analisis-imagenes.component.ts:174-265 | the charts are created with zero series iff the canvases are present |
| AnalisisImagenes.AnalisisImagenesView.OnSeleccionarPaciente | deepcardio_pagina/src/app/componentes/dashboard/secciones/analisis-imagenes/analisis-imagenes.component.ts:68-70 | the selected patient is stored |
| AnalisisImagenes.AnalisisImagenesView.CargarImagen | deepcardio_pagina/src/app/componentes/dashboard/secciones/analisis-imagenes/analisis-imagenes.component.ts:95-118 | reads start for the first 5 − \|images\| files of the batch, in order |
| AnalisisImagenes.AnalisisImagenesView.OnImagenLeida | deepcardio_pagina/src/app/componentes/dashboard/secciones/analisis-imagenes/analisis-imagenes.component.ts:105-110 | a finished read pushes its image only while there are fewer than five |
| AnalisisImagenes.AnalisisImagenesView.DestruirGraficos | deepcardio_pagina/src/app/componentes/dashboard/secciones/analisis-imagenes/analisis-imagenes.component.ts:289-308 | every existing chart is reset to zeros |
| AnalisisImagenes.AnalisisImagenesView.EliminarImagen | deepcardio_pagina/src/app/componentes/dashboard/secciones/analisis-imagenes/analisis-imagenes.component.ts:120-127 | the element at the index is spliced out; an emptied list clears the result and zeroes the charts |
| AnalisisImagenes.AnalisisImagenesView.ProcesarImagen | deepcardio_pagina/src/app/componentes/dashboard/secciones/analisis-imagenes/analisis-imagenes.component.ts:129-148 | patient, then images are checked; a failure alerts and changes nothing; success shows the waiting message and schedules the result |
| AnalisisImagenes.AnalisisImagenesView.ActualizarGraficos | deepcardio_pagina/src/app/componentes/dashboard/secciones/analisis-imagenes/analisis-imagenes.component.ts:267-287 | the charts are created if needed, then hold the fixed analysis series |
| AnalisisImagenes.AnalisisImagenesView.OnAnalisisTerminado | deepcardio_pagina/src/app/componentes/dashboard/secciones/analisis-imagenes/analisis-imagenes.component.ts:143-147 | the result names the patient and the image count at that moment; the waiting message goes; the charts are filled |
| AnalisisImagenes.AnalisisImagenesView.GuardarAnalisis | deepcardio_pagina/src/app/componentes/dashboard/secciones/analisis-imagenes/analisis-imagenes.component.ts:150-160 | a record iff there is a result and a patient, carrying the type, the result and the patient id |
| Ecg.ResultadoDeRespuesta | deepcardio_pagina/src/app/componentes/dashboard/secciones/ecg/ecg.component.ts:102-108 | a prediction with confidence gives "Predicción …", else an error field gives "Error del servidor …", else the fixed fallback |
| Ecg.AnswerTextIsNeverEmpty | deepcardio_pagina/src/app/componentes/dashboard/secciones/ecg/ecg.component.ts:100-114 | every answer and the HTTP failure leave a non-empty result, and the two are distinguishable |
| Ecg.EcgView.constructor | deepcardio_pagina/src/app/componentes/dashboard/secciones/ecg/ecg.component.ts:29-34 | no patient, no result, no image, no waiting message |
| Ecg.EcgView.OnSeleccionarPaciente | deepcardio_pagina/src/app/componentes/dashboard/secciones/ecg/ecg.component.ts:50-52 | the selected patient is stored |
| Ecg.EcgView.SeleccionarImagenECG | deepcardio_pagina/src/app/componentes/dashboard/secciones/ecg/ecg.component.ts:75-82 | with files, the first is chosen, its name recorded and the result cleared; without, nothing changes |
| Ecg.EcgView.EnviarImagenECG | deepcardio_pagina/src/app/componentes/dashboard/secciones/ecg/ecg.component.ts:84-99 | image, then patient are checked; a failure sends nothing and leaves the waiting flag |
| Ecg.EcgView.OnRespuesta | deepcardio_pagina/src/app/componentes/dashboard/secciones/ecg/ecg.component.ts:100-109 | the waiting flag clears and the result is the answer's text |
| Ecg.EcgView.OnErrorHttp | deepcardio_pagina/src/app/componentes/dashboard/secciones/ecg/ecg.component.ts:110-114 | the waiting flag clears and the result is the fixed error text |
| Ecg.EcgView.GuardarClasificacionECG | deepcardio_pagina/src/app/componentes/dashboard/secciones/ecg/ecg.component.ts:118-128 | a record iff there is a result and a patient, always of type "ECG" |
| Forms.FirstMessageSpec | deepcardio_pagina/src/app/componentes/registro/registro.component.ts:76-86 | the message chosen is that of the first listed error present |
| Forms.FirstMessageNone | deepcardio_pagina/src/app/componentes/registro/registro.component.ts:76-86 | with no listed error present the message is "" |
| Forms.TypedValueHasNoForbiddenChar | deepcardio_pagina/src/app/componentes/registro/registro.component.ts:110-120 | with pasting prevented, whatever is typed through the key filter holds no forbidden character |
| Registro.PasswordRuleCoversMinLength | deepcardio_pagina/src/app/componentes/registro/registro.component.ts:29-41 | a password too short also fails the password rule; examples with and without digit or special character |
| Registro.HyphenPasswordIsFlagged | deepcardio_pagina/src/app/componentes/registro/registro.component.ts:29-41 | a password may satisfy the rule through "-", which the sanitiser then rejects |
| Registro.FieldErrors | deepcardio_pagina/src/app/componentes/registro/registro.component.ts:18-25 | invalidInput iff a forbidden character is present; required iff the value is empty, for every field but the second surname |
| Registro.MatchErrorsSpec | deepcardio_pagina/src/app/componentes/registro/registro.component.ts:44-65 | the mismatch error is set iff the confirmation is non-empty and differs; otherwise only that error is removed; applying it twice is applying it once |
| Registro.CorreoMatchValidator | deepcardio_pagina/src/app/componentes/registro/registro.component.ts:44-65 | the confirmation control's errors become MatchErrors of the old ones, and the group validator returns no error |
| Registro.PasswordMessage | deepcardio_pagina/src/app/componentes/registro/registro.component.ts:76-86 | the message shown for empty, short, weak, sanitised-away and valid passwords |
| Registro.MismatchHidesOtherErrors | deepcardio_pagina/src/app/componentes/registro/registro.component.ts:44-86 | on a mismatch the confirmation field shows only the mismatch message |
| Registro.TypedValueNeverFlagged | deepcardio_pagina/src/app/componentes/registro/registro.component.ts:68-73 | the key filter blocks exactly the sanitiser's set, so a typed value is never flagged |
| Login.LoginFilterExtendsRegistro | deepcardio_pagina/src/app/componentes/login/login.component.ts:29-34 | the login set strictly contains the registration set, so every value registration flags login flags too |
| Login.TypedValueNeverFlagged | deepcardio_pagina/src/app/componentes/login/login.component.ts:93-102 | a value typed through the login key filter is never flagged |
| Login.RegisteredPasswordNotTypable | deepcardio_pagina/src/app/componentes/login/login.component.ts:93-102 | a password registration accepts that holds '#', '/' or '*' can never be typed at login, and the login filter flags it |
| Login.ValidFormCredentials | deepcardio_pagina/src/app/componentes/login/login.component.ts:22-25 | a valid form has a non-empty, well-formed, clean email and a clean password of at least 8 characters |
| Login.NoMessageIffNoError | deepcardio_pagina/src/app/componentes/login/login.component.ts:36-43 | a field shows no message iff it has no error |
| Login.MessageOfErrors | deepcardio_pagina/src/app/componentes/login/login.component.ts:36-43 | for any subset of the four keys, the message is "" iff the subset is empty |
| Login.LoginView.constructor | deepcardio_pagina/src/app/componentes/login/login.component.ts:17-19 | password hidden, no error message, not loading |
| Login.LoginView.OnSubmit | deepcardio_pagina/src/app/componentes/login/login.component.ts:46-56 | an invalid form sends nothing and changes nothing; a valid one sends `correo` and password, loading, with no error message |
| Login.LoginView.OnLoginError | deepcardio_pagina/src/app/componentes/login/login.component.ts:69-72 | the fixed message is shown and loading stops |
| Login.LoginView.TogglePasswordVisibility | deepcardio_pagina/src/app/componentes/login/login.component.ts:104-106 | visibility flips, so two toggles restore it |
| Contacto.EmailPatternShape | deepcardio_pagina/src/app/componentes/contacto/contacto.component.ts:40-46 | an address matching the pattern has one '@', and its split points are the last '@' and the last '.' |
| Contacto.FieldErrors | deepcardio_pagina/src/app/componentes/contacto/contacto.component.ts:21-55 | per field, no error iff the field's validators all pass |
| Contacto.FieldMessages | deepcardio_pagina/src/app/componentes/contacto/contacto.component.ts:57-72 | the message shown per field, in the first-match order of the page |
| Contacto.ResetFormIsInvalid | deepcardio_pagina/src/app/componentes/contacto/contacto.component.ts:21-27 | the form as reset is invalid, though the optional phone and the method pass |
| Contacto.ContactoView.constructor | deepcardio_pagina/src/app/componentes/contacto/contacto.component.ts:16-27 | empty fields, method "email", nothing sent |
| Contacto.ContactoView.Editar | deepcardio_pagina/src/app/componentes/contacto/contacto.component.ts:21-27 | the user's input is stored in the fields |
| Contacto.ContactoView.EnviarFormulario | deepcardio_pagina/src/app/componentes/contacto/contacto.component.ts:74-82 | sent iff the form is valid; an invalid one marks the fields touched and leaves the rest; a valid one clears both messages and sets sending |
| Contacto.ContactoView.OnEnvioTimeout | deepcardio_pagina/src/app/componentes/contacto/contacto.component.ts:94-98 | the success message is shown, the form reset with method "email", sending stops |
| Contenido.ContactoEmailIsAccepted | deepcardio_pagina/src/app/componentes/contenido/contenido.component.ts:34-37 | every address the contact form accepts, the landing page accepts too |
| Contenido.LandingPageIsLooser | deepcardio_pagina/src/app/componentes/contenido/contenido.component.ts:34-37 | the landing page accepts an address the contact form refuses |
| Contenido.NotifyView.constructor | deepcardio_pagina/src/app/componentes/contenido/contenido.component.ts:14-16 | empty email, no message |
| Contenido.NotifyView.HandleNotify | deepcardio_pagina/src/app/componentes/contenido/contenido.component.ts:40-60 | a valid email gives success with a message naming it and clears the field; otherwise the fixed error message and the field is kept; a reset is scheduled on both paths |
| Contenido.NotifyView.OnTimeout | deepcardio_pagina/src/app/componentes/contenido/contenido.component.ts:46-58 | the message and its type are cleared |
| Contenido.MessagesAreDistinct | deepcardio_pagina/src/app/componentes/contenido/contenido.component.ts:41-52 | the success and error messages are non-empty and never equal |
| Reportes.CuerpoAppend | deepcardio_pagina/src/app/componentes/dashboard/secciones/reportes/reportes.component.ts:29-50 | the blocks of h1 ++ h2 are the blocks of h1 followed by those of h2 |
| Reportes.BlockAppearsInReport | deepcardio_pagina/src/app/componentes/dashboard/secciones/reportes/reportes.component.ts:29-50 | the k-th analysis's block sits in the body right after the blocks of those before it |
| Reportes.AgregarBloque | deepcardio_pagina/src/app/componentes/dashboard/secciones/reportes/reportes.component.ts:29-34 | the four lines and the separator of one analysis are appended |
| Reportes.GenerarReporte | deepcardio_pagina/src/app/componentes/dashboard/secciones/reportes/reportes.component.ts:23-37 | the fixed text for an empty history; otherwise the header and one block per analysis, in order |
| Reportes.AgregarBloqueDescarga | deepcardio_pagina/src/app/componentes/dashboard/secciones/reportes/reportes.component.ts:45-49 | the four lines, in the download's field order, and a blank line are appended |
| Reportes.DescargarReporte | deepcardio_pagina/src/app/componentes/dashboard/secciones/reportes/reportes.component.ts:39-56 | no file for an empty history; otherwise "Reporte_Medico.txt" holding the header and one block per analysis |
| Records.ShowNullable | deepcardio_pagina/src/app/componentes/dashboard/secciones/analisis-imagenes/analisis-imagenes.component.ts:144-144 | an absent number prints as "null", a present one in decimal |
| Records.Show | deepcardio_pagina/src/app/componentes/dashboard/secciones/reportes/reportes.component.ts:30-33 | an absent field prints as "undefined", a present one as itself |

## Left out

- Cornerstone, the DOM and FileReader are foreign libraries. `scrollToIndex` and the `cornerstonenewimage` event are one `OnNewImage` call. Image display, overlays, tools, resizing and the missing-element early return of the series load are not modelled. File reads finish in an order chosen by the caller.
- The viewport window width and centre are written through unchanged by the page, so they are not modelled.
- Real time is not modelled. Timers are a registry of handles, and their expiries are method calls (`Tick`, `OnAnalisisTerminado`, `OnEnvioTimeout`, `OnTimeout`). The random 30–60 s delay and the 1.5 s and 5 s delays are not modelled.
- HTTP is not modelled. Requests are return values and answers are method calls. The whole Node API server (SQL, JWT, Splunk logging) is not part of this model. The RVEF upload `enviarImagenRVEF` is not part of this model.
- Machine learning and media are not modelled: model loading, segmentation, EF regression, DICOM pixel reading, video writing, peak detection and plots. The frame areas, the peak set and the model's EF are inputs. DICOM conversion success is a flag of the folder entry.
- The trimmed percentiles, the variability coefficient and the millilitre conversion of processor.py are floating-point statistics and are not modelled. The two-decimal text of the EF in size.csv is modelled, because the class is decided on the value read back; the other `{:.2f}` and `toFixed(2)` texts are not modelled, and the confidence arrives as text.
- The background thread and the race between a cancel and the task are not modelled. The user's cancel is an event in the task's event sequence. `clean_float`, the result listing, the summary plot and the zip export are not modelled. For an unknown type, `get_csv` serves from an empty file name; only the name mapping is modelled.
- The validation metrics, the confusion matrix and the charts of validation.py are not modelled. Only the classes of each merged row are kept.
- Chart.js rendering is not modelled. Only the data series of the four charts are kept.
- Angular's built-in `Validators.email` is a boolean parameter `emailOk`. FormGroup validity is the conjunction of the field validators. `markAllAsTouched` is kept as a `touched` flag only on the contact page.
- Registration `onSubmit`, the login success path (local storage, navigation, logging), `verHistorialPaciente` and the popup are navigation or I/O, and are not modelled.
- `Number()` on the selected patient may give NaN, which the model does not represent: the selection arrives as an integer.
- A patient's age is a real number. The NaN and the null an empty number field gives are not represented; both are refused by the source's `!edad`.
- Forms.TypedValueHasNoForbiddenChar, Registro.TypedValueNeverFlagged, Login.TypedValueNeverFlagged: cover key presses only. Drag-and-drop, browser autofill, IME composition and keys reported as "Unidentified" put text into a field without passing the `keydown` filter, so the source gives no such guarantee for them.
- Text.SplitExt follows POSIX paths only: a backslash is an ordinary character, as in `posixpath.splitext`.
- Floating-point NaN is not represented: SeriesViewer.ConfidenceLevel and Validation.ClassifyGt take real numbers, where a NaN in the source would fail every comparison.
- Ecg.ResultadoDeRespuesta: the confidence is present text or absent. An answer with a class but a null confidence passes the source's `!== undefined` test and then `toFixed` throws; the model does not represent that null.
- Lower-casing is ASCII-only. Python and JavaScript also fold non-ASCII letters, which no extension or name test here depends on.
- String lengths count code points, where JavaScript counts UTF-16 units. The lengths the model tests involve Latin text only.
- `alert` and the blob download of the report pages are not modelled; the alert text and the file content are return values.
- Reportes.GenerarReporte, Reportes.DescargarReporte: each block is appended through a helper method (`AgregarBloque`, `AgregarBloqueDescarga`) rather than five `+=` steps in the loop body.
- SeriesViewer.Viewer.LoadSeries: requires a non-empty batch. Its only caller, `seleccionarImagenRVEF`, returns earlier on an empty selection. The empty-series branch (no frames, `imagenCargada` false) is therefore not modelled. Under it, a timer orphaned by a double start could tick with no frames.
