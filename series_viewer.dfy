/**
 * The DICOM series viewer of the ejection-fraction page: a frame index over
 * a loaded series, manual navigation that clamps at both ends, and timed
 * playback that wraps to the first frame.
 *
 * The imaging toolkit is abstracted: `scrollToIndex` together with the
 * `cornerstonenewimage` notification it triggers is one "set index" event
 * (`Viewer.OnNewImage`), the file manager hands out consecutive image ids,
 * and the browser's interval timers are a registry of handles.
 */
module SeriesViewer {
  import opened Wrappers
  import Text

  // ---------------------------------------------------------------------
  // Index arithmetic
  // ---------------------------------------------------------------------

  /** `nextImage`: one frame forward, unless already at the last frame. */
  function NextIndex(i: int, total: int): (j: int)
    ensures j == i || j == i + 1
    ensures j == i + 1 <==> i < total - 1
    ensures 0 <= i < total ==> 0 <= j < total
  {
    if i < total - 1 then i + 1 else i
  }

  /** `previousImage`: one frame back, unless already at the first frame. */
  function PrevIndex(i: int): (j: int)
    ensures j == i || j == i - 1
    ensures j == i - 1 <==> i > 0
    ensures 0 <= i ==> 0 <= j
  {
    if i > 0 then i - 1 else i
  }

  /** The frame a playback tick asks for: the next one, or 0 past the end. */
  function TickIndex(i: int, total: int): (j: int)
    ensures -1 <= i && 0 < total ==> 0 <= j < total
    ensures 0 <= i < total ==> j == (i + 1) % total
  {
    if i + 1 >= total then 0 else i + 1
  }

  /** The frame shown after `k` playback ticks. */
  function TicksFrom(i: int, total: int, k: nat): int {
    if k == 0 then i else TickIndex(TicksFrom(i, total, k - 1), total)
  }

  /** Within one lap, `k` ticks from frame `i` land `k` frames further on, modulo the length. */
  lemma {:induction false} TicksWithinOneLap(i: int, total: int, k: nat)
    requires 0 <= i < total && k <= total
    ensures TicksFrom(i, total, k) == if i + k < total then i + k else i + k - total
  {
    if k > 0 {
      TicksWithinOneLap(i, total, k - 1);
    }
  }

  /**
   * `totalImages` ticks bring playback back to the frame it started from,
   * and no earlier number of ticks does.
   */
  lemma PlaybackReturnsToStart(i: int, total: int)
    requires 0 <= i < total
    ensures TicksFrom(i, total, total) == i
    ensures forall k: nat :: 0 < k < total ==> TicksFrom(i, total, k) != i
  {
    TicksWithinOneLap(i, total, total);
    forall k: nat | 0 < k < total
      ensures TicksFrom(i, total, k) != i
    {
      TicksWithinOneLap(i, total, k);
    }
  }

  /** What can move the frame index: the two buttons and a playback tick. */
  datatype NavEvent = Next | Previous | Tick

  function Step(i: int, total: int, e: NavEvent): int {
    match e
    case Next => NextIndex(i, total)
    case Previous => PrevIndex(i)
    case Tick => TickIndex(i, total)
  }

  function Run(i: int, total: int, events: seq<NavEvent>): int
    decreases |events|
  {
    if events == [] then i else Run(Step(i, total, events[0]), total, events[1..])
  }

  /** An index inside the series stays inside it, whatever the user or the timer does. */
  lemma {:induction false} RunStaysInRange(i: int, total: int, events: seq<NavEvent>)
    requires 0 <= i < total
    ensures 0 <= Run(i, total, events) < total
    decreases |events|
  {
    if events != [] {
      RunStaysInRange(Step(i, total, events[0]), total, events[1..]);
    }
  }

  /** Manual navigation clamps where playback wraps: at the last frame they part ways. */
  lemma ClampVersusWrap(total: int)
    requires total > 1
    ensures NextIndex(total - 1, total) == total - 1
    ensures TickIndex(total - 1, total) == 0
    ensures PrevIndex(0) == 0
  {
  }

  // ---------------------------------------------------------------------
  // Pure parts of the page
  // ---------------------------------------------------------------------

  /** `getConfidenceLevel`. */
  function ConfidenceLevel(rvef: real): (level: string)
    ensures level == "Alta confianza" <==> rvef > 55.0
    ensures level == "Moderada confianza" <==> 45.0 < rvef <= 55.0
    ensures level == "Baja confianza" <==> rvef <= 45.0
  {
    if rvef > 55.0 then "Alta confianza"
    else if rvef > 45.0 then "Moderada confianza"
    else "Baja confianza"
  }

  predicate IsDicomName(name: string) {
    Text.EndsWith(Text.Lower(name), ".dcm")
  }

  /** `files.some(file => !file.name.toLowerCase().endsWith('.dcm'))`. */
  function SomeNotDicom(names: seq<string>): (found: bool)
    ensures found <==> exists k :: 0 <= k < |names| && !IsDicomName(names[k])
  {
    if names == [] then false
    else if !IsDicomName(names[0]) then true
    else
      var rest := SomeNotDicom(names[1..]);
      assert forall k :: 1 <= k < |names| ==> names[k] == names[1..][k - 1];
      rest
  }

  /** The case of the extension does not matter: "scan.DCM" is accepted like "scan.dcm". */
  lemma UpperCaseExtensionAccepted(stem: string)
    ensures IsDicomName(stem + ".DCM")
  {
    var s := stem + ".DCM";
    var l := Text.Lower(s);
    assert l[|l| - 4..] == [l[|s| - 4], l[|s| - 3], l[|s| - 2], l[|s| - 1]];
  }

  /** How a file selection ends (`seleccionarImagenRVEF`). */
  datatype Selection = ScriptsNotLoaded | NoFiles | NotDicom | Loaded

  // ---------------------------------------------------------------------
  // The component's navigation and playback state
  // ---------------------------------------------------------------------

  class Viewer {
    var scriptsCargados: bool
    var imagenCargada: bool
    var nombreArchivoRVEF: string
    var imagenSeleccionadaRVEF: Option<string>
    var rvefResultsPresent: bool

    var imageIds: seq<nat>
    var currentImageIndex: int
    var totalImages: int
    var isPlaying: bool
    var playbackInterval: Option<nat>
    var playbackSpeed: int

    /** `cornerstonenewimage` listeners added to the viewer element so far. */
    var listeners: nat
    /** The browser's live interval timers: handle to period in milliseconds. */
    var activeTimers: map<nat, int>
    /** The next handle `setInterval` gives out (handles are positive). */
    var nextHandle: nat
    /** The number of files handed to the toolkit's file manager so far. */
    var filesAdded: nat

    ghost predicate Valid()
      reads this
    {
      && nextHandle >= 1
      && (forall h :: h in activeTimers ==> 1 <= h < nextHandle)
      && (playbackInterval.Some? ==> playbackInterval.value in activeTimers)
      && (|activeTimers| > 0 ==> listeners > 0 && totalImages > 0)
      && totalImages == |imageIds|
      && 0 <= currentImageIndex
    }

    /** At most one timer runs, and it is the one `playbackInterval` holds while playing. */
    ghost predicate SingleTimer()
      reads this
    {
      && (isPlaying <==> playbackInterval.Some?)
      && activeTimers.Keys == (if playbackInterval.Some? then {playbackInterval.value} else {})
    }

    ghost predicate IndexInRange()
      reads this
    {
      0 <= currentImageIndex < totalImages
    }

    constructor ()
      ensures Valid() && SingleTimer()
      ensures currentImageIndex == 0 && totalImages == 0 && imageIds == []
      ensures !isPlaying && playbackInterval == None && playbackSpeed == 200
      ensures !scriptsCargados && !imagenCargada && nombreArchivoRVEF == ""
    {
      scriptsCargados, imagenCargada := false, false;
      nombreArchivoRVEF, imagenSeleccionadaRVEF, rvefResultsPresent := "", None, false;
      imageIds, currentImageIndex, totalImages := [], 0, 0;
      isPlaying, playbackInterval, playbackSpeed := false, None, 200;
      listeners, activeTimers, nextHandle, filesAdded := 0, map[], 1, 0;
    }

    /** `ngOnInit` once the toolkit scripts have loaded. */
    method ScriptsLoaded()
      modifies this`scriptsCargados
      ensures scriptsCargados
    {
      scriptsCargados := true;
    }

    /**
     * The toolkit reports that frame `index` of the current stack is shown.
     * Only a listener added by `startPlayback` copies it into the component.
     */
    method OnNewImage(index: int)
      requires Valid() && 0 <= index < totalImages
      modifies this`currentImageIndex
      ensures Valid()
      ensures currentImageIndex == if old(listeners) > 0 then index else old(currentImageIndex)
    {
      if listeners > 0 {
        currentImageIndex := index;
      }
    }

    // The `scrollToIndex` call of the two buttons only echoes, through the
    // listener, the index they have just stored, so it is not modelled.

    method NextImage()
      requires Valid()
      modifies this`currentImageIndex
      ensures Valid()
      ensures currentImageIndex == NextIndex(old(currentImageIndex), totalImages)
      ensures old(IndexInRange()) ==> IndexInRange()
    {
      if currentImageIndex < totalImages - 1 {
        currentImageIndex := currentImageIndex + 1;
      }
    }

    method PreviousImage()
      requires Valid()
      modifies this`currentImageIndex
      ensures Valid()
      ensures currentImageIndex == PrevIndex(old(currentImageIndex))
      ensures old(IndexInRange()) ==> IndexInRange()
    {
      if currentImageIndex > 0 {
        currentImageIndex := currentImageIndex - 1;
      }
    }

    method StopPlayback()
      requires Valid()
      modifies this`isPlaying, this`playbackInterval, this`activeTimers
      ensures Valid()
      ensures !isPlaying && playbackInterval == None
      ensures activeTimers == if old(playbackInterval).Some?
                              then old(activeTimers) - {old(playbackInterval).value}
                              else old(activeTimers)
      ensures old(SingleTimer()) ==> SingleTimer() && activeTimers == map[]
      ensures !old(isPlaying) && old(playbackInterval) == None ==> unchanged(this)
    {
      isPlaying := false;
      if playbackInterval.Some? {
        activeTimers := activeTimers - {playbackInterval.value};
        playbackInterval := None;
      }
    }

    /**
     * Adds a `cornerstonenewimage` listener and starts a timer at the current
     * speed, unless the series has at most one frame. Nothing stops a second
     * call while playing: the earlier timer then stays registered with no
     * handle left to clear it.
     */
    method StartPlayback()
      requires Valid()
      modifies this`listeners, this`isPlaying, this`playbackInterval, this`activeTimers, this`nextHandle
      ensures Valid()
      ensures old(totalImages) <= 1 ==> unchanged(this)
      ensures old(totalImages) > 1 ==>
        && isPlaying
        && listeners == old(listeners) + 1
        && playbackInterval == Some(old(nextHandle))
        && activeTimers == old(activeTimers)[old(nextHandle) := playbackSpeed]
        && nextHandle == old(nextHandle) + 1
      ensures old(SingleTimer()) && !old(isPlaying) ==> SingleTimer()
      ensures old(totalImages) > 1 && old(isPlaying) && old(SingleTimer()) ==> |activeTimers| == 2
    {
      if totalImages <= 1 {
        return;
      }
      listeners := listeners + 1;
      isPlaying := true;
      var handle := nextHandle;
      nextHandle := nextHandle + 1;
      assert handle !in activeTimers;
      activeTimers := activeTimers[handle := playbackSpeed];
      playbackInterval := Some(handle);
      assert playbackInterval.value in activeTimers;
    }

    /** One firing of the playback timer `handle`. */
    method Tick(handle: nat)
      requires Valid() && handle in activeTimers
      modifies this`currentImageIndex
      ensures Valid()
      ensures currentImageIndex == TickIndex(old(currentImageIndex), totalImages)
      ensures IndexInRange()
    {
      var newIndex := currentImageIndex + 1;
      if newIndex >= totalImages {
        newIndex := 0;
      }
      OnNewImage(newIndex);
    }

    method TogglePlayback()
      requires Valid()
      modifies this`listeners, this`isPlaying, this`playbackInterval, this`activeTimers, this`nextHandle
      ensures Valid()
      ensures old(isPlaying) ==> && !isPlaying && playbackInterval == None
                                 && listeners == old(listeners) && nextHandle == old(nextHandle)
                                 && activeTimers == if old(playbackInterval).Some?
                                                    then old(activeTimers) - {old(playbackInterval).value}
                                                    else old(activeTimers)
      ensures !old(isPlaying) && old(totalImages) > 1 ==>
                && isPlaying && listeners == old(listeners) + 1
                && playbackInterval == Some(old(nextHandle))
                && activeTimers == old(activeTimers)[old(nextHandle) := playbackSpeed]
                && nextHandle == old(nextHandle) + 1
      ensures !old(isPlaying) && old(totalImages) <= 1 ==> unchanged(this)
      ensures old(SingleTimer()) ==> SingleTimer()
    {
      if isPlaying {
        StopPlayback();
      } else {
        StartPlayback();
      }
    }

    method ChangePlaybackSpeed(speed: int)
      requires Valid()
      modifies this`playbackSpeed, this`listeners, this`isPlaying, this`playbackInterval,
               this`activeTimers, this`nextHandle
      ensures Valid()
      ensures playbackSpeed == speed
      ensures old(isPlaying) && old(totalImages) > 1 ==>
                && isPlaying && listeners == old(listeners) + 1
                && playbackInterval == Some(old(nextHandle)) && nextHandle == old(nextHandle) + 1
                && activeTimers == (if old(playbackInterval).Some?
                                    then old(activeTimers) - {old(playbackInterval).value}
                                    else old(activeTimers))[old(nextHandle) := speed]
      ensures old(isPlaying) && old(totalImages) <= 1 ==>
                && !isPlaying && playbackInterval == None
                && listeners == old(listeners) && nextHandle == old(nextHandle)
                && activeTimers == if old(playbackInterval).Some?
                                   then old(activeTimers) - {old(playbackInterval).value}
                                   else old(activeTimers)
      ensures old(isPlaying) && old(SingleTimer()) && totalImages > 1 ==>
                SingleTimer() && activeTimers == map[playbackInterval.value := speed]
      ensures !old(isPlaying) ==> unchanged(this`listeners, this`isPlaying, this`playbackInterval,
                                            this`activeTimers, this`nextHandle)
    {
      playbackSpeed := speed;
      if isPlaying {
        StopPlayback();
        StartPlayback();
      }
    }

    /**
     * `cargarSerieDicomConCornerstone`: stops playback, registers one image id
     * per file, and records the series length. The frame index is left as it was.
     * Its one caller never passes an empty batch.
     */
    method LoadSeries(names: seq<string>)
      requires Valid() && |names| > 0
      modifies this
      ensures Valid()
      ensures !isPlaying && playbackInterval == None
      ensures activeTimers == if old(playbackInterval).Some?
                              then old(activeTimers) - {old(playbackInterval).value}
                              else old(activeTimers)
      ensures old(SingleTimer()) ==> SingleTimer() && activeTimers == map[]
      ensures totalImages == |names| && imagenCargada == (|names| > 0)
      ensures imageIds == seq(|names|, k => old(filesAdded) + k)
      ensures filesAdded == old(filesAdded) + |names|
      ensures currentImageIndex == old(currentImageIndex)
      ensures playbackSpeed == old(playbackSpeed) && scriptsCargados == old(scriptsCargados)
      ensures nombreArchivoRVEF == old(nombreArchivoRVEF)
      ensures imagenSeleccionadaRVEF == old(imagenSeleccionadaRVEF)
      ensures rvefResultsPresent == old(rvefResultsPresent)
      ensures listeners == old(listeners) && nextHandle == old(nextHandle)
    {
      StopPlayback();
      var first := filesAdded;
      var ids := seq(|names|, k => first + k);
      filesAdded := filesAdded + |names|;
      imageIds := ids;
      totalImages := |ids|;
      imagenCargada := totalImages > 0;
    }

    /**
     * `seleccionarImagenRVEF`: the batch is refused as a whole if one name does
     * not end in ".dcm" (any case); otherwise the series is loaded.
     */
    method SelectSeries(names: seq<string>) returns (outcome: Selection)
      requires Valid()
      modifies this
      ensures Valid()
      ensures outcome == (if !old(scriptsCargados) then ScriptsNotLoaded
                          else if names == [] then NoFiles
                          else if SomeNotDicom(names) then NotDicom
                          else Loaded)
      ensures outcome != Loaded ==> unchanged(this)
      ensures outcome == Loaded ==>
        && nombreArchivoRVEF == Text.NatToString(|names|) + " archivos cargados"
        && imagenSeleccionadaRVEF == Some(names[0])
        && !rvefResultsPresent
        && !isPlaying && playbackInterval == None
        && totalImages == |names| && imagenCargada
        && currentImageIndex == old(currentImageIndex)
        && imageIds == seq(|names|, k => old(filesAdded) + k)
        && filesAdded == old(filesAdded) + |names|
        && activeTimers == (if old(playbackInterval).Some?
                            then old(activeTimers) - {old(playbackInterval).value}
                            else old(activeTimers))
        && (old(SingleTimer()) ==> SingleTimer() && activeTimers == map[])
        && playbackSpeed == old(playbackSpeed) && scriptsCargados == old(scriptsCargados)
        && listeners == old(listeners) && nextHandle == old(nextHandle)
    {
      if !scriptsCargados {
        return ScriptsNotLoaded;
      }
      if names == [] {
        return NoFiles;
      }
      if SomeNotDicom(names) {
        return NotDicom;
      }
      imagenSeleccionadaRVEF := Some(names[0]);
      nombreArchivoRVEF := Text.NatToString(|names|) + " archivos cargados";
      rvefResultsPresent := false;
      imagenCargada := false;
      LoadSeries(names);
      outcome := Loaded;
    }
  }
}
