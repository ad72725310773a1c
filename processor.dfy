/**
 * The analysis rules of the echocardiogram processor: which uploaded files
 * reach the inference step, the integer geometry of the DICOM-to-video
 * conversion (centre crop, per-frame margin, triangular mask), the per-frame
 * rows of size.csv, and the per-video classification by ejection fraction.
 *
 * The neural networks, the video codecs, the DICOM reader, the peak finder
 * and the floating-point statistics are outside the model: the segmentation
 * sizes, the peak frames and the model's ejection fraction are inputs.
 */
module Processor {
  import opened Wrappers
  import Text

  // ---------------------------------------------------------------------
  // Clinical classification
  // ---------------------------------------------------------------------

  datatype Classification = Classification(name: string, severity: nat)

  const Preserved := Classification("Conservada (IC-FEc)", 0)
  const MildlyReduced := Classification("Ligeramente Reducida (IC-FElr)", 1)
  const Reduced := Classification("Reducida (IC-FEr)", 2)

  /** The thresholds of the final classification step. */
  function Classify(ef: real): (c: Classification)
    ensures c == Preserved <==> ef >= 50.0
    ensures c == MildlyReduced <==> 40.0 < ef < 50.0
    ensures c == Reduced <==> ef <= 40.0
  {
    if ef >= 50.0 then Preserved
    else if ef > 40.0 then MildlyReduced
    else Reduced
  }

  /** Exactly one class applies, and a higher ejection fraction is never more severe. */
  lemma ClassificationIsTotalAndMonotone(ef1: real, ef2: real)
    requires ef1 <= ef2
    ensures Classify(ef1) in {Preserved, MildlyReduced, Reduced}
    ensures Preserved != MildlyReduced && MildlyReduced != Reduced && Preserved != Reduced
    ensures Classify(ef2).severity <= Classify(ef1).severity
    ensures Classify(ef1).severity == 0 <==> Classify(ef1) == Preserved
  {
  }

  /** The volumetric ejection fraction from the smallest and largest segmented area. */
  function EfVolumetric(esv: int, edv: int): (ef: real)
    ensures edv <= 0 ==> ef == 0.0
    ensures 0 <= esv <= edv ==> 0.0 <= ef <= 100.0
    ensures 0 < edv && esv == edv ==> ef == 0.0
    ensures 0 == esv < edv ==> ef == 100.0
  {
    if edv > 0 then
      var ratio := (edv - esv) as real / edv as real;
      assert 0 <= esv <= edv ==> 0.0 <= ratio <= 1.0 by {
        if 0 <= esv <= edv {
          assert ratio * edv as real == (edv - esv) as real;
        }
      }
      ratio * 100.0
    else
      0.0
  }

  // ---------------------------------------------------------------------
  // Staging of the uploaded files
  // ---------------------------------------------------------------------

  /**
   * One entry of the upload folder. `converts` is what the DICOM converter
   * returns for it: true when it yields a video path, false for `None`.
   */
  datatype DirEntry = DirEntry(name: string, isDir: bool, converts: bool)

  predicate IsDicomFile(name: string) {
    var lower := Text.Lower(name);
    Text.EndsWith(lower, ".dcm") || Text.EndsWith(lower, ".dicom")
  }

  predicate IsAviFile(name: string) {
    Text.EndsWith(Text.Lower(name), ".avi")
  }

  /** Whether the entry ends up in the inference folder and is counted. */
  predicate Staged(e: DirEntry) {
    !e.isDir && ((IsDicomFile(e.name) && e.converts) || (!IsDicomFile(e.name) && IsAviFile(e.name)))
  }

  /** The name under which a staged entry reaches the inference folder. */
  function StagedName(e: DirEntry): string {
    if IsDicomFile(e.name) then Text.Root(e.name) + ".avi" else e.name
  }

  /**
   * The names the listing loop copies or converts into the inference folder,
   * in listing order. A DICOM file and an AVI with the same stem both stage
   * that stem's `.avi`, so a name can appear twice here while the folder
   * holds one file, the one written last.
   */
  function StagedFiles(entries: seq<DirEntry>): seq<string> {
    if entries == [] then []
    else if Staged(entries[0]) then [StagedName(entries[0])] + StagedFiles(entries[1..])
    else StagedFiles(entries[1..])
  }

  const NoValidFiles := "No se encontraron archivos válidos (.avi, .dcm) para procesar."

  /** The listing loop of `process_videos`: counts what it stages and raises when nothing is. */
  method PrepareInference(entries: seq<DirEntry>) returns (r: Result<seq<string>, string>)
    ensures r == if StagedFiles(entries) == [] then Failure(NoValidFiles) else Success(StagedFiles(entries))
  {
    var staged: seq<string> := [];
    var validFilesCount := 0;
    var i := 0;
    while i < |entries|
      invariant 0 <= i <= |entries|
      invariant staged + StagedFiles(entries[i..]) == StagedFiles(entries)
      invariant validFilesCount == |staged|
    {
      var e := entries[i];
      ghost var before := staged;
      StagedFilesStep(entries, i);
      if !e.isDir {
        if IsDicomFile(e.name) {
          if e.converts {
            staged := staged + [Text.Root(e.name) + ".avi"];
            validFilesCount := validFilesCount + 1;
          }
        } else if IsAviFile(e.name) {
          staged := staged + [e.name];
          validFilesCount := validFilesCount + 1;
        }
      }
      ghost var added := if Staged(e) then [StagedName(e)] else [];
      assert staged == before + added;
      Text.AppendAssociative(before, added, StagedFiles(entries[i + 1..]));
      i := i + 1;
    }
    assert entries[|entries|..] == [];
    assert staged == StagedFiles(entries);
    if validFilesCount == 0 {
      return Failure(NoValidFiles);
    }
    return Success(staged);
  }

  /** Unfolding the listing at position `i`. */
  lemma StagedFilesStep(entries: seq<DirEntry>, i: nat)
    requires i < |entries|
    ensures StagedFiles(entries[i..]) ==
              (if Staged(entries[i]) then [StagedName(entries[i])] else []) + StagedFiles(entries[i + 1..])
  {
    assert entries[i..][0] == entries[i] && entries[i..][1..] == entries[i + 1..];
  }

  lemma {:induction false} StagedFilesAppend(a: seq<DirEntry>, b: seq<DirEntry>)
    ensures StagedFiles(a + b) == StagedFiles(a) + StagedFiles(b)
  {
    if a != [] {
      assert (a + b)[0] == a[0] && (a + b)[1..] == a[1..] + b;
      StagedFilesAppend(a[1..], b);
      var head := if Staged(a[0]) then [StagedName(a[0])] else [];
      calc {
        StagedFiles(a + b);
        head + StagedFiles(a[1..] + b);
        head + (StagedFiles(a[1..]) + StagedFiles(b));
        (head + StagedFiles(a[1..])) + StagedFiles(b);
      }
    } else {
      assert a + b == b;
    }
  }

  lemma AviNameEndsInAvi(stem: string)
    ensures Text.EndsWith(Text.Lower(stem + ".avi"), ".avi")
  {
    var s := stem + ".avi";
    var l := Text.Lower(s);
    assert l[|l| - 4..] == [l[|s| - 4], l[|s| - 3], l[|s| - 2], l[|s| - 1]];
  }

  /** Everything staged is a video the inference step reads: its name ends in ".avi", in any case. */
  lemma {:induction false} StagedFilesAreAvi(entries: seq<DirEntry>)
    ensures |StagedFiles(entries)| <= |entries|
    ensures forall k :: 0 <= k < |StagedFiles(entries)| ==> IsAviFile(StagedFiles(entries)[k])
  {
    if entries != [] {
      StagedFilesAreAvi(entries[1..]);
      if Staged(entries[0]) && IsDicomFile(entries[0].name) {
        AviNameEndsInAvi(Text.Root(entries[0].name));
      }
    }
  }

  /** Directories and files of any other type never count, whatever else is listed. */
  lemma {:induction false} IgnoredEntriesDoNotCount(entries: seq<DirEntry>, e: DirEntry)
    requires e.isDir || (!IsDicomFile(e.name) && !IsAviFile(e.name))
    ensures StagedFiles(entries + [e]) == StagedFiles(entries)
  {
    StagedFilesAppend(entries, [e]);
    assert StagedFiles([e]) == [];
  }

  // ---------------------------------------------------------------------
  // Geometry of the DICOM conversion
  // ---------------------------------------------------------------------

  /** The number of elements of the Python slice `[start:stop]` of a length-`len` axis. */
  function SliceLen(len: nat, start: nat, stop: nat): (n: nat)
    ensures n <= len
    ensures start <= stop <= len ==> n == stop - start
  {
    var hi := if stop < len then stop else len;
    var lo := if start < len then start else len;
    if hi > lo then hi - lo else 0
  }

  /**
   * The centre crop: `bias = |W - H| div 2` rows or columns are cut from both
   * ends of the longer side.
   */
  function CenterCrop(height: nat, width: nat): (dims: (nat, nat))
    ensures dims.0 <= height && dims.1 <= width
    ensures height <= width ==> dims.0 == height
    ensures width <= height ==> dims.1 == width
    ensures -1 <= dims.0 - dims.1 <= 1
    ensures (dims.0 - dims.1) % 2 == (height - width) % 2
  {
    var bias := (if width > height then width - height else height - width) / 2;
    if bias > 0 then
      if height < width then (height, SliceLen(width, bias, width - bias))
      else (SliceLen(height, bias, height - bias), width)
    else
      (height, width)
  }

  /**
   * The frame geometry `_convert_dicom_to_avi` produces: rows from `yCrop` on
   * (the first dark row, found by the pixel statistics), then the centre crop;
   * `None` when frames, height or width is zero.
   */
  function ConvertedDims(frames: nat, height: nat, width: nat, yCrop: nat): (r: Option<(nat, nat, nat)>)
    ensures r.Some? ==> r.value.0 == frames > 0 && r.value.1 > 0 && r.value.2 > 0
    ensures r.Some? ==> -1 <= r.value.1 - r.value.2 <= 1
    ensures yCrop < height && frames > 0 && width > 0 ==> r.Some?
  {
    var dims := CenterCrop(SliceLen(height, yCrop, height), width);
    if frames == 0 || dims.0 == 0 || dims.1 == 0 then None
    else Some((frames, dims.0, dims.1))
  }

  /**
   * The per-frame crop: a margin of `height div 10` on both axes (columns are
   * indexed by the height as well), applied only when `height > 2 * margin`.
   */
  function FrameCrop(height: nat, width: nat): (dims: (nat, nat)) {
    var margin := height / 10;
    if height > 2 * margin then
      (SliceLen(height, margin, height - margin), SliceLen(width, margin, height - margin))
    else
      (height, width)
  }

  /**
   * On the frames the conversion produces the margin branch is always taken,
   * and the cut frame is square up to one column.
   */
  lemma FrameCropOfConvertedFrame(height: nat, width: nat)
    requires height > 0 && width > 0 && -1 <= height - width <= 1
    ensures height > 2 * (height / 10)
    ensures FrameCrop(height, width).0 == height - 2 * (height / 10)
    ensures -1 <= FrameCrop(height, width).0 - FrameCrop(height, width).1 <= 1
  {
  }

  /** The threshold of `_apply_mask`: `int(d/2) + int(d/10)`. */
  function MaskThreshold(d: nat): nat {
    d / 2 + d / 10
  }

  /** Whether `_apply_mask` keeps the pixel at row `i`, column `j` of a `d`-square frame. */
  predicate MaskKeeps(d: nat, i: int, j: int) {
    i + j > MaskThreshold(d) && j - i < MaskThreshold(d)
  }

  predicate IsSquare(img: seq<seq<int>>) {
    forall i :: 0 <= i < |img| ==> |img[i]| == |img|
  }

  /** `_apply_mask`: the pixels outside the sector are set to zero. */
  function ApplyMask(img: seq<seq<int>>): (out: seq<seq<int>>)
    requires IsSquare(img)
    ensures IsSquare(out) && |out| == |img|
  {
    var d := |img|;
    seq(d, i requires 0 <= i < d => seq(d, j requires 0 <= j < d => if MaskKeeps(d, i, j) then img[i][j] else 0))
  }

  /** Masking a masked frame changes nothing. */
  lemma ApplyMaskIdempotent(img: seq<seq<int>>)
    requires IsSquare(img)
    ensures ApplyMask(ApplyMask(img)) == ApplyMask(img)
  {
    var once := ApplyMask(img);
    var twice := ApplyMask(once);
    forall i | 0 <= i < |img|
      ensures twice[i] == once[i]
    {
    }
  }

  /** For the 112-pixel frames of the conversion: the threshold is 67, the top corners are cut, the bottom ones kept. */
  lemma MaskOfConvertedFrame()
    ensures MaskThreshold(112) == 67
    ensures !MaskKeeps(112, 0, 0) && !MaskKeeps(112, 0, 111)
    ensures MaskKeeps(112, 111, 0) && MaskKeeps(112, 111, 111)
    ensures forall j :: 0 <= j < 112 ==> !MaskKeeps(112, 0, j)
  {
  }

  // ---------------------------------------------------------------------
  // size.csv and the per-video results
  // ---------------------------------------------------------------------

  /**
   * One line of size.csv as `pd.read_csv` reads it back. The model's EF is
   * the value of its `{:.2f}` text; the volumes, whole pixel counts times
   * 0.03, already have two decimals.
   */
  datatype SizeRow = SizeRow(filename: string, frame: nat, size: int, computerSmall: int,
                             efMean: real, esvMl: real, edvMl: real)

  function SeqMin(s: seq<int>): (m: int)
    requires |s| > 0
    ensures m in s && forall k :: 0 <= k < |s| ==> m <= s[k]
  {
    if |s| == 1 then s[0]
    else
      var rest := SeqMin(s[1..]);
      assert forall k :: 1 <= k < |s| ==> s[k] == s[1..][k - 1];
      if s[0] <= rest then s[0] else rest
  }

  function SeqMax(s: seq<int>): (m: int)
    requires |s| > 0
    ensures m in s && forall k :: 0 <= k < |s| ==> s[k] <= m
  {
    if |s| == 1 then s[0]
    else
      var rest := SeqMax(s[1..]);
      assert forall k :: 1 <= k < |s| ==> s[k] == s[1..][k - 1];
      if s[0] >= rest then s[0] else rest
  }

  /** `size.min() if len(size) > 0 else 0`, and the same for the maximum. */
  function MinOrZero(s: seq<int>): int {
    if |s| > 0 then SeqMin(s) else 0
  }

  function MaxOrZero(s: seq<int>): int {
    if |s| > 0 then SeqMax(s) else 0
  }

  const PixelToMl: real := 0.03

  /** The integer nearest to `t`, ties to the even one, as Python rounds. */
  function RoundHalfEven(t: real): (n: int)
    ensures -0.5 <= n as real - t <= 0.5
    ensures t - t.Floor as real == 0.5 ==> n % 2 == 0
  {
    var f := t.Floor;
    var d := t - f as real;
    if d < 0.5 then f
    else if d > 0.5 then f + 1
    else if f % 2 == 0 then f else f + 1
  }

  /** The number `{:.2f}` prints for `x`, as read back: a whole number of hundredths within 0.005 of `x`. */
  function Round2(x: real): (y: real)
    ensures -0.005 <= y - x <= 0.005
    ensures (y * 100.0).Floor as real == y * 100.0
  {
    RoundHalfEven(x * 100.0) as real / 100.0
  }

  /**
   * The rounding decides the class only within 0.005 above 40 and below 50:
   * elsewhere the read-back EF falls in the same class as the exact one,
   * while 49.996 is written "50.00" and 40.004 "40.00".
   */
  lemma RoundingChangesClassOnlyNearThresholds(x: real)
    ensures x <= 40.0 || 40.005 < x < 49.995 || x >= 50.0 ==> Classify(Round2(x)) == Classify(x)
    ensures Classify(Round2(49.996)) == Preserved && Classify(49.996) == MildlyReduced
    ensures Classify(Round2(40.004)) == Reduced && Classify(40.004) == MildlyReduced
  {
    var n := RoundHalfEven(x * 100.0);
    assert Round2(x) == n as real / 100.0;
    if x <= 40.0 {
      assert n <= 4000;
    } else if x >= 50.0 {
      assert n >= 5000;
    }
    assert RoundHalfEven(4999.6) == 5000;
    assert RoundHalfEven(4000.4) == 4000;
  }

  /** The row for frame `k` of a video. */
  function FrameRow(filename: string, sizes: seq<int>, peaks: set<int>, ef: real, k: nat): SizeRow
    requires k < |sizes|
  {
    SizeRow(filename, k, sizes[k], if k in peaks then 1 else 0,
            Round2(ef), MinOrZero(sizes) as real * PixelToMl, MaxOrZero(sizes) as real * PixelToMl)
  }

  /** The rows of one video, in frame order. */
  function VideoRows(filename: string, sizes: seq<int>, peaks: set<int>, ef: real): seq<SizeRow> {
    seq(|sizes|, k requires 0 <= k < |sizes| => FrameRow(filename, sizes, peaks, ef, k))
  }

  /** The loop that appends one line per frame of a video to `csv_lines`. */
  method AppendVideoRows(csvLines: seq<SizeRow>, filename: string, sizes: seq<int>, peaks: set<int>, ef: real)
    returns (lines: seq<SizeRow>)
    ensures lines == csvLines + VideoRows(filename, sizes, peaks, ef)
  {
    var esvMl := MinOrZero(sizes) as real * PixelToMl;
    var edvMl := MaxOrZero(sizes) as real * PixelToMl;
    var efCsv := Round2(ef);
    lines := csvLines;
    var frameIdx := 0;
    while frameIdx < |sizes|
      invariant 0 <= frameIdx <= |sizes|
      invariant lines == csvLines + VideoRows(filename, sizes, peaks, ef)[..frameIdx]
    {
      lines := lines + [SizeRow(filename, frameIdx, sizes[frameIdx], if frameIdx in peaks then 1 else 0,
                                efCsv, esvMl, edvMl)];
      frameIdx := frameIdx + 1;
    }
  }

  /** The number of rows marked as end-systole (`ComputerSmall == 1`). */
  function CountSmall(rows: seq<SizeRow>): nat {
    if rows == [] then 0
    else CountSmall(rows[..|rows| - 1]) + (if rows[|rows| - 1].computerSmall == 1 then 1 else 0)
  }

  /** The rows of `rows` with the given file name, in order. */
  function RowsOf(rows: seq<SizeRow>, filename: string): (r: seq<SizeRow>)
    ensures forall k :: 0 <= k < |r| ==> r[k] in rows && r[k].filename == filename
    ensures forall k :: 0 <= k < |rows| && rows[k].filename == filename ==> rows[k] in r
    ensures |r| <= |rows|
  {
    if rows == [] then []
    else if rows[0].filename == filename then [rows[0]] + RowsOf(rows[1..], filename)
    else RowsOf(rows[1..], filename)
  }

  /** The file names of `rows` in order of first appearance (pandas' `unique`). */
  function UniqueNames(rows: seq<SizeRow>): (names: seq<string>)
    ensures forall k :: 0 <= k < |names| ==> exists m :: 0 <= m < |rows| && rows[m].filename == names[k]
    ensures forall m :: 0 <= m < |rows| ==> rows[m].filename in names
    ensures forall a, b :: 0 <= a < b < |names| ==> names[a] != names[b]
  {
    if rows == [] then []
    else
      var last := rows[|rows| - 1];
      var before := UniqueNames(rows[..|rows| - 1]);
      if last.filename in before then before else before + [last.filename]
  }

  /** The index of the first row with the given name. */
  function FirstRow(rows: seq<SizeRow>, filename: string): (m: nat)
    requires exists m :: 0 <= m < |rows| && rows[m].filename == filename
    ensures m < |rows| && rows[m].filename == filename
    ensures forall j :: 0 <= j < m ==> rows[j].filename != filename
  {
    if rows[0].filename == filename then 0
    else
      var m :| 0 <= m < |rows| && rows[m].filename == filename;
      assert rows[1..][m - 1] == rows[m];
      1 + FirstRow(rows[1..], filename)
  }

  /** A name listed for a prefix first occurs at the same row in the whole table. */
  lemma FirstRowOfListedName(rows: seq<SizeRow>, n: nat, filename: string)
    requires n <= |rows| && filename in UniqueNames(rows[..n])
    ensures exists m :: 0 <= m < |rows| && rows[m].filename == filename
    ensures FirstRow(rows, filename) < n
    ensures FirstRow(rows, filename) == FirstRow(rows[..n], filename)
  {
    var prefix := rows[..n];
    var k :| 0 <= k < |UniqueNames(prefix)| && UniqueNames(prefix)[k] == filename;
    var m :| 0 <= m < |prefix| && prefix[m].filename == filename;
    assert rows[m] == prefix[m];
    var p := FirstRow(prefix, filename);
    assert rows[p] == prefix[p];
    assert forall j :: 0 <= j < p ==> prefix[j] == rows[j];
  }

  /** The last row's name, when no earlier row carries it, first occurs on the last row. */
  lemma FirstRowOfNewName(rows: seq<SizeRow>)
    requires rows != [] && rows[|rows| - 1].filename !in UniqueNames(rows[..|rows| - 1])
    ensures FirstRow(rows, rows[|rows| - 1].filename) == |rows| - 1
  {
    var n := |rows| - 1;
    var init := rows[..n];
    forall j | 0 <= j < n
      ensures rows[j].filename != rows[n].filename
    {
      assert rows[j] == init[j];
      assert init[j].filename in UniqueNames(init);
    }
  }

  /**
   * `unique()` lists the names in order of first appearance: an earlier
   * name first occurs on an earlier row.
   */
  lemma {:induction false} UniqueNamesInFirstAppearanceOrder(rows: seq<SizeRow>, a: nat, b: nat)
    requires a < b < |UniqueNames(rows)|
    ensures FirstRow(rows, UniqueNames(rows)[a]) < FirstRow(rows, UniqueNames(rows)[b])
  {
    var n := |rows| - 1;
    var init := rows[..n];
    var before := UniqueNames(init);
    var names := UniqueNames(rows);
    assert rows != [];
    assert names == if rows[n].filename in before then before else before + [rows[n].filename];
    assert names[a] == before[a];
    FirstRowOfListedName(rows, n, before[a]);
    if b < |before| {
      assert names[b] == before[b];
      FirstRowOfListedName(rows, n, before[b]);
      UniqueNamesInFirstAppearanceOrder(init, a, b);
    } else {
      FirstRowOfNewName(rows);
    }
  }

  /** One line of classification_results.csv (without the statistical columns). */
  datatype VideoResult = VideoResult(filename: string, efModel: real, efVolumetric: real,
                                     esvPixels: int, edvPixels: int, classification: Classification,
                                     numBeats: nat)

  function Sizes(rows: seq<SizeRow>): (s: seq<int>)
    ensures |s| == |rows| && forall k :: 0 <= k < |rows| ==> s[k] == rows[k].size
  {
    seq(|rows|, k requires 0 <= k < |rows| => rows[k].size)
  }

  /** The per-video result computed from that video's rows. */
  function Summarize(filename: string, videoData: seq<SizeRow>): VideoResult
    requires |videoData| > 0
  {
    var esv := SeqMin(Sizes(videoData));
    var edv := SeqMax(Sizes(videoData));
    var efModel := videoData[0].efMean;
    VideoResult(filename, efModel, EfVolumetric(esv, edv), esv, edv, Classify(efModel), CountSmall(videoData))
  }

  lemma RowsOfNonEmpty(rows: seq<SizeRow>, name: string)
    requires name in UniqueNames(rows)
    ensures |RowsOf(rows, name)| > 0
  {
    var m :| 0 <= m < |rows| && rows[m].filename == name;
    RowsOfContains(rows, name, m);
  }

  lemma {:induction false} RowsOfContains(rows: seq<SizeRow>, name: string, m: nat)
    requires m < |rows| && rows[m].filename == name
    ensures |RowsOf(rows, name)| > 0
  {
    if m > 0 && rows[0].filename != name {
      RowsOfContains(rows[1..], name, m - 1);
    }
  }

  /** The classification loop of `process_videos`: one result per distinct file name, in order. */
  method ClassifyVideos(dfSize: seq<SizeRow>) returns (results: seq<VideoResult>)
    ensures |results| == |UniqueNames(dfSize)|
    ensures forall k :: 0 <= k < |results| ==>
              |RowsOf(dfSize, UniqueNames(dfSize)[k])| > 0 &&
              results[k] == Summarize(UniqueNames(dfSize)[k], RowsOf(dfSize, UniqueNames(dfSize)[k]))
  {
    var names := UniqueNames(dfSize);
    results := [];
    var i := 0;
    while i < |names|
      invariant 0 <= i <= |names|
      invariant |results| == i
      invariant forall k :: 0 <= k < i ==>
                  |RowsOf(dfSize, names[k])| > 0 && results[k] == Summarize(names[k], RowsOf(dfSize, names[k]))
    {
      var filename := names[i];
      var videoData := RowsOf(dfSize, filename);
      RowsOfNonEmpty(dfSize, filename);
      results := results + [Summarize(filename, videoData)];
      i := i + 1;
    }
  }

  /** The number of peak frames among the first `n`. */
  function PeaksBelow(peaks: set<int>, n: nat): nat {
    if n == 0 then 0 else PeaksBelow(peaks, n - 1) + (if n - 1 in peaks then 1 else 0)
  }

  lemma {:induction false} PeaksBelowIsCardinality(peaks: set<int>, n: nat)
    ensures PeaksBelow(peaks, n) == |set k | 0 <= k < n && k in peaks|
  {
    if n > 0 {
      PeaksBelowIsCardinality(peaks, n - 1);
      var before := set k | 0 <= k < n - 1 && k in peaks;
      var now := set k | 0 <= k < n && k in peaks;
      if n - 1 in peaks {
        assert now == before + {n - 1};
      } else {
        assert now == before;
      }
    }
  }

  lemma {:induction false} CountSmallOfVideoRows(filename: string, sizes: seq<int>, peaks: set<int>, ef: real, n: nat)
    requires n <= |sizes|
    ensures CountSmall(VideoRows(filename, sizes, peaks, ef)[..n]) == PeaksBelow(peaks, n)
  {
    if n > 0 {
      var rows := VideoRows(filename, sizes, peaks, ef);
      assert rows[..n][..n - 1] == rows[..n - 1];
      CountSmallOfVideoRows(filename, sizes, peaks, ef, n - 1);
    }
  }

  lemma {:induction false} RowsOfOneVideo(rows: seq<SizeRow>, filename: string)
    requires forall k :: 0 <= k < |rows| ==> rows[k].filename == filename
    ensures RowsOf(rows, filename) == rows
  {
    if rows != [] {
      RowsOfOneVideo(rows[1..], filename);
    }
  }

  /**
   * For a video whose rows stand alone in size.csv: the beats are the peak
   * frames inside the video, the volumes are the extreme areas, and the
   * volumetric fraction lies in [0, 100].
   */
  lemma SummaryOfOneVideo(filename: string, sizes: seq<int>, peaks: set<int>, ef: real)
    requires |sizes| > 0 && forall k :: 0 <= k < |sizes| ==> sizes[k] >= 0
    ensures var rows := VideoRows(filename, sizes, peaks, ef);
            var r := Summarize(filename, RowsOf(rows, filename));
            && r.numBeats == |set k | 0 <= k < |sizes| && k in peaks|
            && r.esvPixels == SeqMin(sizes) && r.edvPixels == SeqMax(sizes)
            && 0.0 <= r.efVolumetric <= 100.0
            && r.efModel == Round2(ef) && r.classification == Classify(Round2(ef))
  {
    var rows := VideoRows(filename, sizes, peaks, ef);
    RowsOfOneVideo(rows, filename);
    SizesOfVideoRows(filename, sizes, peaks, ef);
    assert rows[..|sizes|] == rows;
    CountSmallOfVideoRows(filename, sizes, peaks, ef, |sizes|);
    PeaksBelowIsCardinality(peaks, |sizes|);
    var esv, edv := SeqMin(sizes), SeqMax(sizes);
    assert 0 <= esv <= edv by {
      assert esv <= sizes[0] <= edv;
    }
  }

  lemma SizesOfVideoRows(filename: string, sizes: seq<int>, peaks: set<int>, ef: real)
    ensures Sizes(VideoRows(filename, sizes, peaks, ef)) == sizes
  {
  }

  /** Selecting by name distributes over the concatenation of two tables, keeping the order. */
  lemma {:induction false} RowsOfAppend(a: seq<SizeRow>, b: seq<SizeRow>, filename: string)
    ensures RowsOf(a + b, filename) == RowsOf(a, filename) + RowsOf(b, filename)
  {
    if a != [] {
      assert (a + b)[0] == a[0];
      assert (a + b)[1..] == a[1..] + b;
      RowsOfAppend(a[1..], b, filename);
    } else {
      assert a + b == b;
    }
  }

  /** A name no row carries selects nothing. */
  lemma RowsOfAbsent(rows: seq<SizeRow>, filename: string)
    requires forall k :: 0 <= k < |rows| ==> rows[k].filename != filename
    ensures RowsOf(rows, filename) == []
  {
  }

  // ---------------------------------------------------------------------
  // size.csv as the loop over every video writes it
  // ---------------------------------------------------------------------

  /** What the segmentation gives for one video: its name, frame areas, peak frames and model EF. */
  datatype VideoInput = VideoInput(filename: string, sizes: seq<int>, peaks: set<int>, ef: real)

  function RowsOfVideo(v: VideoInput): seq<SizeRow> {
    VideoRows(v.filename, v.sizes, v.peaks, v.ef)
  }

  /** The rows of size.csv: those of every video, one video after the other, in loader order. */
  function Table(videos: seq<VideoInput>): seq<SizeRow> {
    if videos == [] then [] else RowsOfVideo(videos[0]) + Table(videos[1..])
  }

  /** No two videos share a file name (they come from one folder). */
  predicate NamesDistinct(videos: seq<VideoInput>) {
    forall a, b :: 0 <= a < b < |videos| ==> videos[a].filename != videos[b].filename
  }

  predicate AreasNonNegative(videos: seq<VideoInput>) {
    forall i :: 0 <= i < |videos| ==> forall k :: 0 <= k < |videos[i].sizes| ==> videos[i].sizes[k] >= 0
  }

  /** Every row of size.csv belongs to a video with at least one frame. */
  lemma {:induction false} TableRowsNamed(videos: seq<VideoInput>, k: nat)
    requires k < |Table(videos)|
    ensures exists j :: 0 <= j < |videos| && Table(videos)[k].filename == videos[j].filename && |videos[j].sizes| > 0
  {
    var first := RowsOfVideo(videos[0]);
    if k < |first| {
      assert Table(videos)[k] == first[k];
    } else {
      assert Table(videos)[k] == Table(videos[1..])[k - |first|];
      TableRowsNamed(videos[1..], k - |first|);
      var j :| 0 <= j < |videos[1..]| && Table(videos[1..])[k - |first|].filename == videos[1..][j].filename
               && |videos[1..][j].sizes| > 0;
      assert videos[1..][j] == videos[j + 1];
    }
  }

  /** With distinct names, selecting video i's name from the whole of size.csv gives exactly video i's rows. */
  lemma {:induction false} RowsOfTable(videos: seq<VideoInput>, i: nat)
    requires NamesDistinct(videos) && i < |videos|
    ensures RowsOf(Table(videos), videos[i].filename) == RowsOfVideo(videos[i])
  {
    var name := videos[i].filename;
    var first, rest := RowsOfVideo(videos[0]), Table(videos[1..]);
    RowsOfAppend(first, rest, name);
    if i == 0 {
      RowsOfOneVideo(first, name);
      forall k | 0 <= k < |rest|
        ensures rest[k].filename != name
      {
        TableRowsNamed(videos[1..], k);
        var j :| 0 <= j < |videos[1..]| && rest[k].filename == videos[1..][j].filename && |videos[1..][j].sizes| > 0;
        assert videos[1..][j] == videos[j + 1];
      }
      RowsOfAbsent(rest, name);
      assert first + [] == first;
    } else {
      RowsOfAbsent(first, name);
      assert videos[1..][i - 1] == videos[i];
      RowsOfTable(videos[1..], i - 1);
    }
  }

  /** The result for one video states what its row of classification_results.csv means. */
  predicate SummaryOf(v: VideoInput, r: VideoResult) {
    && |v.sizes| > 0
    && r.filename == v.filename
    && r.efModel == Round2(v.ef) && r.classification == Classify(Round2(v.ef))
    && r.numBeats == |set k | 0 <= k < |v.sizes| && k in v.peaks|
    && r.esvPixels == SeqMin(v.sizes) && r.edvPixels == SeqMax(v.sizes)
    && r.efVolumetric == EfVolumetric(r.esvPixels, r.edvPixels)
    && 0.0 <= r.efVolumetric <= 100.0
  }

  /**
   * Over the whole of size.csv: the k-th result of the classification loop
   * summarises exactly one video, the one with that name, from its own rows.
   */
  lemma EveryResultSummarizesItsVideo(videos: seq<VideoInput>, k: nat)
    requires NamesDistinct(videos) && AreasNonNegative(videos)
    requires k < |UniqueNames(Table(videos))|
    ensures var name := UniqueNames(Table(videos))[k];
            |RowsOf(Table(videos), name)| > 0 &&
            exists i :: 0 <= i < |videos| && videos[i].filename == name
                        && SummaryOf(videos[i], Summarize(name, RowsOf(Table(videos), name)))
  {
    var table := Table(videos);
    var name := UniqueNames(table)[k];
    var m :| 0 <= m < |table| && table[m].filename == name;
    TableRowsNamed(videos, m);
    var i :| 0 <= i < |videos| && table[m].filename == videos[i].filename && |videos[i].sizes| > 0;
    RowsOfTable(videos, i);
    VideoSummary(videos[i]);
  }

  /** One video's own rows summarise to what SummaryOf demands of its result. */
  lemma VideoSummary(v: VideoInput)
    requires |v.sizes| > 0 && forall k :: 0 <= k < |v.sizes| ==> v.sizes[k] >= 0
    ensures |RowsOfVideo(v)| > 0 && SummaryOf(v, Summarize(v.filename, RowsOfVideo(v)))
  {
    SelectOwnRows(v);
    SummaryOfOneVideo(v.filename, v.sizes, v.peaks, v.ef);
  }

  lemma SelectOwnRows(v: VideoInput)
    requires |v.sizes| > 0
    ensures RowsOf(RowsOfVideo(v), v.filename) == RowsOfVideo(v)
    ensures RowsOfVideo(v)[0].efMean == Round2(v.ef)
  {
    RowsOfOneVideo(RowsOfVideo(v), v.filename);
  }
}
