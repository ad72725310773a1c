/**
 * The validation report: the model's results are matched to the expert's
 * file list by name without extension, and both ejection fractions are
 * classified with the report's own thresholds for the confusion matrix.
 * The regression metrics and the plots are outside the model.
 */
module Validation {
  import opened Wrappers
  import Text
  import Processor

  /** The report's classifier. Unlike the processor's, its middle class includes 40 itself. */
  function ClassifyGt(ef: real): (c: string)
    ensures c == "Normal" <==> ef >= 50.0
    ensures c == "Ligeramente Reducida" <==> 40.0 <= ef < 50.0
    ensures c == "Reducida" <==> ef < 40.0
  {
    if ef >= 50.0 then "Normal"
    else if ef >= 40.0 then "Ligeramente Reducida"
    else "Reducida"
  }

  /** The class of the processor that a class name of the report stands for. */
  function Counterpart(c: string): Processor.Classification {
    if c == "Normal" then Processor.Preserved
    else if c == "Ligeramente Reducida" then Processor.MildlyReduced
    else Processor.Reduced
  }

  /** The two classifiers agree everywhere except at exactly 40. */
  lemma ClassifiersDisagreeOnlyAt40(ef: real)
    ensures Counterpart(ClassifyGt(ef)) == Processor.Classify(ef) <==> ef != 40.0
  {
  }

  /** A row of classification_results.csv, reduced to what the report reads. */
  datatype ModelRow = ModelRow(filename: string, efModel: real)

  /** A row of the expert's file list. */
  datatype GtRow = GtRow(fileName: string, ef: real)

  /** The merge key of a model row: its file name without the last extension. */
  function CleanName(row: ModelRow): string {
    Text.Root(row.filename)
  }

  /** The expert rows whose FileName equals `key`, in their order. */
  function Matches(key: string, gt: seq<GtRow>): (m: seq<GtRow>)
    ensures forall k :: 0 <= k < |m| ==> m[k] in gt && m[k].fileName == key
    ensures forall r :: r in gt && r.fileName == key ==> r in m
  {
    if gt == [] then []
    else if gt[0].fileName == key then [gt[0]] + Matches(key, gt[1..])
    else Matches(key, gt[1..])
  }

  /** The pairs of one model row with its matches. */
  function Paired(row: ModelRow, ms: seq<GtRow>): seq<(ModelRow, GtRow)> {
    seq(|ms|, k requires 0 <= k < |ms| => (row, ms[k]))
  }

  /** The inner merge on CleanName = FileName: every matching pair, in the order of the model rows. */
  function InnerJoin(model: seq<ModelRow>, gt: seq<GtRow>): seq<(ModelRow, GtRow)> {
    if model == [] then []
    else
      var row := model[0];
      Paired(row, Matches(CleanName(row), gt)) + InnerJoin(model[1..], gt)
  }

  lemma PairedMembership(row: ModelRow, ms: seq<GtRow>, m: ModelRow, g: GtRow)
    ensures (m, g) in Paired(row, ms) <==> m == row && g in ms
  {
    if m == row && g in ms {
      var k :| 0 <= k < |ms| && ms[k] == g;
      assert Paired(row, ms)[k] == (m, g);
    }
  }

  /** A pair is in the merge exactly when both rows are present and their keys agree. */
  lemma {:induction false} InnerJoinMembership(model: seq<ModelRow>, gt: seq<GtRow>, m: ModelRow, g: GtRow)
    ensures (m, g) in InnerJoin(model, gt) <==> m in model && g in gt && CleanName(m) == g.fileName
  {
    if model != [] {
      var row, rest := model[0], model[1..];
      InnerJoinMembership(rest, gt, m, g);
      var ms := Matches(CleanName(row), gt);
      assert InnerJoin(model, gt) == Paired(row, ms) + InnerJoin(rest, gt);
      PairedMembership(row, ms, m, g);
      assert g in ms <==> g in gt && g.fileName == CleanName(row);
      assert m in model <==> m == row || m in rest by {
        assert model == [row] + rest;
      }
    }
  }

  /** The merge is empty exactly when no model row's key names an expert row. */
  lemma InnerJoinEmpty(model: seq<ModelRow>, gt: seq<GtRow>)
    ensures InnerJoin(model, gt) == [] <==>
            forall i, j :: 0 <= i < |model| && 0 <= j < |gt| ==> CleanName(model[i]) != gt[j].fileName
  {
    if InnerJoin(model, gt) == [] {
      forall i, j | 0 <= i < |model| && 0 <= j < |gt|
        ensures CleanName(model[i]) != gt[j].fileName
      {
        InnerJoinMembership(model, gt, model[i], gt[j]);
      }
    } else {
      var p := InnerJoin(model, gt)[0];
      InnerJoinMembership(model, gt, p.0, p.1);
      var i :| 0 <= i < |model| && model[i] == p.0;
      var j :| 0 <= j < |gt| && gt[j] == p.1;
      assert CleanName(model[i]) == gt[j].fileName;
    }
  }

  /** What the report returns: the number of matched videos and, per match, the expert's and the model's class. */
  datatype Report = Report(count: nat, classes: seq<(string, string)>)

  /**
   * `generate_validation_report`: nothing when a CSV is missing or no video
   * matches; otherwise the count of matched rows and the confusion pairs.
   */
  function GenerateValidationReport(resultsExists: bool, gtExists: bool,
                                    model: seq<ModelRow>, gt: seq<GtRow>): (r: Option<Report>)
    ensures r.None? <==> !resultsExists || !gtExists || InnerJoin(model, gt) == []
    ensures r.Some? ==> r.value.count == |InnerJoin(model, gt)| == |r.value.classes| > 0
    ensures r.Some? ==> forall k :: 0 <= k < r.value.count ==>
              r.value.classes[k] == (ClassifyGt(InnerJoin(model, gt)[k].1.ef), ClassifyGt(InnerJoin(model, gt)[k].0.efModel))
  {
    if !resultsExists || !gtExists then None
    else
      var merged := InnerJoin(model, gt);
      if |merged| == 0 then None
      else
        Some(Report(|merged|, seq(|merged|, k requires 0 <= k < |merged| =>
                                    (ClassifyGt(merged[k].1.ef), ClassifyGt(merged[k].0.efModel)))))
  }
}
