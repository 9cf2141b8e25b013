/**
  The YOLOv8 postprocessing of the current server: normalise the output layout, decide from a
  sample whether the class scores are logits and squash them if so, decode every prediction row
  into a candidate detection, then run class-blind NMS.
 */
module YoloV8 {
  import opened Wrappers
  import opened Tensors
  import opened Geometry
  import opened Suppression

  /** The class table of the current server. */
  const ClassNames: map<nat, string> := map[
    0 := "shell", 1 := "hose", 2 := "nozzle", 3 := "pressure_gauge",
    4 := "safety_pin", 5 := "pin_seal", 6 := "service_tag"]

  const UnknownClassPrefix: string := "unknown_class_"

  /** Each prediction row starts with x_center, y_center, width, height. */
  const BoxColumns: nat := 4

  /** Rows inspected by the logit-or-probability heuristic. */
  const SampleRows: nat := 100

  /** The logistic function `1 / (1 + exp(-x))`, abstracted to what matters here: its values lie
      strictly between 0 and 1. */
  type Logistic = f: real -> real | forall x :: 0.0 < f(x) < 1.0 witness (x: real) => 0.5

  // ---------------------------------------------------------------------------------------------
  // Shape normalisation

  /** A 3-D output loses its batch axis and is transposed; a 2-D output is transposed when it has
      fewer rows than columns. `None` stands for the IndexError of `outputs[0]` on an empty batch. */
  function Normalize(outputs: Tensor): (r: Option<Matrix>)
    requires outputs.Valid()
    ensures r.Some? ==> r.value.Valid()
    ensures r.None? <==> outputs.Rank3? && |outputs.batch| == 0
  {
    match outputs
    case Rank3(batch) => if |batch| == 0 then None else Some(Transpose(batch[0]))
    case Rank2(m) => if m.height < m.width then Some(Transpose(m)) else Some(m)
  }

  /** `[1, features, predictions]` becomes one row per prediction holding its features. */
  lemma NormalizeRank3(batch: seq<Matrix>)
    requires Rank3(batch).Valid() && |batch| > 0
    ensures var r := Normalize(Rank3(batch)).value;
            && r.height == batch[0].width && r.width == batch[0].height
            && forall i, j :: 0 <= i < r.height && 0 <= j < r.width ==> r.cells[i][j] == batch[0].cells[j][i]
  {
  }

  /** A 2-D output ends with at least as many rows as columns, and is left alone if it already
      has them. */
  lemma NormalizeRank2(m: Matrix)
    requires m.Valid()
    ensures var r := Normalize(Rank2(m)).value;
            && r.width <= r.height
            && (m.width <= m.height ==> r == m)
            && (m.height < m.width ==> Transpose(r) == m)
  {
    if m.height < m.width {
      TransposeInvolution(m);
    }
  }

  /** `num_features - 4`. */
  function NumClasses(m: Matrix): int {
    m.width - BoxColumns
  }

  // ---------------------------------------------------------------------------------------------
  // Class count declared by the model (checked at load time, warning only)

  /** An ONNX dimension: a fixed integer or a symbolic name. */
  datatype Dim = Fixed(size: int) | Symbolic

  /** A dimension read as `dim if isinstance(dim, int) else None`, tested for truth. */
  predicate Known(d: Dim) {
    d.Fixed? && d.size != 0
  }

  /** The feature dimension is the smaller of dims 1 and 2; the class count is that minus 4. */
  function DeclaredClassCount(outputShape: seq<Dim>): (r: Option<int>)
    ensures r.Some? <==> |outputShape| >= 3 && Known(outputShape[1]) && Known(outputShape[2])
    ensures r.Some? ==>
      var d1, d2 := outputShape[1].size, outputShape[2].size;
      r.value + BoxColumns == (if d1 < d2 then d1 else d2)
  {
    if |outputShape| > 2 && Known(outputShape[1]) && Known(outputShape[2]) then
      var dim1, dim2 := outputShape[1].size, outputShape[2].size;
      Some(if dim1 < dim2 then dim1 - BoxColumns else dim2 - BoxColumns)
    else None
  }

  /** The load-time warning: the model's class count differs from the class table's size. */
  predicate ClassCountMismatch(outputShape: seq<Dim>, names: map<nat, string>) {
    var count := DeclaredClassCount(outputShape);
    count.Some? && count.value != |names|
  }

  /** With the 7-entry class table, a `[1, 11, 8400]` model (either dimension order) raises no
      warning, an 80-class `[1, 84, 8400]` model does, and a symbolic dimension skips the check. */
  lemma ClassCountMismatchExample()
    ensures !ClassCountMismatch([Fixed(1), Fixed(11), Fixed(8400)], ClassNames)
    ensures !ClassCountMismatch([Fixed(1), Fixed(8400), Fixed(11)], ClassNames)
    ensures ClassCountMismatch([Fixed(1), Fixed(84), Fixed(8400)], ClassNames)
    ensures !ClassCountMismatch([Fixed(1), Fixed(84), Symbolic], ClassNames)
  {
    assert |ClassNames| == 7;
  }

  /** For a 3-D output, the class count found at load time is the one postprocessing uses exactly
      when the output is laid out as [1, features, predictions] (or is square); for
      [1, predictions, features] the two disagree, since postprocessing always transposes. */
  lemma DeclaredClassCountAgreement(batch: seq<Matrix>)
    requires Rank3(batch).Valid() && |batch| > 0
    requires batch[0].height > 0 && batch[0].width > 0
    ensures var shape := [Fixed(|batch|), Fixed(batch[0].height), Fixed(batch[0].width)];
            DeclaredClassCount(shape) == Some(NumClasses(Normalize(Rank3(batch)).value))
            <==> batch[0].height <= batch[0].width
  {
  }

  // ---------------------------------------------------------------------------------------------
  // Logit-or-probability decision and calibration

  /** `outputs[:100, 4:]` covers rows 0 .. SampleSize(m) - 1. */
  function SampleSize(m: Matrix): nat {
    if m.height < SampleRows then m.height else SampleRows
  }

  /** The highest class score of each sampled row. */
  function SampleRowMaxes(m: Matrix): (maxes: seq<real>)
    requires m.Valid() && m.width > BoxColumns
    ensures |maxes| == SampleSize(m)
  {
    seq(SampleSize(m), i requires 0 <= i < SampleSize(m) => MaxOf(m.cells[i][BoxColumns..]))
  }

  /** `np.max(outputs[:100, 4:])`. */
  function SampleMax(m: Matrix): real
    requires m.Valid() && m.height > 0 && m.width > BoxColumns
  {
    MaxOf(SampleRowMaxes(m))
  }

  /** The sample maximum bounds every sampled score and is one of them. */
  lemma SampleMaxIsMax(m: Matrix)
    requires m.Valid() && m.height > 0 && m.width > BoxColumns
    ensures forall i, j :: 0 <= i < SampleSize(m) && BoxColumns <= j < m.width ==> m.cells[i][j] <= SampleMax(m)
    ensures exists i, j :: 0 <= i < SampleSize(m) && BoxColumns <= j < m.width && m.cells[i][j] == SampleMax(m)
  {
    forall i, j | 0 <= i < SampleSize(m) && BoxColumns <= j < m.width
      ensures m.cells[i][j] <= SampleMax(m)
    {
      SampleScoreBelowMax(m, i, j);
    }
    var maxes := SampleRowMaxes(m);
    var i :| 0 <= i < |maxes| && maxes[i] == SampleMax(m);
    var scores := m.cells[i][BoxColumns..];
    var k :| 0 <= k < |scores| && scores[k] == maxes[i];
    assert m.cells[i][BoxColumns + k] == SampleMax(m);
  }

  lemma SampleScoreBelowMax(m: Matrix, i: nat, j: nat)
    requires m.Valid() && m.height > 0 && m.width > BoxColumns
    requires i < SampleSize(m) && BoxColumns <= j < m.width
    ensures m.cells[i][j] <= SampleMax(m)
  {
    var maxes := SampleRowMaxes(m);
    assert m.cells[i][BoxColumns..][j - BoxColumns] == m.cells[i][j];
    assert m.cells[i][j] <= maxes[i];
  }

  /** `needs_sigmoid = max_score > 1.0 or max_score < 0.0`. */
  predicate NeedsLogistic(m: Matrix)
    requires m.Valid() && m.height > 0 && m.width > BoxColumns
  {
    var maxScore := SampleMax(m);
    maxScore > 1.0 || maxScore < 0.0
  }

  /** The scores are treated as logits iff some sampled score exceeds 1 or every sampled score is
      negative. */
  lemma NeedsLogisticIff(m: Matrix)
    requires m.Valid() && m.height > 0 && m.width > BoxColumns
    ensures NeedsLogistic(m) <==>
      || (exists i, j :: 0 <= i < SampleSize(m) && BoxColumns <= j < m.width && m.cells[i][j] > 1.0)
      || (forall i, j :: 0 <= i < SampleSize(m) && BoxColumns <= j < m.width ==> m.cells[i][j] < 0.0)
  {
    SampleMaxIsMax(m);
    var r := SampleMax(m);
    var i0, j0 :| 0 <= i0 < SampleSize(m) && BoxColumns <= j0 < m.width && m.cells[i0][j0] == r;
  }

  /** `outputs[:, 4:] = sigmoid(outputs[:, 4:])` as a value: columns 0-3 are kept, every score of
      every row (not just the sampled ones) is squashed. */
  function Calibrate(m: Matrix, sigmoid: Logistic): (c: Matrix)
    requires m.Valid()
    ensures c.Valid() && c.height == m.height && c.width == m.width
    ensures forall i, j :: 0 <= i < m.height && 0 <= j < m.width ==>
              c.cells[i][j] == if j < BoxColumns then m.cells[i][j] else sigmoid(m.cells[i][j])
  {
    Matrix(m.height, m.width,
      seq(m.height, i requires 0 <= i < m.height =>
        seq(m.width, j requires 0 <= j < m.width =>
          if j < BoxColumns then m.cells[i][j] else sigmoid(m.cells[i][j]))))
  }

  /** The scores the decoder reads: calibrated when the heuristic asks for it, else untouched. */
  function Scored(m: Matrix, sigmoid: Logistic): (c: Matrix)
    requires m.Valid() && m.height > 0 && m.width > BoxColumns
    ensures c.Valid() && c.height == m.height && c.width == m.width
  {
    if NeedsLogistic(m) then Calibrate(m, sigmoid) else m
  }

  /** Scores that already look like probabilities pass through unchanged. */
  lemma ProbabilitiesUntouched(m: Matrix, sigmoid: Logistic)
    requires m.Valid() && m.height > 0 && m.width > BoxColumns
    requires forall i, j :: 0 <= i < m.height && BoxColumns <= j < m.width ==> 0.0 <= m.cells[i][j] <= 1.0
    ensures Scored(m, sigmoid) == m
  {
    NeedsLogisticIff(m);
    assert 0.0 <= m.cells[0][BoxColumns];
  }

  /** After calibration every score lies in (0, 1), so the heuristic never fires a second time:
      calibrating is idempotent. */
  lemma ScoredIdempotent(m: Matrix, sigmoid: Logistic)
    requires m.Valid() && m.height > 0 && m.width > BoxColumns
    ensures Scored(Scored(m, sigmoid), sigmoid) == Scored(m, sigmoid)
    ensures NeedsLogistic(m) ==>
      forall i, j :: 0 <= i < m.height && BoxColumns <= j < m.width ==>
        0.0 < Scored(m, sigmoid).cells[i][j] < 1.0
  {
    if NeedsLogistic(m) {
      var c := Calibrate(m, sigmoid);
      NeedsLogisticIff(c);
      assert c.cells[0][BoxColumns] > 0.0;
    }
  }

  // ---------------------------------------------------------------------------------------------
  // Per-row decoding

  /** One prediction row: the first index of the highest score is the class, that score is the
      confidence; below `minConfidence` the row yields nothing, else a clipped image-space box. */
  function Candidate(row: seq<real>, minConfidence: real, imgWidth: nat, imgHeight: nat,
                     modelSize: nat, names: map<nat, string>): (r: Option<Detection>)
    requires |row| > BoxColumns && modelSize > 0
    ensures r.Some? ==> r.value.confidence >= minConfidence && InImage(r.value.bbox, imgWidth, imgHeight)
  {
    var scores := row[BoxColumns..];
    var classId := ArgMax(scores);
    var confidence := scores[classId];
    if confidence < minConfidence then None
    else
      Some(Detection(ClassName(names, UnknownClassPrefix, classId), confidence,
                     ImageBox(row[0], row[1], row[2], row[3], imgWidth, imgHeight, modelSize)))
  }

  /** A row yields a detection iff one of its class scores reaches the threshold; the detection's
      confidence is then the row's highest score, and its class is the first class holding it. */
  lemma CandidateMeaning(row: seq<real>, minConfidence: real, imgWidth: nat, imgHeight: nat,
                         modelSize: nat, names: map<nat, string>)
    requires |row| > BoxColumns && modelSize > 0
    ensures var r := Candidate(row, minConfidence, imgWidth, imgHeight, modelSize, names);
            && (r.Some? <==> exists j :: BoxColumns <= j < |row| && row[j] >= minConfidence)
            && (r.Some? ==>
                  && (forall j :: BoxColumns <= j < |row| ==> row[j] <= r.value.confidence)
                  && exists k :: BoxColumns <= k < |row|
                       && row[k] == r.value.confidence
                       && r.value.className == ClassName(names, UnknownClassPrefix, k - BoxColumns)
                       && (forall j :: BoxColumns <= j < k ==> row[j] < row[k]))
  {
    var scores := row[BoxColumns..];
    var k := ArgMax(scores);
    assert forall j :: BoxColumns <= j < |row| ==> row[j] == scores[j - BoxColumns];
    assert row[BoxColumns + k] == scores[k];
  }

  /** Rows that are all 4 box values plus at least one class score. */
  predicate ScoredRows(rows: seq<seq<real>>) {
    forall i :: 0 <= i < |rows| ==> |rows[i]| > BoxColumns
  }

  /** The loop over the prediction rows, collecting the candidates in row order. */
  function Decode(rows: seq<seq<real>>, minConfidence: real, imgWidth: nat, imgHeight: nat,
                  modelSize: nat, names: map<nat, string>): (r: seq<Detection>)
    requires ScoredRows(rows) && modelSize > 0
    ensures |r| <= |rows|
    ensures forall d :: d in r ==> d.confidence >= minConfidence && InImage(d.bbox, imgWidth, imgHeight)
  {
    if |rows| == 0 then []
    else
      var prefix := Decode(rows[..|rows| - 1], minConfidence, imgWidth, imgHeight, modelSize, names);
      match Candidate(rows[|rows| - 1], minConfidence, imgWidth, imgHeight, modelSize, names)
      case None => prefix
      case Some(d) => prefix + [d]
  }

  /** Every decoded confidence is one of the class scores of some row. */
  lemma {:induction false} DecodeConfidences(rows: seq<seq<real>>, minConfidence: real, imgWidth: nat,
                                             imgHeight: nat, modelSize: nat, names: map<nat, string>)
    requires ScoredRows(rows) && modelSize > 0
    ensures forall d :: d in Decode(rows, minConfidence, imgWidth, imgHeight, modelSize, names) ==>
              exists i, j :: 0 <= i < |rows| && BoxColumns <= j < |rows[i]| && rows[i][j] == d.confidence
  {
    if |rows| > 0 {
      var init := rows[..|rows| - 1];
      DecodeConfidences(init, minConfidence, imgWidth, imgHeight, modelSize, names);
      var last := rows[|rows| - 1];
      CandidateMeaning(last, minConfidence, imgWidth, imgHeight, modelSize, names);
      forall d | d in Decode(rows, minConfidence, imgWidth, imgHeight, modelSize, names)
        ensures exists i, j :: 0 <= i < |rows| && BoxColumns <= j < |rows[i]| && rows[i][j] == d.confidence
      {
        if d in Decode(init, minConfidence, imgWidth, imgHeight, modelSize, names) {
          var i, j :| 0 <= i < |init| && BoxColumns <= j < |init[i]| && init[i][j] == d.confidence;
          assert rows[i] == init[i];
        } else {
          var k :| BoxColumns <= k < |last| && last[k] == d.confidence;
          assert rows[|rows| - 1][k] == d.confidence;
        }
      }
    }
  }

  // ---------------------------------------------------------------------------------------------
  // The whole of `postprocess_detections`

  function PostprocessSpec(outputs: Tensor, minConfidence: real, imgWidth: nat, imgHeight: nat,
                           inputShape: seq<nat>, names: map<nat, string>, sigmoid: Logistic)
    : (r: Result<seq<Detection>>)
    requires outputs.Valid() && ModelSizeNonZero(inputShape)
    ensures r.Ok? ==> Normalize(outputs).Some? && |r.value| <= Normalize(outputs).value.height
  {
    match Normalize(outputs)
    case None => Err(IndexError)
    case Some(m) =>
      // `np.max` over an empty sample raises before anything else happens.
      if m.height == 0 || m.width <= BoxColumns then Err(ValueError)
      else
        var scored := Scored(m, sigmoid);
        match ModelSize(inputShape)
        case Err(e) => Err(e)
        case Ok(size) =>
          var candidates := Decode(scored.cells, minConfidence, imgWidth, imgHeight, size, names);
          Ok(if |candidates| > 0 then Nms(candidates, DefaultIouThreshold) else candidates)
  }

  /** The output shapes that make postprocessing raise, read off the raw tensor: an empty batch,
      or fewer than 5 features (no class column) once normalised. */
  predicate ShapeRejected(outputs: Tensor)
    requires outputs.Valid()
  {
    match outputs
    case Rank3(batch) => |batch| == 0 || batch[0].width == 0 || batch[0].height <= BoxColumns
    case Rank2(m) => m.height <= BoxColumns || m.width <= BoxColumns
  }

  lemma PostprocessFailsIff(outputs: Tensor, minConfidence: real, imgWidth: nat, imgHeight: nat,
                            inputShape: seq<nat>, names: map<nat, string>, sigmoid: Logistic)
    requires outputs.Valid() && ModelSizeNonZero(inputShape)
    ensures PostprocessSpec(outputs, minConfidence, imgWidth, imgHeight, inputShape, names, sigmoid).Err?
            <==> ShapeRejected(outputs) || |inputShape| == 1 || |inputShape| == 2
  {
  }

  /** `postprocess_detections` handed `min_confidence=None`: layout, calibration and the model size
      behave as with a number, and the comparison of the first row's confidence with `None` raises
      TypeError. A layout that gets that far has at least one row, so the call never returns. */
  function PostprocessNullThreshold(outputs: Tensor, inputShape: seq<nat>): (r: Result<seq<Detection>>)
    requires outputs.Valid() && ModelSizeNonZero(inputShape)
    ensures r.Err?
    ensures r.Err? && r.error == TypeError <==> !ShapeRejected(outputs) && |inputShape| != 1 && |inputShape| != 2
  {
    match Normalize(outputs)
    case None => Err(IndexError)
    case Some(m) =>
      if m.height == 0 || m.width <= BoxColumns then Err(ValueError)
      else
        match ModelSize(inputShape)
        case Err(e) => Err(e)
        case Ok(_) => Err(TypeError)
  }

  /** A `None` threshold raises exactly the error a numeric one would have raised, and TypeError
      exactly where a numeric threshold would have produced a result. */
  lemma NullThresholdRaises(outputs: Tensor, minConfidence: real, imgWidth: nat, imgHeight: nat,
                            inputShape: seq<nat>, names: map<nat, string>, sigmoid: Logistic)
    requires outputs.Valid() && ModelSizeNonZero(inputShape)
    ensures var r := PostprocessSpec(outputs, minConfidence, imgWidth, imgHeight, inputShape, names, sigmoid);
            && (r.Err? ==> PostprocessNullThreshold(outputs, inputShape) == r)
            && (r.Ok? <==> PostprocessNullThreshold(outputs, inputShape) == Err(TypeError))
  {
  }

  /** Everything a successful call returns passed the confidence filter, lies inside the image,
      comes in non-increasing confidence order, and no two entries overlap by IoU 0.5 or more,
      whatever their classes. At most one detection per prediction row. */
  lemma PostprocessSound(outputs: Tensor, minConfidence: real, imgWidth: nat, imgHeight: nat,
                         inputShape: seq<nat>, names: map<nat, string>, sigmoid: Logistic)
    requires outputs.Valid() && ModelSizeNonZero(inputShape)
    ensures var r := PostprocessSpec(outputs, minConfidence, imgWidth, imgHeight, inputShape, names, sigmoid);
            r.Ok? ==>
              && |r.value| <= Normalize(outputs).value.height
              && (forall d :: d in r.value ==> d.confidence >= minConfidence && InImage(d.bbox, imgWidth, imgHeight))
              && Descending(r.value)
              && (forall i, j :: 0 <= i < j < |r.value| ==> IoU(r.value[i].bbox, r.value[j].bbox) < DefaultIouThreshold)
  {
    var r := PostprocessSpec(outputs, minConfidence, imgWidth, imgHeight, inputShape, names, sigmoid);
    if r.Ok? {
      var m := Normalize(outputs).value;
      var scored := Scored(m, sigmoid);
      var size := ModelSize(inputShape).value;
      var candidates := Decode(scored.cells, minConfidence, imgWidth, imgHeight, size, names);
      if |candidates| > 0 {
        NmsDescending(candidates, DefaultIouThreshold);
        NmsSeparated(candidates, DefaultIouThreshold);
      }
    }
  }

  /** Every class score of every row lies strictly between 0 and 1. */
  predicate ProbabilityScores(rows: seq<seq<real>>) {
    forall i, j :: 0 <= i < |rows| && BoxColumns <= j < |rows[i]| ==> 0.0 < rows[i][j] < 1.0
  }

  /** Rows holding probabilities decode to detections whose confidences are probabilities. */
  lemma ProbabilityCandidates(rows: seq<seq<real>>, minConfidence: real, imgWidth: nat, imgHeight: nat,
                              modelSize: nat, names: map<nat, string>)
    requires ScoredRows(rows) && modelSize > 0 && ProbabilityScores(rows)
    ensures forall d :: d in Decode(rows, minConfidence, imgWidth, imgHeight, modelSize, names) ==>
              0.0 < d.confidence < 1.0
  {
    DecodeConfidences(rows, minConfidence, imgWidth, imgHeight, modelSize, names);
    forall d | d in Decode(rows, minConfidence, imgWidth, imgHeight, modelSize, names)
      ensures 0.0 < d.confidence < 1.0
    {
      var i, j :| 0 <= i < |rows| && BoxColumns <= j < |rows[i]| && rows[i][j] == d.confidence;
    }
  }

  /** Candidates decoded from calibrated scores have probabilities as confidences. */
  lemma CalibratedCandidates(m: Matrix, minConfidence: real, imgWidth: nat, imgHeight: nat,
                             modelSize: nat, names: map<nat, string>, sigmoid: Logistic)
    requires m.Valid() && m.height > 0 && m.width > BoxColumns && modelSize > 0
    requires NeedsLogistic(m)
    ensures var scored := Scored(m, sigmoid);
            ScoredRows(scored.cells) &&
            forall d :: d in Decode(scored.cells, minConfidence, imgWidth, imgHeight, modelSize, names) ==>
              0.0 < d.confidence < 1.0
  {
    var scored := Scored(m, sigmoid);
    ScoredIdempotent(m, sigmoid);
    assert ProbabilityScores(scored.cells);
    ProbabilityCandidates(scored.cells, minConfidence, imgWidth, imgHeight, modelSize, names);
  }

  /** When the scores were judged to be logits, every returned confidence is a probability. */
  lemma PostprocessCalibratedConfidences(outputs: Tensor, minConfidence: real, imgWidth: nat, imgHeight: nat,
                                         inputShape: seq<nat>, names: map<nat, string>, sigmoid: Logistic)
    requires outputs.Valid() && ModelSizeNonZero(inputShape)
    requires !ShapeRejected(outputs) && NeedsLogistic(Normalize(outputs).value)
    ensures var r := PostprocessSpec(outputs, minConfidence, imgWidth, imgHeight, inputShape, names, sigmoid);
            r.Ok? ==> forall d :: d in r.value ==> 0.0 < d.confidence < 1.0
  {
    if ModelSize(inputShape).Ok? {
      var m := Normalize(outputs).value;
      var size := ModelSize(inputShape).value;
      var candidates := Decode(Scored(m, sigmoid).cells, minConfidence, imgWidth, imgHeight, size, names);
      PostprocessSpecOk(outputs, minConfidence, imgWidth, imgHeight, inputShape, names, sigmoid);
      CalibratedCandidates(m, minConfidence, imgWidth, imgHeight, size, names, sigmoid);
      if |candidates| > 0 {
        NmsDescending(candidates, DefaultIouThreshold);
      }
    }
  }

  /** A [1, 5, 1] output holding one prediction, centre (320, 320), size 100 x 200, class 0
      score 0.9: the score is already a probability, and a 640 x 640 image with a 640 model input
      yields one "shell" at [270, 220, 370, 420]. */
  lemma PostprocessExample(sigmoid: Logistic)
    ensures var column := Matrix(5, 1, [[320.0], [320.0], [100.0], [200.0], [0.9]]);
            PostprocessSpec(Rank3([column]), 0.5, 640, 640, [1, 3, 640, 640], ClassNames, sigmoid)
            == Ok([Detection("shell", 0.9, Box(270.0, 220.0, 370.0, 420.0))])
  {
    ExampleLayout(sigmoid);
    ExampleDecode();
    PostprocessOneRow(Rank3([Matrix(5, 1, [[320.0], [320.0], [100.0], [200.0], [0.9]])]),
                      0.5, 640, 640, [1, 3, 640, 640], ClassNames, sigmoid,
                      Matrix(1, 5, [[320.0, 320.0, 100.0, 200.0, 0.9]]),
                      Detection("shell", 0.9, Box(270.0, 220.0, 370.0, 420.0)));
  }

  /** An output that normalises to a matrix of probabilities whose rows decode to the single
      detection `d` yields exactly `d`. */
  lemma PostprocessOneRow(outputs: Tensor, minConfidence: real, imgWidth: nat, imgHeight: nat,
                          inputShape: seq<nat>, names: map<nat, string>, sigmoid: Logistic,
                          m: Matrix, d: Detection)
    requires outputs.Valid() && ModelSizeNonZero(inputShape) && ModelSize(inputShape).Ok?
    requires Normalize(outputs) == Some(m) && m.height > 0 && m.width > BoxColumns
    requires Scored(m, sigmoid) == m
    requires Decode(m.cells, minConfidence, imgWidth, imgHeight, ModelSize(inputShape).value, names) == [d]
    ensures PostprocessSpec(outputs, minConfidence, imgWidth, imgHeight, inputShape, names, sigmoid) == Ok([d])
  {
    NmsSingle(d, DefaultIouThreshold);
    PostprocessSpecOk(outputs, minConfidence, imgWidth, imgHeight, inputShape, names, sigmoid);
  }

  /** The example output becomes one row of 5 values that the heuristic leaves alone. */
  lemma ExampleLayout(sigmoid: Logistic)
    ensures var column := Matrix(5, 1, [[320.0], [320.0], [100.0], [200.0], [0.9]]);
            var m := Matrix(1, 5, [[320.0, 320.0, 100.0, 200.0, 0.9]]);
            Normalize(Rank3([column])) == Some(m) && Scored(m, sigmoid) == m
  {
    var column := Matrix(5, 1, [[320.0], [320.0], [100.0], [200.0], [0.9]]);
    var t := Normalize(Rank3([column])).value;
    var row := [320.0, 320.0, 100.0, 200.0, 0.9];
    NormalizeRank3([column]);
    assert t.cells[0] == row by {
      forall j | 0 <= j < 5
        ensures t.cells[0][j] == row[j]
      {
      }
    }
    assert t.cells == [row];
    NeedsLogisticIff(t);
  }

  /** The example row decodes to one detection. */
  lemma ExampleDecode()
    ensures Decode([[320.0, 320.0, 100.0, 200.0, 0.9]], 0.5, 640, 640, 640, ClassNames)
            == [Detection("shell", 0.9, Box(270.0, 220.0, 370.0, 420.0))]
  {
    var row := [320.0, 320.0, 100.0, 200.0, 0.9];
    ImageBoxExample();
    var d := Detection("shell", 0.9, Box(270.0, 220.0, 370.0, 420.0));
    assert Candidate(row, 0.5, 640, 640, 640, ClassNames) == Some(d);
    var rows: seq<seq<real>> := [row];
    assert rows[..0] == [];
  }

  // ---------------------------------------------------------------------------------------------
  // The imperative version

  /** The in-place `outputs[:, 4:] = sigmoid(outputs[:, 4:])`. */
  method ApplyLogistic(a: array2<real>, sigmoid: Logistic)
    modifies a
    ensures forall i, j :: 0 <= i < a.Length0 && 0 <= j < a.Length1 ==>
              a[i, j] == if j < BoxColumns then old(a[i, j]) else sigmoid(old(a[i, j]))
  {
    for i := 0 to a.Length0
      invariant forall p, q :: 0 <= p < a.Length0 && 0 <= q < a.Length1 ==>
                  a[p, q] == if p < i && BoxColumns <= q then sigmoid(old(a[p, q])) else old(a[p, q])
    {
      for j := 0 to a.Length1
        invariant forall p, q :: 0 <= p < a.Length0 && 0 <= q < a.Length1 ==>
                    a[p, q] == if (p < i || (p == i && q < j)) && BoxColumns <= q
                               then sigmoid(old(a[p, q])) else old(a[p, q])
      {
        if BoxColumns <= j {
          a[i, j] := sigmoid(a[i, j]);
        }
      }
    }
  }

  /** The normalised output copied into a fresh array, then calibrated in place when the
      sampled scores look like logits. */
  method ScoresArray(m: Matrix, sigmoid: Logistic) returns (a: array2<real>)
    requires m.Valid() && m.height > 0 && m.width > BoxColumns
    ensures fresh(a)
    ensures Rows(a) == Scored(m, sigmoid).cells
  {
    a := new real[m.height, m.width]((i, j) requires 0 <= i < m.height && 0 <= j < m.width => m.cells[i][j]);
    var needsSigmoid := NeedsLogistic(m);
    ghost var scored := Scored(m, sigmoid);
    if needsSigmoid {
      label raw:
      ApplyLogistic(a, sigmoid);
      ghost var c := Calibrate(m, sigmoid);
      assert scored == c;
      forall i, j | 0 <= i < m.height && 0 <= j < m.width
        ensures a[i, j] == scored.cells[i][j]
      {
        assert old@raw(a[i, j]) == m.cells[i][j];
      }
    } else {
      assert scored == m;
    }
    forall i | 0 <= i < m.height
      ensures Rows(a)[i] == scored.cells[i]
    {
    }
  }

  /** `postprocess_detections(outputs, min_confidence, img_width, img_height)`, with the model's
      input shape and class table passed in. */
  method Postprocess(outputs: Tensor, minConfidence: real, imgWidth: nat, imgHeight: nat,
                     inputShape: seq<nat>, names: map<nat, string>, sigmoid: Logistic)
    returns (r: Result<seq<Detection>>)
    requires outputs.Valid() && ModelSizeNonZero(inputShape)
    ensures r == PostprocessSpec(outputs, minConfidence, imgWidth, imgHeight, inputShape, names, sigmoid)
  {
    var normalized := Normalize(outputs);
    if normalized.None? {
      return Err(IndexError);
    }
    var m := normalized.value;
    if m.height == 0 || m.width <= BoxColumns {
      return Err(ValueError);
    }
    var a := ScoresArray(m, sigmoid);
    var modelSize := ModelSize(inputShape);
    if modelSize.Err? {
      return Err(modelSize.error);
    }
    var detections := DecodeRows(a, minConfidence, imgWidth, imgHeight, modelSize.value, names);
    if |detections| > 0 {
      detections := ApplyNms(detections, DefaultIouThreshold);
    }
    PostprocessSpecOk(outputs, minConfidence, imgWidth, imgHeight, inputShape, names, sigmoid);
    return Ok(detections);
  }

  /** The rows of an array, as values. */
  function Rows(a: array2<real>): (rows: seq<seq<real>>)
    reads a
    ensures |rows| == a.Length0
    ensures forall i :: 0 <= i < a.Length0 ==> |rows[i]| == a.Length1
  {
    seq(a.Length0, i requires 0 <= i < a.Length0 reads a =>
      seq(a.Length1, j requires 0 <= j < a.Length1 reads a => a[i, j]))
  }

  /** `for detection in outputs`, appending each row's candidate detection. */
  method DecodeRows(a: array2<real>, minConfidence: real, imgWidth: nat, imgHeight: nat,
                    modelSize: nat, names: map<nat, string>)
    returns (detections: seq<Detection>)
    requires a.Length1 > BoxColumns && modelSize > 0
    ensures ScoredRows(Rows(a))
    ensures detections == Decode(Rows(a), minConfidence, imgWidth, imgHeight, modelSize, names)
  {
    ghost var rows := Rows(a);
    detections := [];
    for i := 0 to a.Length0
      invariant ScoredRows(rows[..i])
      invariant detections == Decode(rows[..i], minConfidence, imgWidth, imgHeight, modelSize, names)
    {
      var row := seq(a.Length1, j requires 0 <= j < a.Length1 reads a => a[i, j]);
      assert row == rows[i];
      ghost var prefix := rows[..i + 1];
      assert prefix[..i] == rows[..i] && prefix[i] == row;
      var candidate := Candidate(row, minConfidence, imgWidth, imgHeight, modelSize, names);
      if candidate.Some? {
        detections := detections + [candidate.value];
      }
    }
    assert rows[..a.Length0] == rows;
  }

  /** The successful path of `PostprocessSpec`, unfolded once. */
  lemma PostprocessSpecOk(outputs: Tensor, minConfidence: real, imgWidth: nat, imgHeight: nat,
                          inputShape: seq<nat>, names: map<nat, string>, sigmoid: Logistic)
    requires outputs.Valid() && ModelSizeNonZero(inputShape)
    requires Normalize(outputs).Some?
    requires Normalize(outputs).value.height > 0 && Normalize(outputs).value.width > BoxColumns
    requires ModelSize(inputShape).Ok?
    ensures var m := Normalize(outputs).value;
            var candidates := Decode(Scored(m, sigmoid).cells, minConfidence, imgWidth, imgHeight,
                                     ModelSize(inputShape).value, names);
            PostprocessSpec(outputs, minConfidence, imgWidth, imgHeight, inputShape, names, sigmoid)
            == Ok(if |candidates| > 0 then Nms(candidates, DefaultIouThreshold) else candidates)
  {
  }
}
