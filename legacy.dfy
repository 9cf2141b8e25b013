/**
  The postprocessing of the older server: confidence is objectness times the best class score,
  a 3-D output is transposed by a shape comparison, there is no calibration and no NMS. Every
  prediction row that reaches the threshold becomes one detection, in row order.
 */
module Legacy {
  import opened Wrappers
  import opened Tensors
  import opened Geometry

  /** The class table of the older server. */
  const ClassNames: map<nat, string> := map[
    0 := "shell", 1 := "hose", 2 := "nozzle", 3 := "gauge", 4 := "pin", 5 := "seal", 6 := "tag"]

  const UnknownClassPrefix: string := "class_"

  /** x_center, y_center, width, height. */
  const BoxColumns: nat := 4

  // ---------------------------------------------------------------------------------------------
  // Output layout

  /** The layout rule as written: a 3-D output is transposed when `shape[1] > shape[2]`, else only
      the batch axis is dropped; a 2-D output is iterated as it is. `None` is the IndexError of
      `outputs[0]` on an empty batch. */
  function NormalizeAsWritten(outputs: Tensor): (r: Option<Matrix>)
    requires outputs.Valid()
    ensures r.Some? ==> r.value.Valid()
    ensures r.None? <==> outputs.Rank3? && |outputs.batch| == 0
    ensures outputs.Rank2? ==> r == Some(outputs.matrix)
  {
    match outputs
    case Rank3(batch) =>
      if |batch| == 0 then None
      else if batch[0].height > batch[0].width then Some(Transpose(batch[0]))
      else Some(batch[0])
    case Rank2(m) => Some(m)
  }

  /** As written, a 3-D output always ends up with the SHORTER axis as its rows: the rows are
      the features and each "prediction" holds one value per anchor, for either layout. */
  lemma NormalizeAsWrittenRowsShorter(batch: seq<Matrix>)
    requires Rank3(batch).Valid() && |batch| > 0
    ensures var r := NormalizeAsWritten(Rank3(batch)).value;
            && r.height <= r.width
            && r.height == Min(batch[0].height as real, batch[0].width as real) as int
            && (batch[0].height <= batch[0].width ==> r == batch[0])
            && (batch[0].height > batch[0].width ==> Transpose(r) == batch[0])
  {
    if batch[0].height > batch[0].width {
      TransposeInvolution(batch[0]);
    }
  }

  /** A [1, 5, 8] output (4 box values and 1 class score for each of 8 predictions) is read as
      5 rows of 8 values instead of 8 rows of 5. */
  lemma NormalizeAsWrittenExample(batch: seq<Matrix>)
    requires Rank3(batch).Valid() && |batch| == 1 && batch[0].height == 5 && batch[0].width == 8
    ensures NormalizeAsWritten(Rank3(batch)).value.height == 5
    ensures NormalizeAsWritten(Rank3(batch)).value.width == 8
  {
  }

  /** The evidently intended rule, "transpose if needed to get [num_detections, features]": a 3-D
      output is transposed when `shape[1] < shape[2]`. A 2-D output is still iterated as is. */
  function Normalize(outputs: Tensor): (r: Option<Matrix>)
    requires outputs.Valid()
    ensures r.Some? ==> r.value.Valid()
    ensures r.None? <==> outputs.Rank3? && |outputs.batch| == 0
    ensures outputs.Rank2? ==> r == Some(outputs.matrix)
  {
    match outputs
    case Rank3(batch) =>
      if |batch| == 0 then None
      else if batch[0].height < batch[0].width then Some(Transpose(batch[0]))
      else Some(batch[0])
    case Rank2(m) => Some(m)
  }

  /** With the corrected rule a 3-D output has the LONGER axis as its rows, so an anchor-major
      [1, features, predictions] output yields one row per prediction; the data are kept. */
  lemma NormalizeRowsLonger(batch: seq<Matrix>)
    requires Rank3(batch).Valid() && |batch| > 0
    ensures var r := Normalize(Rank3(batch)).value;
            && r.height >= r.width
            && (batch[0].height < batch[0].width ==> Transpose(r) == batch[0])
            && (batch[0].height >= batch[0].width ==> r == batch[0])
  {
    if batch[0].height < batch[0].width {
      TransposeInvolution(batch[0]);
    }
  }

  /** On the example shape the corrected rule yields 8 rows of 5 values. */
  lemma NormalizeExample(batch: seq<Matrix>)
    requires Rank3(batch).Valid() && |batch| == 1 && batch[0].height == 5 && batch[0].width == 8
    ensures Normalize(Rank3(batch)).value.height == 8
    ensures Normalize(Rank3(batch)).value.width == 5
  {
  }

  // ---------------------------------------------------------------------------------------------
  // One prediction row

  /** `detection[4] if len(detection) > 4 else 1.0`. */
  function Objectness(row: seq<real>): real {
    if |row| > BoxColumns then row[BoxColumns] else 1.0
  }

  /** `detection[5:] if len(detection) > 5 else detection[4:]`. */
  function ClassScores(row: seq<real>): (scores: seq<real>)
    requires |row| >= BoxColumns
    ensures |row| > BoxColumns + 1 ==> scores == row[BoxColumns + 1..]
    ensures |row| <= BoxColumns + 1 ==> scores == row[BoxColumns..]
  {
    if |row| > BoxColumns + 1 then row[BoxColumns + 1..] else row[BoxColumns..]
  }

  /** A row raises unless it has at least 5 values: fewer than 4 fail the unpacking of the box,
      exactly 4 leave `np.argmax` an empty array. */
  predicate RowDecodable(row: seq<real>) {
    |row| > BoxColumns
  }

  /** `objectness * class_confidence` for the best class score. */
  function RowConfidence(row: seq<real>): real
    requires RowDecodable(row)
  {
    var scores := ClassScores(row);
    Objectness(row) * scores[ArgMax(scores)]
  }

  /** The combined confidence is the objectness times the highest class score; a row of exactly
      5 values uses its fifth value twice, as objectness and as the only class score. */
  lemma RowConfidenceMeaning(row: seq<real>)
    requires RowDecodable(row)
    ensures RowConfidence(row) == Objectness(row) * MaxOf(ClassScores(row))
    ensures Objectness(row) == row[BoxColumns]
    ensures |row| == BoxColumns + 1 ==> RowConfidence(row) == row[BoxColumns] * row[BoxColumns]
  {
    var scores := ClassScores(row);
    var k := ArgMax(scores);
    var top := MaxOf(scores);
    assert scores[k] == top by {
      var t :| 0 <= t < |scores| && scores[t] == top;
    }
  }

  /** One loop iteration: an error, nothing below `minConfidence`, or the row's detection. */
  function Candidate(row: seq<real>, minConfidence: real, imgWidth: nat, imgHeight: nat,
                     modelSize: nat, names: map<nat, string>): (r: Result<Option<Detection>>)
    requires modelSize > 0
    ensures r.Err? <==> !RowDecodable(row)
    ensures r.Err? ==> r.error == ValueError
    ensures r.Ok? ==> (r.value.Some? <==> RowConfidence(row) >= minConfidence)
    ensures r.Ok? && r.value.Some? ==>
              && r.value.value.confidence == RowConfidence(row)
              && InImage(r.value.value.bbox, imgWidth, imgHeight)
  {
    if !RowDecodable(row) then Err(ValueError)
    else
      var scores := ClassScores(row);
      var classId := ArgMax(scores);
      var confidence := Objectness(row) * scores[classId];
      if confidence < minConfidence then Ok(None)
      else
        Ok(Some(Detection(ClassName(names, UnknownClassPrefix, classId), confidence,
                          ImageBox(row[0], row[1], row[2], row[3], imgWidth, imgHeight, modelSize))))
  }

  /** The class is the first index of the highest class score, named through the table or
      `"class_<id>"`; for a row of 6 or more values, class 0 is the sixth value. */
  lemma CandidateClass(row: seq<real>, minConfidence: real, imgWidth: nat, imgHeight: nat,
                       modelSize: nat, names: map<nat, string>)
    requires modelSize > 0 && RowDecodable(row)
    ensures var r := Candidate(row, minConfidence, imgWidth, imgHeight, modelSize, names);
            var scores := ClassScores(row);
            r.Ok? && r.value.Some? ==>
              exists k :: 0 <= k < |scores|
                && (forall j :: 0 <= j < |scores| ==> scores[j] <= scores[k])
                && (forall j :: 0 <= j < k ==> scores[j] < scores[k])
                && r.value.value.className == ClassName(names, UnknownClassPrefix, k)
  {
    var k := ArgMax(ClassScores(row));
  }

  /** A 5-value row with fifth value 0.5 has confidence 0.25: it passes a 0.2 threshold and
      fails a 0.3 one. */
  lemma CandidateExample()
    ensures var row := [320.0, 320.0, 100.0, 200.0, 0.5];
            && Candidate(row, 0.2, 640, 640, 640, ClassNames)
               == Ok(Some(Detection("shell", 0.25, Box(270.0, 220.0, 370.0, 420.0))))
            && Candidate(row, 0.3, 640, 640, 640, ClassNames) == Ok(None)
  {
    ImageBoxExample();
  }

  // ---------------------------------------------------------------------------------------------
  // The loop over the rows

  /** The rows in order, stopping at the first row that raises. */
  function Decode(rows: seq<seq<real>>, minConfidence: real, imgWidth: nat, imgHeight: nat,
                  modelSize: nat, names: map<nat, string>): (r: Result<seq<Detection>>)
    requires modelSize > 0
    ensures r.Ok? ==> |r.value| <= |rows|
    ensures r.Err? ==> r.error == ValueError
  {
    if |rows| == 0 then Ok([])
    else
      match Decode(rows[..|rows| - 1], minConfidence, imgWidth, imgHeight, modelSize, names)
      case Err(e) => Err(e)
      case Ok(prefix) =>
        match Candidate(rows[|rows| - 1], minConfidence, imgWidth, imgHeight, modelSize, names)
        case Err(e) => Err(e)
        case Ok(None) => Ok(prefix)
        case Ok(Some(d)) => Ok(prefix + [d])
  }

  /** How many rows reach the threshold. */
  function PassingCount(rows: seq<seq<real>>, minConfidence: real): nat
    requires AllDecodable(rows)
  {
    if |rows| == 0 then 0
    else PassingCount(rows[..|rows| - 1], minConfidence)
         + (if RowConfidence(rows[|rows| - 1]) >= minConfidence then 1 else 0)
  }

  /** Every row holds at least 5 values. */
  predicate AllDecodable(rows: seq<seq<real>>) {
    forall i :: 0 <= i < |rows| ==> RowDecodable(rows[i])
  }

  /** Decoding fails exactly when some row is too short, and then with ValueError. */
  lemma {:induction false} DecodeFailsIff(rows: seq<seq<real>>, minConfidence: real, imgWidth: nat,
                                          imgHeight: nat, modelSize: nat, names: map<nat, string>)
    requires modelSize > 0
    ensures var r := Decode(rows, minConfidence, imgWidth, imgHeight, modelSize, names);
            && (r.Err? <==> !AllDecodable(rows))
            && (r.Err? ==> r.error == ValueError)
  {
    if |rows| > 0 {
      var init := rows[..|rows| - 1];
      DecodeFailsIff(init, minConfidence, imgWidth, imgHeight, modelSize, names);
      assert AllDecodable(rows) <==> AllDecodable(init) && RowDecodable(rows[|rows| - 1]) by {
        if AllDecodable(init) && RowDecodable(rows[|rows| - 1]) {
          forall i | 0 <= i < |rows|
            ensures RowDecodable(rows[i])
          {
            if i < |init| {
              assert rows[i] == init[i];
            }
          }
        }
      }
    }
  }

  /** A successful decoding has exactly one detection per row reaching the threshold, every one
      with a confidence at or above it and a box inside the image. */
  lemma {:induction false} DecodeExact(rows: seq<seq<real>>, minConfidence: real, imgWidth: nat,
                                       imgHeight: nat, modelSize: nat, names: map<nat, string>)
    requires modelSize > 0
    requires AllDecodable(rows)
    ensures var r := Decode(rows, minConfidence, imgWidth, imgHeight, modelSize, names);
            && r.Ok?
            && |r.value| == PassingCount(rows, minConfidence) <= |rows|
            && forall d :: d in r.value ==>
                 d.confidence >= minConfidence && InImage(d.bbox, imgWidth, imgHeight)
  {
    if |rows| > 0 {
      var init := rows[..|rows| - 1];
      assert forall i :: 0 <= i < |init| ==> init[i] == rows[i];
      DecodeExact(init, minConfidence, imgWidth, imgHeight, modelSize, names);
    }
  }

  /** Every detection comes from some row: its confidence is that row's combined confidence. */
  lemma {:induction false} DecodeFromRows(rows: seq<seq<real>>, minConfidence: real, imgWidth: nat,
                                          imgHeight: nat, modelSize: nat, names: map<nat, string>)
    requires modelSize > 0
    ensures var r := Decode(rows, minConfidence, imgWidth, imgHeight, modelSize, names);
            r.Ok? ==> forall d :: d in r.value ==>
              exists i :: 0 <= i < |rows| && RowDecodable(rows[i]) && d.confidence == RowConfidence(rows[i])
  {
    if |rows| > 0 {
      var init := rows[..|rows| - 1];
      var last := rows[|rows| - 1];
      DecodeFromRows(init, minConfidence, imgWidth, imgHeight, modelSize, names);
      var r := Decode(rows, minConfidence, imgWidth, imgHeight, modelSize, names);
      if r.Ok? {
        var p := Decode(init, minConfidence, imgWidth, imgHeight, modelSize, names);
        forall d | d in r.value
          ensures exists i :: 0 <= i < |rows| && RowDecodable(rows[i]) && d.confidence == RowConfidence(rows[i])
        {
          if d in p.value {
            var i :| 0 <= i < |init| && RowDecodable(init[i]) && d.confidence == RowConfidence(init[i]);
            assert rows[i] == init[i];
          } else {
            assert RowDecodable(rows[|rows| - 1]);
          }
        }
      }
    }
  }

  // ---------------------------------------------------------------------------------------------
  // The whole of `postprocess_detections`

  /** Everything after the layout step: read the model size (a short input shape raises
      IndexError), then decode every row. A missing layout is the IndexError of `outputs[0]` on
      an empty batch. */
  function DecodeLayout(layout: Option<Matrix>, minConfidence: real, imgWidth: nat, imgHeight: nat,
                        inputShape: seq<nat>, names: map<nat, string>): (r: Result<seq<Detection>>)
    requires ModelSizeNonZero(inputShape)
    ensures layout.None? ==> r == Err(IndexError)
    ensures r.Ok? ==> layout.Some? && |r.value| <= |layout.value.cells|
  {
    match layout
    case None => Err(IndexError)
    case Some(m) =>
      match ModelSize(inputShape)
      case Err(e) => Err(e)
      case Ok(size) => Decode(m.cells, minConfidence, imgWidth, imgHeight, size, names)
  }

  /** Once laid out, an output with no rows is not an error (unlike the current server); rows
      holding fewer than 5 values are, with ValueError. */
  lemma LayoutFailsIff(layout: Option<Matrix>, minConfidence: real, imgWidth: nat, imgHeight: nat,
                       inputShape: seq<nat>, names: map<nat, string>)
    requires ModelSizeNonZero(inputShape) && (layout.Some? ==> layout.value.Valid())
    ensures var r := DecodeLayout(layout, minConfidence, imgWidth, imgHeight, inputShape, names);
            && (r.Err? <==>
                  || layout.None?
                  || |inputShape| == 1 || |inputShape| == 2
                  || (layout.value.height > 0 && layout.value.width <= BoxColumns))
            && (r == Err(ValueError) ==> layout.value.width <= BoxColumns)
  {
    if layout.Some? && ModelSize(inputShape).Ok? {
      var m := layout.value;
      DecodeFailsIff(m.cells, minConfidence, imgWidth, imgHeight, ModelSize(inputShape).value, names);
      if m.height > 0 && m.width <= BoxColumns {
        assert !RowDecodable(m.cells[0]);
      }
    }
  }

  /** A successful decoding of a layout has one detection per row reaching the threshold, each
      above it and clipped into the image. */
  lemma LayoutSound(layout: Option<Matrix>, minConfidence: real, imgWidth: nat, imgHeight: nat,
                    inputShape: seq<nat>, names: map<nat, string>)
    requires ModelSizeNonZero(inputShape) && (layout.Some? ==> layout.value.Valid())
    ensures var r := DecodeLayout(layout, minConfidence, imgWidth, imgHeight, inputShape, names);
            r.Ok? ==>
              var m := layout.value;
              && AllDecodable(m.cells)
              && |r.value| == PassingCount(m.cells, minConfidence) <= m.height
              && forall d :: d in r.value ==>
                   d.confidence >= minConfidence && InImage(d.bbox, imgWidth, imgHeight)
  {
    if layout.Some? && ModelSize(inputShape).Ok? {
      var m := layout.value;
      var size := ModelSize(inputShape).value;
      DecodeFailsIff(m.cells, minConfidence, imgWidth, imgHeight, size, names);
      if Decode(m.cells, minConfidence, imgWidth, imgHeight, size, names).Ok? {
        DecodeExact(m.cells, minConfidence, imgWidth, imgHeight, size, names);
      }
    }
  }

  /** `postprocess_detections` as written: the layout rule of `NormalizeAsWritten`, then the
      decoding of every row. */
  function PostprocessSpec(outputs: Tensor, minConfidence: real, imgWidth: nat, imgHeight: nat,
                           inputShape: seq<nat>, names: map<nat, string>): (r: Result<seq<Detection>>)
    requires outputs.Valid() && ModelSizeNonZero(inputShape)
    ensures r.Ok? ==> NormalizeAsWritten(outputs).Some? && |r.value| <= NormalizeAsWritten(outputs).value.height
  {
    DecodeLayout(NormalizeAsWritten(outputs), minConfidence, imgWidth, imgHeight, inputShape, names)
  }

  /** As written, the call raises iff the batch is empty, the input shape has one or two entries,
      or the rows (for a 3-D output, the shorter axis) hold fewer than 5 values. */
  lemma PostprocessFailsIff(outputs: Tensor, minConfidence: real, imgWidth: nat, imgHeight: nat,
                            inputShape: seq<nat>, names: map<nat, string>)
    requires outputs.Valid() && ModelSizeNonZero(inputShape)
    ensures var r := PostprocessSpec(outputs, minConfidence, imgWidth, imgHeight, inputShape, names);
            var layout := NormalizeAsWritten(outputs);
            && (r.Err? <==>
                  || layout.None?
                  || |inputShape| == 1 || |inputShape| == 2
                  || (layout.value.height > 0 && layout.value.width <= BoxColumns))
            && (r == Err(ValueError) ==> layout.value.width <= BoxColumns)
  {
    LayoutFailsIff(NormalizeAsWritten(outputs), minConfidence, imgWidth, imgHeight, inputShape, names);
  }

  /** As written, a successful call returns one detection per row of the as-written layout that
      reaches the threshold, each above it and clipped into the image. */
  lemma PostprocessSound(outputs: Tensor, minConfidence: real, imgWidth: nat, imgHeight: nat,
                         inputShape: seq<nat>, names: map<nat, string>)
    requires outputs.Valid() && ModelSizeNonZero(inputShape)
    ensures var r := PostprocessSpec(outputs, minConfidence, imgWidth, imgHeight, inputShape, names);
            r.Ok? ==>
              var m := NormalizeAsWritten(outputs).value;
              && AllDecodable(m.cells)
              && |r.value| == PassingCount(m.cells, minConfidence) <= m.height
              && forall d :: d in r.value ==>
                   d.confidence >= minConfidence && InImage(d.bbox, imgWidth, imgHeight)
  {
    LayoutSound(NormalizeAsWritten(outputs), minConfidence, imgWidth, imgHeight, inputShape, names);
  }

  /** The evidently intended `postprocess_detections`: the corrected layout rule of `Normalize`,
      then the same decoding. */
  function PostprocessIntended(outputs: Tensor, minConfidence: real, imgWidth: nat, imgHeight: nat,
                               inputShape: seq<nat>, names: map<nat, string>): (r: Result<seq<Detection>>)
    requires outputs.Valid() && ModelSizeNonZero(inputShape)
    ensures r.Ok? ==> Normalize(outputs).Some? && |r.value| <= Normalize(outputs).value.height
  {
    DecodeLayout(Normalize(outputs), minConfidence, imgWidth, imgHeight, inputShape, names)
  }

  /** With the intended layout, a 3-D output has its longer axis (the predictions) as rows, so a successful call yields one detection per prediction
      reaching the threshold. */
  lemma PostprocessIntendedSound(outputs: Tensor, minConfidence: real, imgWidth: nat, imgHeight: nat,
                                 inputShape: seq<nat>, names: map<nat, string>)
    requires outputs.Valid() && ModelSizeNonZero(inputShape)
    ensures var r := PostprocessIntended(outputs, minConfidence, imgWidth, imgHeight, inputShape, names);
            r.Ok? ==>
              var m := Normalize(outputs).value;
              && (outputs.Rank3? ==> m.height >= m.width)
              && AllDecodable(m.cells)
              && |r.value| == PassingCount(m.cells, minConfidence) <= m.height
              && forall d :: d in r.value ==>
                   d.confidence >= minConfidence && InImage(d.bbox, imgWidth, imgHeight)
  {
    LayoutSound(Normalize(outputs), minConfidence, imgWidth, imgHeight, inputShape, names);
    if outputs.Rank3? && |outputs.batch| > 0 {
      NormalizeRowsLonger(outputs.batch);
    }
  }

  /** On a `[1, 4, 8]` output (8 predictions of 4 box values and no class score) the code as
      written reads 4 "predictions" of 8 values each and returns without error, where the
      intended layout raises ValueError for want of a class score. */
  lemma LayoutDisagreementExample(batch: seq<Matrix>, minConfidence: real, imgWidth: nat, imgHeight: nat,
                                  inputShape: seq<nat>, names: map<nat, string>)
    requires Rank3(batch).Valid() && |batch| == 1 && batch[0].height == 4 && batch[0].width == 8
    requires ModelSizeNonZero(inputShape) && ModelSize(inputShape).Ok?
    ensures PostprocessSpec(Rank3(batch), minConfidence, imgWidth, imgHeight, inputShape, names).Ok?
    ensures PostprocessIntended(Rank3(batch), minConfidence, imgWidth, imgHeight, inputShape, names)
            == Err(ValueError)
  {
    var outputs := Rank3(batch);
    LayoutFailsIff(NormalizeAsWritten(outputs), minConfidence, imgWidth, imgHeight, inputShape, names);
    LayoutFailsIff(Normalize(outputs), minConfidence, imgWidth, imgHeight, inputShape, names);
    DecodeFailsIff(Normalize(outputs).value.cells, minConfidence, imgWidth, imgHeight,
                   ModelSize(inputShape).value, names);
  }

  /** `postprocess_detections` with the model's input shape and class table passed in. */
  method Postprocess(outputs: Tensor, minConfidence: real, imgWidth: nat, imgHeight: nat,
                     inputShape: seq<nat>, names: map<nat, string>)
    returns (r: Result<seq<Detection>>)
    requires outputs.Valid() && ModelSizeNonZero(inputShape)
    ensures r == PostprocessSpec(outputs, minConfidence, imgWidth, imgHeight, inputShape, names)
  {
    var normalized := NormalizeAsWritten(outputs);
    if normalized.None? {
      return Err(IndexError);
    }
    var modelSize := ModelSize(inputShape);
    if modelSize.Err? {
      return Err(modelSize.error);
    }
    r := DecodeRows(normalized.value.cells, minConfidence, imgWidth, imgHeight, modelSize.value, names);
  }

  /** `for detection in outputs`: append each passing row's detection; the first row that
      raises ends the call. */
  method DecodeRows(rows: seq<seq<real>>, minConfidence: real, imgWidth: nat, imgHeight: nat,
                    modelSize: nat, names: map<nat, string>)
    returns (r: Result<seq<Detection>>)
    requires modelSize > 0
    ensures r == Decode(rows, minConfidence, imgWidth, imgHeight, modelSize, names)
  {
    var detections: seq<Detection> := [];
    for i := 0 to |rows|
      invariant Decode(rows[..i], minConfidence, imgWidth, imgHeight, modelSize, names) == Ok(detections)
    {
      assert rows[..i + 1][..i] == rows[..i];
      var candidate := Candidate(rows[i], minConfidence, imgWidth, imgHeight, modelSize, names);
      if candidate.Err? {
        DecodeStopsAtError(rows, i + 1, minConfidence, imgWidth, imgHeight, modelSize, names);
        return Err(candidate.error);
      }
      if candidate.value.Some? {
        detections := detections + [candidate.value.value];
      }
    }
    assert rows[..|rows|] == rows;
    return Ok(detections);
  }

  /** Once a prefix of the rows raises, so do the rows as a whole, with the same error. */
  lemma {:induction false} DecodeStopsAtError(rows: seq<seq<real>>, k: nat, minConfidence: real,
                                              imgWidth: nat, imgHeight: nat, modelSize: nat,
                                              names: map<nat, string>)
    requires modelSize > 0 && k <= |rows|
    requires Decode(rows[..k], minConfidence, imgWidth, imgHeight, modelSize, names).Err?
    ensures Decode(rows, minConfidence, imgWidth, imgHeight, modelSize, names)
            == Decode(rows[..k], minConfidence, imgWidth, imgHeight, modelSize, names)
  {
    if k < |rows| {
      assert rows[..|rows| - 1][..k] == rows[..k];
      DecodeStopsAtError(rows[..|rows| - 1], k, minConfidence, imgWidth, imgHeight, modelSize, names);
    } else {
      assert rows[..k] == rows;
    }
  }
}
