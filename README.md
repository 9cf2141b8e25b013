# YOLO detection postprocessing for the fire-extinguisher inspection server

This project models the step where an object-detection server for fire-extinguisher
inspections turns raw YOLO network output into a list of detections. It covers two variants.

- **The current server** (`ai-server/model_server.py`, YOLOv8) works in four stages:
  - It brings the output tensor into "one row per prediction" layout.
  - It decides from a sample of the scores whether they are logits, and if so squashes every class score through the logistic function.
  - It decodes each row: the class is the first index of the highest score, and that score is the confidence. Rows below the confidence threshold are dropped, and each box is turned from centre/size in model pixels into corners clipped to the image.
  - It removes overlapping boxes with a greedy non-maximum suppression (NMS) at IoU 0.5.

  The `/detect` endpoint runs this for every image of a request. An image that fails gets an empty detection list.
- **The legacy server** (`model_server.py`) has no calibration and no NMS. It is modelled as written, including its inverted transpose test (see Findings), with the intended pipeline beside it. Its confidence is the objectness value times the best class score. Unknown classes are named `class_<id>` rather than `unknown_class_<id>`.

Modules:

- `Wrappers`: `Option`, `Result`, and the three Python exceptions modelled (`IndexError`, `ValueError`, `TypeError`).
- `Tensors`: rectangular matrices, 2-D/3-D network outputs, transpose, maximum, and numpy's `argmax` (the first index of the maximum).
- `Geometry`:
  - the model input size;
  - box scaling and clipping;
  - the class-name lookup with its decimal fallback;
  - `compute_iou`.
- `Suppression`:
  - `sorted(..., reverse=True)` on confidence, as a stable insertion sort;
  - the greedy NMS, as a specification function;
  - the NMS loop of `apply_nms`, as a method proved to compute that function.
- `YoloV8`:
  - the layout rule and the load-time class-count check;
  - the calibration heuristic, with the in-place `outputs[:, 4:] = sigmoid(...)` as a method on a 2-D array;
  - row decoding, and the whole of `postprocess_detections`, as a method proved against a specification function.
- `Endpoint`: the per-image loop of `detect` and the reply it produces.
- `Legacy`: the legacy `postprocess_detections`.

Numbers are mathematical reals. There is no float rounding, infinity or NaN. The logistic function, the image decoder and the network are parameters:
- The logistic function is any real function with values in (0, 1).
- The image decoder and the network are functions that may fail.

The exceptions that `postprocess_detections` raises are modelled as `Err` results:
- `IndexError` for an output with an empty batch or an input shape of length 1 or 2;
- `ValueError` for `np.max`/`np.argmax` over an empty score slice, and, in the legacy code, for unpacking a row of fewer than 4 values;
- `TypeError` for a `None` threshold, at the first row's `confidence < min_confidence` (`YoloV8.PostprocessNullThreshold`).

Where this README and the code's comments disagree, the model follows the code:
- The YOLOv8 docstring says a 3-D output is `[1, features, predictions]`. The code transposes every 3-D output whatever its shape. For a `[1, predictions, features]` output, the class count computed at load time therefore differs from the one decoding uses (`YoloV8.DeclaredClassCountAgreement`).
- The comment on the 2-D branch says the output is "already" prediction-major. The code still transposes when it has fewer rows than columns. So a 2-D output with between one and four predictions is rejected.

## Model

| member | source | states |
|---|---|---|
| Tensors.Transpose | ai-server/model_server.py:268-274 | the transpose swaps the two dimensions and cell (i, j) is input cell (j, i) |
| Tensors.TransposeInvolution | ai-server/model_server.py:268-274 | transposing twice gives back the matrix, so the layout step loses no data |
| Tensors.MaxOf | ai-server/model_server.py:286 | `np.max` of a non-empty sequence is one of its elements and no element exceeds it |
| Tensors.ArgMax | ai-server/model_server.py:308 | `np.argmax` is an index holding the maximum, with every earlier element strictly smaller (first occurrence) |
| YoloV8.Normalize | ai-server/model_server.py:268-279 | the result is rectangular; it is missing exactly when a 3-D output has an empty batch (the IndexError of `outputs[0]`) |
| YoloV8.NormalizeRank3 | ai-server/model_server.py:268-270 | a 3-D output `[1, F, P]` becomes P rows of F features, cell (i, j) being input (j, i) of the first batch entry |
| YoloV8.NormalizeRank2 | ai-server/model_server.py:271-274 | a 2-D output ends with at least as many rows as columns; one that already has them is untouched, otherwise it is the transpose |
| YoloV8.DeclaredClassCount | ai-server/model_server.py:167-177 | a count exists exactly when the shape has at least three entries and dims 1 and 2 are non-zero integers; it is the smaller of the two, minus 4 |
| YoloV8.ClassCountMismatch | ai-server/model_server.py:179-185 | the load-time warning fires when a class count is found and differs from the size of the class table (definition; examples in `ClassCountMismatchExample`) |
| YoloV8.ClassCountMismatchExample | ai-server/model_server.py:167-185 | with the 7-entry table, `[1, 11, 8400]` and `[1, 8400, 11]` raise no warning, `[1, 84, 8400]` does, and a symbolic dimension skips the check |
| YoloV8.DeclaredClassCountAgreement | ai-server/model_server.py:174-177 | for a 3-D output the load-time class count equals the one decoding uses (`NumClasses`, `num_features - 4` at line 279) iff dim 1 ≤ dim 2 |
| YoloV8.SampleRowMaxes | ai-server/model_server.py:285 | the sample has one entry per row among the first 100 (`SampleSize`, the `[:100]` slice) |
| YoloV8.SampleMax | ai-server/model_server.py:285-286 | `np.max(outputs[:100, 4:])`, the maximum of the per-row maxima (its meaning is stated by `SampleMaxIsMax`) |
| YoloV8.SampleMaxIsMax | ai-server/model_server.py:285-286 | the sample maximum bounds every class score of the first 100 rows and is one of them |
| YoloV8.SampleScoreBelowMax | ai-server/model_server.py:285-286 | any one sampled class score is at most the sample maximum |
| YoloV8.NeedsLogistic | ai-server/model_server.py:287 | `max_score > 1.0 or max_score < 0.0` (its meaning over the cells is stated by `NeedsLogisticIff`) |
| YoloV8.NeedsLogisticIff | ai-server/model_server.py:285-289 | scores are treated as logits iff some sampled score exceeds 1 or all sampled scores are negative |
| YoloV8.Calibrate | ai-server/model_server.py:292 | the logistic function is applied to every class score of every row; the four box columns are kept |
| YoloV8.Scored | ai-server/model_server.py:289-294 | calibration keeps the dimensions of the matrix |
| YoloV8.ProbabilitiesUntouched | ai-server/model_server.py:287-294 | scores already in [0, 1] are left exactly as they are |
| YoloV8.ScoredIdempotent | ai-server/model_server.py:285-294 | after calibration every score lies in (0, 1), so a second pass changes nothing |
| YoloV8.ApplyLogistic | ai-server/model_server.py:292 | the in-place update on the array: box columns unchanged, every score replaced by its logistic value |
| YoloV8.ScoresArray | ai-server/model_server.py:285-294 | a fresh array holding exactly the calibrated (or untouched) scores |
| YoloV8.Candidate | ai-server/model_server.py:299-335 | a row yields a detection only at or above the threshold, with a box inside the image |
| YoloV8.CandidateMeaning | ai-server/model_server.py:305-313 | a row yields a detection iff some class score reaches the threshold; its confidence is the row's highest score and its class the first class holding it |
| YoloV8.Decode | ai-server/model_server.py:299-335 | at most one detection per row, each at or above the threshold and inside the image |
| YoloV8.DecodeConfidences | ai-server/model_server.py:305-309 | every decoded confidence is one of the rows' class scores |
| YoloV8.DecodeRows | ai-server/model_server.py:299-335 | the loop over the array's rows computes the decoding function |
| YoloV8.PostprocessSpec | ai-server/model_server.py:246-343 | the whole postprocessing in source order (layout, empty-sample error, calibration, model size, decoding, NMS when non-empty); a result has at most one entry per row of the layout |
| YoloV8.PostprocessFailsIff | ai-server/model_server.py:268-297 | postprocessing raises iff the batch is empty, fewer than 5 features or no predictions remain after layout, or the input shape has length 1 or 2 |
| YoloV8.PostprocessNullThreshold | ai-server/model_server.py:268-312 | with a `None` threshold postprocessing always raises; it raises TypeError exactly when the layout and the input shape are accepted |
| YoloV8.NullThresholdRaises | ai-server/model_server.py:268-312 | a `None` threshold raises the same error as a numeric one wherever that one raises, and TypeError exactly where that one returns a result |
| YoloV8.PostprocessSound | ai-server/model_server.py:246-343 | a result has at most one entry per row; each entry is at or above the threshold and inside the image; entries are in non-increasing confidence and pairwise below IoU 0.5 |
| YoloV8.PostprocessCalibratedConfidences | ai-server/model_server.py:285-335 | when the scores were judged to be logits, every returned confidence is strictly between 0 and 1 |
| YoloV8.ProbabilityCandidates | ai-server/model_server.py:305-309 | rows of probabilities decode to confidences that are probabilities |
| YoloV8.CalibratedCandidates | ai-server/model_server.py:289-309 | candidates of calibrated rows have probabilities as confidences |
| YoloV8.PostprocessOneRow | ai-server/model_server.py:337-343 | when the rows need no calibration and decode to a single detection, that detection is the result (NMS keeps it) |
| YoloV8.PostprocessExample | ai-server/model_server.py:246-343 | a `[1, 5, 1]` output centred at (320, 320) with size 100 × 200 and score 0.9 yields one "shell" at [270, 220, 370, 420] on a 640 × 640 image |
| YoloV8.ExampleLayout | ai-server/model_server.py:268-294 | the example's column becomes one row and its score needs no calibration |
| YoloV8.ExampleDecode | ai-server/model_server.py:299-335 | the example row decodes to the single "shell" detection |
| YoloV8.Postprocess | ai-server/model_server.py:246-343 | the method returns exactly the specified result or error for every input |
| YoloV8.PostprocessSpecOk | ai-server/model_server.py:296-339 | once layout, sampling and model size succeed, the result is the NMS of the decoded candidates, or the empty list |
| Geometry.ModelSize | ai-server/model_server.py:297 | 640 for an empty input shape, `input_shape[2]` when there is one, IndexError for length 1 or 2; the size is positive |
| Geometry.Clip | ai-server/model_server.py:323-326 | the result lies in [0, limit] and equals the value when it already does |
| Geometry.ClipMonotone | ai-server/model_server.py:323-326 | clipping preserves order |
| Geometry.ImageBox | ai-server/model_server.py:317-326 | the scaled and clipped box lies inside the image |
| Geometry.ScaleMonotone | ai-server/model_server.py:317-320 | scaling to image pixels preserves order |
| Geometry.ImageBoxOrdered | ai-server/model_server.py:317-326 | a box of non-negative size keeps x1 ≤ x2 and y1 ≤ y2 after scaling and clipping |
| Geometry.ImageBoxExample | ai-server/model_server.py:317-326 | centre (320, 320) with size 100 × 200 on a 640 image at model size 640 is [270, 220, 370, 420] |
| Geometry.Decimal | ai-server/model_server.py:329 | the decimal spelling of an id is a non-empty string of digits |
| Geometry.DecimalRoundTrip | ai-server/model_server.py:329 | reading the spelled digits back gives the id |
| Geometry.ClassName | ai-server/model_server.py:329 | a known id maps to its table entry; an unknown one gets the fallback prefix followed by more characters |
| Geometry.FallbackNameNamesId | ai-server/model_server.py:329 | an unknown name is the prefix followed by the decimal digits of the id, which can be read back |
| Geometry.Area | ai-server/model_server.py:388-389 | `(x2 - x1) * (y2 - y1)` of a box (bounds stated by `MeetArea`) |
| Geometry.Meet | ai-server/model_server.py:377-380 | the intersection box: larger corners' maxima and smaller corners' minima (its area is bounded by `MeetArea`) |
| Geometry.IoU | ai-server/model_server.py:371-395 | the IoU is 0 when the boxes do not meet and when the union is 0 |
| Geometry.IoUSymmetric | ai-server/model_server.py:371-395 | IoU does not depend on argument order |
| Geometry.IoUIdentical | ai-server/model_server.py:371-395 | a box of positive area has IoU 1 with itself |
| Geometry.IoUDisjoint | ai-server/model_server.py:382-383 | boxes separated along an axis have IoU 0 |
| Geometry.MeetArea | ai-server/model_server.py:377-390 | the intersection area is non-negative and at most either box's area |
| Geometry.IoUBounds | ai-server/model_server.py:371-395 | for well-formed boxes the IoU lies in [0, 1] |
| Suppression.Insert | ai-server/model_server.py:352 | inserting into a descending list keeps it descending and adds exactly the new element |
| Suppression.SortByConfidence | ai-server/model_server.py:352 | the sorted list is in non-increasing confidence and is a permutation of the input |
| Suppression.SortDescendingIsIdentity | ai-server/model_server.py:352 | an already sorted list is returned unchanged (stability on sorted input) |
| Suppression.Survivors | ai-server/model_server.py:362-366 | the survivors are no more than the input |
| Suppression.SurvivorsSubsequence | ai-server/model_server.py:362-366 | the survivors are a subsequence of the input; a detection survives iff its IoU with the best box is below the threshold |
| Suppression.SurvivorsKeepAll | ai-server/model_server.py:362-366 | when nothing overlaps the best box, every detection survives |
| Suppression.Greedy | ai-server/model_server.py:354-368 | keep the head, drop what it suppresses, repeat: never longer than its input, and a non-empty input keeps its head first |
| Suppression.Nms | ai-server/model_server.py:346-368 | `apply_nms`: never longer than its input, and empty exactly when the input is empty |
| Suppression.GreedySubsequence | ai-server/model_server.py:354-368 | the kept detections are a subsequence of the sorted input |
| Suppression.GreedySeparated | ai-server/model_server.py:354-368 | any two kept detections overlap by IoU below the threshold |
| Suppression.GreedyCovers | ai-server/model_server.py:354-368 | every input detection is kept or overlaps a kept one by IoU at or above the threshold |
| Suppression.GreedySeparatedIsIdentity | ai-server/model_server.py:354-368 | a list whose boxes are already pairwise separated is kept whole |
| Suppression.NmsSingle | ai-server/model_server.py:346-368 | a single detection is kept |
| Suppression.NmsSubsequence | ai-server/model_server.py:346-368 | NMS keeps a subsequence of the confidence-sorted input |
| Suppression.NmsDescending | ai-server/model_server.py:352-368 | NMS output is in non-increasing confidence and holds only input detections |
| Suppression.NmsFirstIsMaximal | ai-server/model_server.py:356-359 | for non-empty input the first kept detection has the highest confidence of all |
| Suppression.NmsSeparated | ai-server/model_server.py:346-368 | kept detections are pairwise below the IoU threshold, whatever their classes |
| Suppression.NmsCovers | ai-server/model_server.py:346-368 | every suppressed detection overlaps some kept one by at least the threshold |
| Suppression.NmsIdempotent | ai-server/model_server.py:346-368 | applying NMS to its own output changes nothing |
| Suppression.NmsDuplicateBoxExample | ai-server/model_server.py:346-368 | two detections on the same box leave only the more confident one |
| Suppression.ApplyNms | ai-server/model_server.py:346-368 | the pop-best-and-filter loop computes the greedy NMS specification |
| Suppression.RemoveOverlapping | ai-server/model_server.py:362-366 | the filtering loop keeps exactly the survivors, in order |
| Suppression.GreedyStep | ai-server/model_server.py:356-366 | one pass of the loop: keeping the best and filtering the rest leaves the overall result unchanged |
| Endpoint.Results | ai-server/model_server.py:465-491 | there is one result per request image, carrying that image's step id, in request order |
| Endpoint.RunPostprocess | ai-server/model_server.py:474 | postprocessing with the request's threshold as sent; a `null` threshold never yields a result |
| Endpoint.NullThresholdReportsNothing | ai-server/model_server.py:467-491 | a request whose `minConfidence` is `null` (the request model allows it) reports every image with its step id and no detections |
| Endpoint.ImageDetections | ai-server/model_server.py:468-491 | the detections reported for one image: those of postprocessing, or none when decoding, inference or postprocessing raises (stated by `FailedImageIsEmpty` and `ResultsSound`) |
| Endpoint.FailedImageIsEmpty | ai-server/model_server.py:485-491 | an image that fails to decode, fails in the network, or whose output postprocessing rejects is reported with its step id and no detections |
| Endpoint.ResultsSound | ai-server/model_server.py:467-491 | every reported detection comes from a numeric threshold and is at or above it and inside its decoded image; each image's detections are descending and pairwise below IoU 0.5 |
| Endpoint.DetectImage | ai-server/model_server.py:468-491 | one iteration reports the postprocessed detections, or none when anything raises |
| Endpoint.ProcessImages | ai-server/model_server.py:463-496 | the loop yields a successful response whose results are the per-image specification, in request order |
| Endpoint.EscapedStatusAsWritten | ai-server/model_server.py:498-500 | as written, every exception escaping the outer try becomes status 500 |
| Endpoint.EscapedStatus | ai-server/model_server.py:459-461 | an HTTP exception keeps its own status; anything else is a 500 |
| Endpoint.ReplyAsWritten | ai-server/model_server.py:459-500 | the reply as written: 500 without a model, else the successful response (compared with `ReplySpec` by `UnavailableMasked`) |
| Endpoint.ReplySpec | ai-server/model_server.py:459-500 | the intended reply: 503 without a model, else the successful response (the contract of `Detect`) |
| Endpoint.UnavailableMasked | ai-server/model_server.py:459-500 | without a model the code as written answers 500 while 503 is intended; with a model both replies agree |
| Endpoint.Detect | ai-server/model_server.py:452-500 | the endpoint answers 503 without a model, else the successful response over all images |
| Legacy.NormalizeAsWritten | model_server.py:204-209 | as written: rectangular; missing exactly for an empty batch; a 2-D output is iterated as is |
| Legacy.NormalizeAsWrittenRowsShorter | model_server.py:204-209 | as written, a 3-D output always ends with its shorter axis as rows: it is the sample itself when that has no more rows than columns, and its transpose otherwise |
| Legacy.NormalizeAsWrittenExample | model_server.py:204-209 | as written, a `[1, 5, 8]` output is read as 5 rows of 8 values |
| Legacy.Normalize | model_server.py:204-209 | corrected rule: rectangular; missing exactly for an empty batch; a 2-D output is iterated as is |
| Legacy.NormalizeRowsLonger | model_server.py:204-209 | corrected rule: a 3-D output has its longer axis as rows and loses no data |
| Legacy.NormalizeExample | model_server.py:204-209 | corrected rule: a `[1, 5, 8]` output yields 8 rows of 5 values |
| Legacy.Objectness | model_server.py:217 | the fifth value of the row, or 1.0 for a row of at most four values |
| Legacy.RowConfidence | model_server.py:221-225 | objectness times the score at the first argmax (its meaning is stated by `RowConfidenceMeaning`) |
| Legacy.ClassScores | model_server.py:218 | the class scores start at column 5 for rows longer than 5, else at column 4 |
| Legacy.RowConfidenceMeaning | model_server.py:216-225 | the confidence is objectness (column 4) times the best class score; a 5-value row gives the square of its fifth value |
| Legacy.Candidate | model_server.py:214-246 | a row of at most 4 values raises ValueError; otherwise it yields a detection iff its combined confidence reaches the threshold, with that confidence and a box inside the image |
| Legacy.CandidateClass | model_server.py:221-222 | the class is the first index of the highest class score, named via the table or `class_<id>` |
| Legacy.CandidateExample | model_server.py:214-246 | a 5-value row with fifth value 0.5 has confidence 0.25, passing 0.2 and failing 0.3 |
| Legacy.Decode | model_server.py:214-248 | the rows in order, stopping at the first that raises: never more detections than rows, and every error a ValueError |
| Legacy.DecodeFailsIff | model_server.py:214-246 | decoding fails iff some row is too short, and then with ValueError |
| Legacy.DecodeExact | model_server.py:214-246 | a successful decoding has exactly one detection per passing row, each at or above the threshold and inside the image |
| Legacy.DecodeFromRows | model_server.py:214-246 | every detection's confidence is the combined confidence of some row |
| Legacy.DecodeLayout | model_server.py:211-248 | what follows the layout step: a missing layout is IndexError, and a result has no more detections than the layout has rows |
| Legacy.LayoutFailsIff | model_server.py:211-248 | after layout the call fails iff the layout is missing, the input shape has length 1 or 2, or rows exist with at most 4 values; an output with no rows is not an error |
| Legacy.LayoutSound | model_server.py:211-248 | a successful decoding of a layout holds exactly one detection per passing row, each at or above the threshold and inside the image |
| Legacy.PostprocessSpec | model_server.py:191-248 | `postprocess_detections` as written, on the `shape[1] > shape[2]` layout: never more detections than rows of that layout |
| Legacy.PostprocessFailsIff | model_server.py:191-248 | as written, it fails iff the batch is empty, the input shape has length 1 or 2, or the as-written rows (for 3-D outputs, the shorter axis) hold at most 4 values |
| Legacy.PostprocessSound | model_server.py:191-248 | as written, a result holds exactly one detection per passing row of the as-written layout, each at or above the threshold and inside the image |
| Legacy.PostprocessIntended | model_server.py:191-248 | the intended pipeline on the corrected layout: never more detections than rows of that layout |
| Legacy.PostprocessIntendedSound | model_server.py:204-248 | with the corrected layout a 3-D output has its longer axis as rows, and a result holds one detection per passing row, each at or above the threshold and inside the image |
| Legacy.LayoutDisagreementExample | model_server.py:204-209 | on a `[1, 4, 8]` output the code as written returns without error, where the intended pipeline raises ValueError |
| Legacy.DecodeRows | model_server.py:214-248 | the loop computes the decoding function, stopping at the first row that raises |
| Legacy.DecodeStopsAtError | model_server.py:214-246 | once a prefix of the rows fails, the whole decoding fails with that error |
| Legacy.Postprocess | model_server.py:191-248 | the method returns exactly the as-written result or error for every input |

## Left out

- Image decoding (`decode_base64_image`), preprocessing (`preprocess_image`) and ONNX inference are foreign calls. They appear as the `decode` and `infer` parameters of `Endpoint.Session`, which may fail.
- The logistic function is any function into (0, 1), so its `np.clip(x, -500, 500)` and `exp` are not modelled. Float32 rounding, overflow and NaN are not modelled either; numbers are exact reals.
- An input shape whose third entry is zero would make the model size a zero divisor, which numpy turns into infinities rather than an error. The precondition `ModelSizeNonZero` excludes it.
- Input shapes are sequences of natural numbers. A symbolic (string) input dimension, which `onnxruntime` can report, is not modelled.
- The global `ort_session`, `input_shape` and `CLASS_NAMES` are passed explicitly. The endpoint takes the session as an `Option`.
- `load_model` is reduced to its class-count check (`DeclaredClassCount`, `ClassCountMismatch`). A symbolic or absent dimension is `Symbolic`. The printed warning itself is not modelled.
- All `print` logging is left out.
- The `detail` text of HTTP errors is left out; only the status is modelled. `DetectionRequest.extinguisherInfo` is never read and is left out.
- The `/` and `/health` endpoints and the legacy server's `detect` and `run_detection` are left out. The legacy versions have the same structure as the current server's, which `Endpoint` models.
- Concurrency of the async endpoint is left out.
- Network outputs of rank other than 2 or 3 are not modelled: `Tensors.Tensor` has only those two ranks. The source raises for most other ranks (rank 0 or 1 at `outputs.shape[1]`). An output whose extra trailing axes all have size 1 decodes like a 2-D one.
- The legacy server's `min_confidence` is a number in `Legacy.PostprocessSpec`. A `null` threshold reaches it only through the legacy `detect`, which is left out.
- Suppression.SortByConfidence: stability (equal confidences keep their input order) is proved only for already-sorted input, by `SortDescendingIsIdentity`, not in general.
- Endpoint.ResultsSound: the 0.5 threshold and the image bounds are proved. The fact that each returned detection comes from a row of that image's output is stated one level down, by `YoloV8.DecodeConfidences`.

## Findings

| source | as written | input that shows it | evidently intended | confidence | as-written member | corrected member |
|---|---|---|---|---|---|---|
| model_server.py:204-209 | a 3-D output is transposed when `shape[1] > shape[2]`, so the shorter axis becomes the rows | a `[1, 5, 8]` output (8 predictions of 5 values) is read as 5 "predictions" of 8 values each; a `[1, 4, 8]` output returns detections instead of raising | transpose when `shape[1] < shape[2]`, to get `[num_detections, features]` as the comment says | not executed | Legacy.NormalizeAsWritten and Legacy.PostprocessSpec (Legacy.NormalizeAsWrittenRowsShorter, Legacy.NormalizeAsWrittenExample, Legacy.LayoutDisagreementExample) | Legacy.Normalize and Legacy.PostprocessIntended (Legacy.NormalizeRowsLonger, Legacy.NormalizeExample, Legacy.PostprocessIntendedSound) |
| ai-server/model_server.py:459-461, 498-500 | the `HTTPException(503)` raised when no model is loaded is caught by the outer `except Exception` and re-raised as a 500 | a request while `ort_session` is `None` yields status 500 | status 503 "Model not loaded" reaches the client | not executed | Endpoint.EscapedStatusAsWritten (Endpoint.UnavailableMasked) | Endpoint.EscapedStatus (used by Endpoint.Detect) |
