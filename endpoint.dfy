/**
  The `/detect` endpoint of the current server: every image of a request is decoded, run through
  the network and postprocessed; a failure on one image yields an empty detection list for that
  image and the loop goes on. Decoding and inference are foreign calls and are parameters here.
 */
module Endpoint {
  import opened Wrappers
  import opened Tensors
  import opened Geometry
  import opened Suppression
  import opened YoloV8

  /** One image of a request, tagged with the inspection step it belongs to. */
  datatype ImageData = ImageData(stepId: string, dataUrl: string, timestamp: int)

  /** A request body once validated: `minConfidence` is `Some(DefaultMinConfidence)` when the field
      is omitted and `None` when the client sends `null`, which the request model accepts. */
  datatype DetectionRequest = DetectionRequest(images: seq<ImageData>, minConfidence: Option<real>)

  const DefaultMinConfidence: real := 0.5

  datatype ImageResult = ImageResult(stepId: string, detections: seq<Detection>)

  datatype DetectionResponse = DetectionResponse(success: bool, results: seq<ImageResult>, error: Option<string>)

  /** What the client receives: a response body, or an HTTP error status. */
  datatype Reply = Body(response: DetectionResponse) | HttpError(status: nat)

  const ServiceUnavailable: nat := 503
  const InternalServerError: nat := 500

  /** One pixel after the conversion to RGB. */
  datatype Rgb = Rgb(red: nat, green: nat, blue: nat)

  /** A decoded picture: `image.size` and its rows of pixels. */
  datatype Picture = Picture(width: nat, height: nat, pixels: seq<seq<Rgb>>)

  /** Preprocessing plus `ort_session.run`, taking the first output; `None` when it raises. Any
      array numpy hands back is rectangular. */
  type Network = f: Picture -> Option<Tensor> | forall p :: f(p).Some? ==> f(p).value.Valid()
    witness (p: Picture) => None

  /** The loaded model and what the endpoint calls around the postprocessing: `decode` is
      `decode_base64_image` (`None` when it raises). */
  datatype Session = Session(decode: string -> Option<Picture>, infer: Network,
                             inputShape: seq<nat>, names: map<nat, string>, sigmoid: Logistic)
  {
    predicate Valid() {
      ModelSizeNonZero(inputShape)
    }
  }

  /** `postprocess_detections` on one network output, with the request's threshold as it arrives:
      a number, or `None`. */
  function RunPostprocess(session: Session, minConfidence: Option<real>, picture: Picture, outputs: Tensor)
    : (r: Result<seq<Detection>>)
    requires session.Valid() && outputs.Valid()
    ensures minConfidence.None? ==> r.Err?
  {
    match minConfidence
    case Some(threshold) =>
      PostprocessSpec(outputs, threshold, picture.width, picture.height,
                      session.inputShape, session.names, session.sigmoid)
    case None => PostprocessNullThreshold(outputs, session.inputShape)
  }

  /** The detections reported for one image: those of `run_detection`, or none when decoding,
      inference or postprocessing raised. */
  function ImageDetections(session: Session, minConfidence: Option<real>, image: ImageData): seq<Detection>
    requires session.Valid()
  {
    match session.decode(image.dataUrl)
    case None => []
    case Some(picture) =>
      match session.infer(picture)
      case None => []
      case Some(outputs) =>
        match RunPostprocess(session, minConfidence, picture, outputs)
        case Err(_) => []
        case Ok(detections) => detections
  }

  /** `results_list` after the loop over `images`: one entry per image, in request order, with
      the image's step id and the detections reported for it. */
  function Results(session: Session, minConfidence: Option<real>, images: seq<ImageData>): (results: seq<ImageResult>)
    requires session.Valid()
    ensures |results| == |images|
    ensures forall i :: 0 <= i < |images| ==> results[i].stepId == images[i].stepId
  {
    seq(|images|, i requires 0 <= i < |images| =>
      ImageResult(images[i].stepId, ImageDetections(session, minConfidence, images[i])))
  }

  /** An image whose data URL does not decode, on which the network fails, or whose output
      postprocessing rejects, is reported with no detections rather than failing the request. */
  lemma FailedImageIsEmpty(session: Session, minConfidence: Option<real>, images: seq<ImageData>, i: nat)
    requires session.Valid() && i < |images|
    requires var picture := session.decode(images[i].dataUrl);
             || picture.None?
             || session.infer(picture.value).None?
             || RunPostprocess(session, minConfidence, picture.value, session.infer(picture.value).value).Err?
    ensures var results := Results(session, minConfidence, images);
            |results| == |images| && results[i] == ImageResult(images[i].stepId, [])
  {
  }

  /** With a `null` threshold the comparison raises on every image that reaches it, so the request
      still succeeds and every image is reported with no detections. */
  lemma NullThresholdReportsNothing(session: Session, images: seq<ImageData>)
    requires session.Valid()
    ensures var results := Results(session, None, images);
            && |results| == |images|
            && forall i :: 0 <= i < |images| ==> results[i] == ImageResult(images[i].stepId, [])
  {
  }

  /** Every reported detection passed a numeric confidence filter and lies in its own image; within
      one image the detections come in non-increasing confidence and do not overlap by IoU 0.5. */
  lemma ResultsSound(session: Session, minConfidence: Option<real>, images: seq<ImageData>, i: nat)
    requires session.Valid() && i < |images|
    ensures |Results(session, minConfidence, images)| == |images|
    ensures var detections := Results(session, minConfidence, images)[i].detections;
            && (forall d :: d in detections ==>
                  && minConfidence.Some?
                  && d.confidence >= minConfidence.value
                  && session.decode(images[i].dataUrl).Some?
                  && var picture := session.decode(images[i].dataUrl).value;
                     InImage(d.bbox, picture.width, picture.height))
            && Descending(detections)
            && (forall p, q :: 0 <= p < q < |detections| ==>
                  IoU(detections[p].bbox, detections[q].bbox) < DefaultIouThreshold)
  {
    var picture := session.decode(images[i].dataUrl);
    if picture.Some? && session.infer(picture.value).Some? && minConfidence.Some? {
      PostprocessSound(session.infer(picture.value).value, minConfidence.value, picture.value.width,
                       picture.value.height, session.inputShape, session.names, session.sigmoid);
    }
  }

  /** The loop of `detect`, proved to build `Results`. */
  method ProcessImages(session: Session, request: DetectionRequest) returns (response: DetectionResponse)
    requires session.Valid()
    ensures response == DetectionResponse(true, Results(session, request.minConfidence, request.images), None)
  {
    var images := request.images;
    var results: seq<ImageResult> := [];
    for k := 0 to |images|
      invariant results == Results(session, request.minConfidence, images[..k])
    {
      var detections := DetectImage(session, request.minConfidence, images[k]);
      ghost var before := results;
      results := results + [ImageResult(images[k].stepId, detections)];
      forall i | 0 <= i < k + 1
        ensures results[i] == Results(session, request.minConfidence, images[..k + 1])[i]
      {
        if i < k {
          assert results[i] == before[i];
        }
      }
    }
    assert images[..|images|] == images;
    return DetectionResponse(true, results, None);
  }

  /** The inner `try` of the loop: decode, infer and postprocess one image; whatever raises
      leaves the image with no detections. */
  method DetectImage(session: Session, minConfidence: Option<real>, image: ImageData) returns (detections: seq<Detection>)
    requires session.Valid()
    ensures detections == ImageDetections(session, minConfidence, image)
  {
    detections := [];
    var picture := session.decode(image.dataUrl);
    if picture.Some? {
      var outputs := session.infer(picture.value);
      if outputs.Some? {
        var r;
        if minConfidence.Some? {
          r := Postprocess(outputs.value, minConfidence.value, picture.value.width,
                           picture.value.height, session.inputShape, session.names, session.sigmoid);
        } else {
          r := PostprocessNullThreshold(outputs.value, session.inputShape);
        }
        if r.Ok? {
          detections := r.value;
        }
      }
    }
  }

  // ---------------------------------------------------------------------------------------------
  // What reaches the client when no model is loaded

  /** An exception raised inside the outer `try` of `detect`. */
  datatype Raised = HttpRaised(status: nat) | OtherRaised

  /** As written, the outer `except Exception` turns EVERY exception, the deliberate
      `HTTPException(503)` included, into a 500. */
  function EscapedStatusAsWritten(e: Raised): (status: nat)
    ensures status == InternalServerError
  {
    InternalServerError
  }

  /** The evidently intended handler: an `HTTPException` keeps its own status, anything else is a
      500. */
  function EscapedStatus(e: Raised): (status: nat)
    ensures e.HttpRaised? ==> status == e.status
    ensures e.OtherRaised? ==> status == InternalServerError
  {
    match e
    case HttpRaised(s) => s
    case OtherRaised => InternalServerError
  }

  /** The reply of `detect` as written. */
  function ReplyAsWritten(session: Option<Session>, request: DetectionRequest): Reply
    requires session.Some? ==> session.value.Valid()
  {
    match session
    case None => HttpError(EscapedStatusAsWritten(HttpRaised(ServiceUnavailable)))
    case Some(s) => Body(DetectionResponse(true, Results(s, request.minConfidence, request.images), None))
  }

  /** The reply of `detect` with the 503 left to propagate. */
  function ReplySpec(session: Option<Session>, request: DetectionRequest): Reply
    requires session.Some? ==> session.value.Valid()
  {
    match session
    case None => HttpError(EscapedStatus(HttpRaised(ServiceUnavailable)))
    case Some(s) => Body(DetectionResponse(true, Results(s, request.minConfidence, request.images), None))
  }

  /** Without a model the code as written answers 500, not the 503 it raises for that case; the
      two replies agree whenever a model is loaded. */
  lemma UnavailableMasked(session: Option<Session>, request: DetectionRequest)
    requires session.Some? ==> session.value.Valid()
    ensures session.None? ==> ReplyAsWritten(session, request) == HttpError(InternalServerError)
    ensures session.None? ==> ReplySpec(session, request) == HttpError(ServiceUnavailable)
    ensures session.Some? <==> ReplyAsWritten(session, request) == ReplySpec(session, request)
  {
  }

  /** `detect`: 503 when no model is loaded, else a successful response over all images. */
  method Detect(session: Option<Session>, request: DetectionRequest) returns (reply: Reply)
    requires session.Some? ==> session.value.Valid()
    ensures reply == ReplySpec(session, request)
  {
    if session.None? {
      return HttpError(EscapedStatus(HttpRaised(ServiceUnavailable)));
    }
    var response := ProcessImages(session.value, request);
    return Body(response);
  }
}
