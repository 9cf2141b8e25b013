/**
  Boxes and detections as both servers build them: centre format in model pixels is turned into
  corner format, scaled into image pixels and clipped to the image; the class id is named through
  a class table with a synthetic fallback. Also the Intersection-over-Union of two boxes.
 */
module Geometry {
  import opened Wrappers

  /** Corner format `[x1, y1, x2, y2]` in image pixels. */
  datatype Box = Box(x1: real, y1: real, x2: real, y2: real)

  /** The `Detection` record sent back to the client. */
  datatype Detection = Detection(className: string, confidence: real, bbox: Box)

  /** Edge of the square network input when the model declares no input shape. */
  const DefaultModelSize: nat := 640

  function Min(a: real, b: real): real { if b < a then b else a }
  function Max(a: real, b: real): real { if b > a then b else a }

  // ---------------------------------------------------------------------------------------------
  // Model input size

  /** A declared ONNX input shape such as [1, 3, 640, 640] whose third entry, the only one used
      as a divisor, is not zero. */
  predicate ModelSizeNonZero(inputShape: seq<nat>) {
    |inputShape| > 2 ==> inputShape[2] > 0
  }

  /** `input_shape[2] if input_shape else 640`: an empty shape selects the default, a shape with
      one or two entries raises IndexError, otherwise the third entry (the input height) is used
      for BOTH axes. */
  function ModelSize(inputShape: seq<nat>): (r: Result<nat>)
    requires ModelSizeNonZero(inputShape)
    ensures r.Ok? ==> r.value > 0
    ensures r.Ok? <==> |inputShape| != 1 && |inputShape| != 2
    ensures r.Ok? && |inputShape| > 0 ==> r.value == inputShape[2]
    ensures |inputShape| == 0 ==> r == Ok(DefaultModelSize)
  {
    if |inputShape| == 0 then Ok(DefaultModelSize)
    else if |inputShape| > 2 then Ok(inputShape[2])
    else Err(IndexError)
  }

  // ---------------------------------------------------------------------------------------------
  // Scaling and clipping

  /** `max(0, min(v, limit))`: the nearest point of [0, limit]. */
  function Clip(v: real, limit: real): (r: real)
    requires limit >= 0.0
    ensures 0.0 <= r <= limit
    ensures 0.0 <= v <= limit ==> r == v
    ensures v < 0.0 ==> r == 0.0
    ensures v > limit ==> r == limit
  {
    Max(0.0, Min(v, limit))
  }

  /** Clipping keeps the order of two coordinates. */
  lemma ClipMonotone(u: real, v: real, limit: real)
    requires limit >= 0.0 && u <= v
    ensures Clip(u, limit) <= Clip(v, limit)
  {
  }

  /** The box lies inside the image [0, width] x [0, height]. */
  predicate InImage(b: Box, imgWidth: nat, imgHeight: nat) {
    && 0.0 <= b.x1 <= imgWidth as real && 0.0 <= b.x2 <= imgWidth as real
    && 0.0 <= b.y1 <= imgHeight as real && 0.0 <= b.y2 <= imgHeight as real
  }

  /** Corner form of a centre-format box, scaled from model space and clipped. */
  function ImageBox(xCenter: real, yCenter: real, width: real, height: real,
                    imgWidth: nat, imgHeight: nat, modelSize: nat): (b: Box)
    requires modelSize > 0
    ensures InImage(b, imgWidth, imgHeight)
  {
    var m := modelSize as real;
    var x1 := (xCenter - width / 2.0) * imgWidth as real / m;
    var y1 := (yCenter - height / 2.0) * imgHeight as real / m;
    var x2 := (xCenter + width / 2.0) * imgWidth as real / m;
    var y2 := (yCenter + height / 2.0) * imgHeight as real / m;
    Box(Clip(x1, imgWidth as real), Clip(y1, imgHeight as real),
        Clip(x2, imgWidth as real), Clip(y2, imgHeight as real))
  }

  /** Scaling by a non-negative factor keeps the order of two coordinates. */
  lemma ScaleMonotone(u: real, v: real, dim: nat, modelSize: nat)
    requires u <= v && modelSize > 0
    ensures u * dim as real / modelSize as real <= v * dim as real / modelSize as real
  {
    var d, m := dim as real, modelSize as real;
    var gap := v - u;
    assert gap * d >= 0.0 by {
      NonNegativeProduct(gap, d);
    }
    assert v * d == u * d + gap * d;
    var p, q := u * d, v * d;
    assert q / m == p / m + (gap * d) / m;
    assert (gap * d) / m >= 0.0;
  }

  lemma NonNegativeProduct(a: real, b: real)
    requires a >= 0.0 && b >= 0.0
    ensures a * b >= 0.0
  {
  }

  /** A box of non-negative width and height keeps x1 <= x2 and y1 <= y2 after clipping. */
  lemma ImageBoxOrdered(xCenter: real, yCenter: real, width: real, height: real,
                        imgWidth: nat, imgHeight: nat, modelSize: nat)
    requires modelSize > 0 && width >= 0.0 && height >= 0.0
    ensures var b := ImageBox(xCenter, yCenter, width, height, imgWidth, imgHeight, modelSize);
            b.x1 <= b.x2 && b.y1 <= b.y2
  {
    ScaleMonotone(xCenter - width / 2.0, xCenter + width / 2.0, imgWidth, modelSize);
    ScaleMonotone(yCenter - height / 2.0, yCenter + height / 2.0, imgHeight, modelSize);
    var m := modelSize as real;
    ClipMonotone((xCenter - width / 2.0) * imgWidth as real / m,
                 (xCenter + width / 2.0) * imgWidth as real / m, imgWidth as real);
    ClipMonotone((yCenter - height / 2.0) * imgHeight as real / m,
                 (yCenter + height / 2.0) * imgHeight as real / m, imgHeight as real);
  }

  /** Centre (320, 320), size 100 x 200, in a 640 x 640 image with a 640 model input. */
  lemma ImageBoxExample()
    ensures ImageBox(320.0, 320.0, 100.0, 200.0, 640, 640, 640) == Box(270.0, 220.0, 370.0, 420.0)
  {
  }

  // ---------------------------------------------------------------------------------------------
  // Class names

  function DigitChar(d: nat): (c: char)
    requires d < 10
    ensures '0' <= c <= '9' && c as int - '0' as int == d
  {
    ('0' as int + d) as char
  }

  predicate AllDigits(s: string) {
    forall k :: 0 <= k < |s| ==> '0' <= s[k] <= '9'
  }

  /** Python's `str(n)` for a non-negative int: decimal digits without leading zeros. */
  function Decimal(n: nat): (s: string)
    ensures |s| > 0 && AllDigits(s)
    ensures s[0] == '0' ==> n == 0
  {
    if n < 10 then [DigitChar(n)] else Decimal(n / 10) + [DigitChar(n % 10)]
  }

  /** The number a string of decimal digits denotes. */
  function DigitsValue(s: string): nat
    requires AllDigits(s)
  {
    if |s| == 0 then 0 else DigitsValue(s[..|s| - 1]) * 10 + (s[|s| - 1] as int - '0' as int)
  }

  /** Reading back the decimal string gives the number. */
  lemma {:induction false} DecimalRoundTrip(n: nat)
    ensures DigitsValue(Decimal(n)) == n
  {
    if n >= 10 {
      DecimalRoundTrip(n / 10);
      var s := Decimal(n);
      assert s[..|s| - 1] == Decimal(n / 10);
    }
  }

  /** `names.get(classId, prefix + str(classId))`: never an error. */
  function ClassName(names: map<nat, string>, fallbackPrefix: string, classId: nat): (s: string)
    ensures classId in names ==> s == names[classId]
    ensures classId !in names ==> |s| > |fallbackPrefix| && s[..|fallbackPrefix|] == fallbackPrefix
  {
    if classId in names then names[classId] else fallbackPrefix + Decimal(classId)
  }

  /** A fallback name carries the id: the digits after the prefix spell `classId`. */
  lemma FallbackNameNamesId(names: map<nat, string>, fallbackPrefix: string, classId: nat)
    requires classId !in names
    ensures var s := ClassName(names, fallbackPrefix, classId);
            AllDigits(s[|fallbackPrefix|..]) && DigitsValue(s[|fallbackPrefix|..]) == classId
  {
    var s := ClassName(names, fallbackPrefix, classId);
    assert s[|fallbackPrefix|..] == Decimal(classId);
    DecimalRoundTrip(classId);
  }

  // ---------------------------------------------------------------------------------------------
  // Intersection over Union

  function Area(b: Box): real {
    (b.x2 - b.x1) * (b.y2 - b.y1)
  }

  /** The intersection rectangle; inverted when the boxes do not overlap. */
  function Meet(a: Box, b: Box): Box {
    Box(Max(a.x1, b.x1), Max(a.y1, b.y1), Min(a.x2, b.x2), Min(a.y2, b.y2))
  }

  predicate Inverted(b: Box) {
    b.x2 < b.x1 || b.y2 < b.y1
  }

  predicate WellFormed(b: Box) {
    b.x1 <= b.x2 && b.y1 <= b.y2
  }

  /** `compute_iou`: 0 for an inverted intersection or an empty union, else intersection / union. */
  function IoU(a: Box, b: Box): (r: real)
    ensures Inverted(Meet(a, b)) ==> r == 0.0
    ensures Area(a) + Area(b) - Area(Meet(a, b)) == 0.0 ==> r == 0.0
  {
    var i := Meet(a, b);
    if Inverted(i) then 0.0
    else
      var union := Area(a) + Area(b) - Area(i);
      if union == 0.0 then 0.0 else Area(i) / union
  }

  lemma IoUSymmetric(a: Box, b: Box)
    ensures IoU(a, b) == IoU(b, a)
  {
    assert Meet(a, b) == Meet(b, a);
  }

  /** Two identical boxes of positive area overlap completely. */
  lemma IoUIdentical(a: Box)
    requires a.x1 < a.x2 && a.y1 < a.y2
    ensures IoU(a, a) == 1.0
  {
    assert Meet(a, a) == a;
    var w, h := a.x2 - a.x1, a.y2 - a.y1;
    PositiveProduct(w, h);
    var area := Area(a);
    assert area == w * h;
    assert area > 0.0;
    assert area + area - area == area;
    assert area / area == 1.0;
  }

  /** Boxes whose interiors are disjoint (side by side or one above the other, touching allowed)
      do not overlap at all. */
  lemma IoUDisjoint(a: Box, b: Box)
    requires a.x2 <= b.x1 || b.x2 <= a.x1 || a.y2 <= b.y1 || b.y2 <= a.y1
    ensures IoU(a, b) == 0.0
  {
    var i := Meet(a, b);
    if !Inverted(i) {
      assert i.x2 - i.x1 == 0.0 || i.y2 - i.y1 == 0.0;
      assert Area(i) == 0.0;
    }
  }

  lemma PositiveProduct(a: real, b: real)
    requires a > 0.0 && b > 0.0
    ensures a * b > 0.0
  {
  }

  /** 0 <= a <= b and 0 <= c <= d give a * c <= b * d. */
  lemma ProductMonotone(a: real, b: real, c: real, d: real)
    requires 0.0 <= a <= b && 0.0 <= c <= d
    ensures 0.0 <= a * c <= b * d
  {
    NonNegativeProduct(b - a, c);
    NonNegativeProduct(b, d - c);
    NonNegativeProduct(a, c);
  }

  /** A part of a positive whole is a fraction in [0, 1]. */
  lemma FractionBounds(part: real, whole: real)
    requires 0.0 <= part <= whole && whole > 0.0
    ensures 0.0 <= part / whole <= 1.0
  {
    var f := part / whole;
    assert f * whole == part;
  }

  /** The intersection of two well-formed boxes, when not inverted, is no larger than either. */
  lemma MeetArea(a: Box, b: Box)
    requires WellFormed(a) && WellFormed(b) && !Inverted(Meet(a, b))
    ensures 0.0 <= Area(Meet(a, b)) <= Area(a)
    ensures Area(Meet(a, b)) <= Area(b)
  {
    var i := Meet(a, b);
    var iw, ih := i.x2 - i.x1, i.y2 - i.y1;
    assert 0.0 <= iw <= a.x2 - a.x1 && iw <= b.x2 - b.x1;
    assert 0.0 <= ih <= a.y2 - a.y1 && ih <= b.y2 - b.y1;
    ProductMonotone(iw, a.x2 - a.x1, ih, a.y2 - a.y1);
    ProductMonotone(iw, b.x2 - b.x1, ih, b.y2 - b.y1);
  }

  /** For well-formed boxes the IoU is a ratio in [0, 1]. */
  lemma IoUBounds(a: Box, b: Box)
    requires WellFormed(a) && WellFormed(b)
    ensures 0.0 <= IoU(a, b) <= 1.0
  {
    var i := Meet(a, b);
    if !Inverted(i) {
      MeetArea(a, b);
      var inter, union := Area(i), Area(a) + Area(b) - Area(i);
      if union != 0.0 {
        FractionBounds(inter, union);
        assert IoU(a, b) == inter / union;
      }
    }
  }
}
