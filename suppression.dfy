/**
  Greedy, class-blind Non-Maximum Suppression (`apply_nms` of the YOLOv8 server): sort by
  confidence, highest first, then repeatedly keep the best remaining detection and drop every
  remaining one whose IoU with it reaches the threshold.
 */
module Suppression {
  import opened Geometry

  /** `iou_threshold` used by the postprocessing. */
  const DefaultIouThreshold: real := 0.5

  predicate Descending(s: seq<Detection>) {
    forall i, j :: 0 <= i < j < |s| ==> s[i].confidence >= s[j].confidence
  }

  /** `a` is `b` with some elements deleted. */
  predicate IsSubsequence<T(==)>(a: seq<T>, b: seq<T>)
    decreases |b|
  {
    && |a| <= |b|
    && (|a| == 0 || (a[0] == b[0] && IsSubsequence(a[1..], b[1..])) || IsSubsequence(a, b[1..]))
  }

  lemma {:induction false} SubsequenceTransitive<T>(a: seq<T>, b: seq<T>, c: seq<T>)
    requires IsSubsequence(a, b) && IsSubsequence(b, c)
    ensures IsSubsequence(a, c)
    decreases |c|
  {
    if |a| > 0 {
      if IsSubsequence(b, c[1..]) {
        SubsequenceTransitive(a, b, c[1..]);
      } else if a[0] == b[0] && IsSubsequence(a[1..], b[1..]) {
        SubsequenceTransitive(a[1..], b[1..], c[1..]);
      } else {
        SubsequenceTransitive(a, b[1..], c[1..]);
      }
    }
  }

  lemma {:induction false} SubsequenceMembers<T>(a: seq<T>, b: seq<T>)
    requires IsSubsequence(a, b)
    ensures forall x :: x in a ==> x in b
    decreases |b|
  {
    if |a| > 0 {
      if a[0] == b[0] && IsSubsequence(a[1..], b[1..]) {
        SubsequenceMembers(a[1..], b[1..]);
        assert forall x :: x in a ==> x == a[0] || x in a[1..];
      } else {
        SubsequenceMembers(a, b[1..]);
      }
    }
  }

  /** Deleting elements from a sorted list leaves it sorted. */
  lemma {:induction false} SubsequenceDescending(a: seq<Detection>, b: seq<Detection>)
    requires IsSubsequence(a, b) && Descending(b)
    ensures Descending(a)
    decreases |b|
  {
    if |a| > 0 {
      if a[0] == b[0] && IsSubsequence(a[1..], b[1..]) {
        SubsequenceDescending(a[1..], b[1..]);
        SubsequenceMembers(a[1..], b[1..]);
        forall j | 0 < j < |a|
          ensures a[0].confidence >= a[j].confidence
        {
          assert a[j] in a[1..];
        }
        forall i, j | 0 <= i < j < |a|
          ensures a[i].confidence >= a[j].confidence
        {
          if i > 0 {
            assert a[1..][i - 1] == a[i] && a[1..][j - 1] == a[j];
          }
        }
      } else {
        SubsequenceDescending(a, b[1..]);
      }
    }
  }

  // ---------------------------------------------------------------------------------------------
  // `sorted(detections, key=lambda x: x.confidence, reverse=True)`: a stable sort, so detections
  // of equal confidence keep their input order.

  /** A sorted list stays sorted with an element in front that is at least its head. */
  lemma ConsDescending(x: Detection, s: seq<Detection>)
    requires Descending(s) && (|s| > 0 ==> s[0].confidence <= x.confidence)
    ensures Descending([x] + s)
  {
    var r := [x] + s;
    forall i, j | 0 <= i < j < |r|
      ensures r[i].confidence >= r[j].confidence
    {
      if i == 0 {
        assert r[j] == s[j - 1] && s[j - 1].confidence <= s[0].confidence;
      } else {
        assert r[i] == s[i - 1] && r[j] == s[j - 1];
      }
    }
  }

  /** Inserts `d` in front of the first element whose confidence does not exceed its own. */
  function Insert(d: Detection, s: seq<Detection>): (r: seq<Detection>)
    requires Descending(s)
    ensures |r| == |s| + 1 && (r[0] == d || (|s| > 0 && r[0] == s[0]))
    ensures Descending(r)
    ensures multiset(r) == multiset(s) + multiset{d}
  {
    if |s| == 0 || s[0].confidence <= d.confidence then
      ConsDescending(d, s);
      [d] + s
    else
      var rest := Insert(d, s[1..]);
      ConsDescending(s[0], rest);
      assert s == [s[0]] + s[1..];
      [s[0]] + rest
  }

  function SortByConfidence(s: seq<Detection>): (r: seq<Detection>)
    ensures Descending(r)
    ensures multiset(r) == multiset(s)
  {
    if |s| == 0 then []
    else
      assert s == [s[0]] + s[1..];
      Insert(s[0], SortByConfidence(s[1..]))
  }

  /** Sorting an already sorted list returns it unchanged (stability). */
  lemma {:induction false} SortDescendingIsIdentity(s: seq<Detection>)
    requires Descending(s)
    ensures SortByConfidence(s) == s
  {
    if |s| > 0 {
      assert Descending(s[1..]);
      SortDescendingIsIdentity(s[1..]);
      assert [s[0]] + s[1..] == s;
    }
  }

  // ---------------------------------------------------------------------------------------------
  // The greedy loop

  /** The `remaining` list: detections whose IoU with `best` stays below the threshold. */
  function Survivors(best: Detection, s: seq<Detection>, threshold: real): (r: seq<Detection>)
    ensures |r| <= |s|
  {
    if |s| == 0 then []
    else
      var rest := Survivors(best, s[1..], threshold);
      if IoU(best.bbox, s[0].bbox) < threshold then [s[0]] + rest else rest
  }

  /** The survivors are the input with the suppressed detections deleted. */
  lemma {:induction false} SurvivorsSubsequence(best: Detection, s: seq<Detection>, threshold: real)
    ensures IsSubsequence(Survivors(best, s, threshold), s)
    ensures forall d :: d in Survivors(best, s, threshold) <==> d in s && IoU(best.bbox, d.bbox) < threshold
  {
    if |s| > 0 {
      var rest := Survivors(best, s[1..], threshold);
      SurvivorsSubsequence(best, s[1..], threshold);
      assert forall d :: d in s <==> d == s[0] || d in s[1..];
      if IoU(best.bbox, s[0].bbox) < threshold {
        assert ([s[0]] + rest)[1..] == rest;
      }
    }
  }

  lemma {:induction false} SurvivorsAppend(best: Detection, s: seq<Detection>, x: Detection, threshold: real)
    ensures Survivors(best, s + [x], threshold)
         == Survivors(best, s, threshold) + (if IoU(best.bbox, x.bbox) < threshold then [x] else [])
  {
    if |s| > 0 {
      assert (s + [x])[1..] == s[1..] + [x];
      SurvivorsAppend(best, s[1..], x, threshold);
    }
  }

  /** When nothing overlaps `best` enough, nothing is removed. */
  lemma {:induction false} SurvivorsKeepAll(best: Detection, s: seq<Detection>, threshold: real)
    requires forall k :: 0 <= k < |s| ==> IoU(best.bbox, s[k].bbox) < threshold
    ensures Survivors(best, s, threshold) == s
  {
    if |s| > 0 {
      SurvivorsKeepAll(best, s[1..], threshold);
      assert [s[0]] + s[1..] == s;
    }
  }

  /** Keep the head, drop what it suppresses, repeat on the rest. */
  function Greedy(s: seq<Detection>, threshold: real): (r: seq<Detection>)
    ensures |r| <= |s|
    ensures |s| > 0 ==> |r| > 0 && r[0] == s[0]
    decreases |s|
  {
    if |s| == 0 then []
    else
      var rest := Survivors(s[0], s[1..], threshold);
      [s[0]] + Greedy(rest, threshold)
  }

  /** `apply_nms(detections, iou_threshold)`. */
  function Nms(detections: seq<Detection>, threshold: real): (r: seq<Detection>)
    ensures |r| <= |detections|
    ensures |r| == 0 <==> |detections| == 0
  {
    if |detections| == 0 then []
    else
      var sorted := SortByConfidence(detections);
      assert |sorted| == |multiset(sorted)| == |multiset(detections)| == |detections|;
      Greedy(sorted, threshold)
  }

  /** A lone detection is kept. */
  lemma NmsSingle(d: Detection, threshold: real)
    ensures Nms([d], threshold) == [d]
  {
    var single := [d];
    assert single[1..] == [];
    assert SortByConfidence(single) == single;
    assert Greedy(single, threshold) == [d] + Greedy([], threshold);
  }

  lemma {:induction false} GreedySubsequence(s: seq<Detection>, threshold: real)
    ensures IsSubsequence(Greedy(s, threshold), s)
    decreases |s|
  {
    if |s| > 0 {
      var rest := Survivors(s[0], s[1..], threshold);
      GreedySubsequence(rest, threshold);
      SurvivorsSubsequence(s[0], s[1..], threshold);
      SubsequenceTransitive(Greedy(rest, threshold), rest, s[1..]);
      var r := Greedy(s, threshold);
      assert r[0] == s[0] && r[1..] == Greedy(rest, threshold);
    }
  }

  /** Later kept detections never overlap earlier ones enough to be suppressed. */
  lemma {:induction false} GreedySeparated(s: seq<Detection>, threshold: real)
    ensures var r := Greedy(s, threshold);
            forall i, j :: 0 <= i < j < |r| ==> IoU(r[i].bbox, r[j].bbox) < threshold
    decreases |s|
  {
    if |s| > 0 {
      var rest := Survivors(s[0], s[1..], threshold);
      GreedySeparated(rest, threshold);
      GreedySubsequence(rest, threshold);
      SurvivorsSubsequence(s[0], s[1..], threshold);
      SubsequenceMembers(Greedy(rest, threshold), rest);
      var r := Greedy(s, threshold);
      assert r[1..] == Greedy(rest, threshold);
      forall i, j | 0 <= i < j < |r|
        ensures IoU(r[i].bbox, r[j].bbox) < threshold
      {
        assert r[j] == r[1..][j - 1];
        if i > 0 {
          assert r[i] == r[1..][i - 1];
        } else {
          assert r[j] in rest;
        }
      }
    }
  }

  /** Every input detection is kept or overlaps a kept one by at least the threshold. */
  lemma {:induction false} GreedyCovers(s: seq<Detection>, threshold: real)
    ensures var r := Greedy(s, threshold);
            forall d :: d in s ==> d in r || exists k :: 0 <= k < |r| && IoU(r[k].bbox, d.bbox) >= threshold
    decreases |s|
  {
    if |s| > 0 {
      var rest := Survivors(s[0], s[1..], threshold);
      GreedyCovers(rest, threshold);
      SurvivorsSubsequence(s[0], s[1..], threshold);
      var r := Greedy(s, threshold);
      var g := Greedy(rest, threshold);
      assert r == [s[0]] + g;
      forall d | d in s
        ensures d in r || exists k :: 0 <= k < |r| && IoU(r[k].bbox, d.bbox) >= threshold
      {
        if d != s[0] {
          assert d in s[1..];
          if d in rest {
            if d !in g {
              var k :| 0 <= k < |g| && IoU(g[k].bbox, d.bbox) >= threshold;
              assert r[k + 1] == g[k];
            }
          } else {
            assert IoU(r[0].bbox, d.bbox) >= threshold;
          }
        }
      }
    }
  }

  /** A list with no suppressing pair passes through the greedy loop unchanged. */
  lemma {:induction false} GreedySeparatedIsIdentity(s: seq<Detection>, threshold: real)
    requires forall i, j :: 0 <= i < j < |s| ==> IoU(s[i].bbox, s[j].bbox) < threshold
    ensures Greedy(s, threshold) == s
    decreases |s|
  {
    if |s| > 0 {
      forall k | 0 <= k < |s[1..]|
        ensures IoU(s[0].bbox, s[1..][k].bbox) < threshold
      {
        assert s[1..][k] == s[k + 1];
      }
      SurvivorsKeepAll(s[0], s[1..], threshold);
      GreedySeparatedIsIdentity(s[1..], threshold);
      assert [s[0]] + s[1..] == s;
    }
  }

  // ---------------------------------------------------------------------------------------------
  // Properties of `apply_nms`

  /** The result is the confidence-sorted input with some detections deleted. */
  lemma NmsSubsequence(detections: seq<Detection>, threshold: real)
    ensures IsSubsequence(Nms(detections, threshold), SortByConfidence(detections))
  {
    GreedySubsequence(SortByConfidence(detections), threshold);
  }

  /** The result is in non-increasing confidence order and holds only input detections. */
  lemma NmsDescending(detections: seq<Detection>, threshold: real)
    ensures Descending(Nms(detections, threshold))
    ensures forall d :: d in Nms(detections, threshold) ==> d in detections
  {
    var sorted := SortByConfidence(detections);
    NmsSubsequence(detections, threshold);
    SubsequenceDescending(Nms(detections, threshold), sorted);
    SubsequenceMembers(Nms(detections, threshold), sorted);
    assert forall d :: d in sorted ==> d in multiset(detections);
  }

  /** A non-empty input keeps its most confident detection at the front. */
  lemma NmsFirstIsMaximal(detections: seq<Detection>, threshold: real)
    requires |detections| > 0
    ensures |Nms(detections, threshold)| > 0
    ensures forall k :: 0 <= k < |detections| ==>
              detections[k].confidence <= Nms(detections, threshold)[0].confidence
  {
    var sorted := SortByConfidence(detections);
    assert |sorted| == |detections| by {
      assert |multiset(sorted)| == |multiset(detections)|;
    }
    forall k | 0 <= k < |detections|
      ensures detections[k].confidence <= sorted[0].confidence
    {
      assert detections[k] in multiset(sorted);
    }
  }

  /** Class-blind separation: no two kept detections overlap by the threshold or more. */
  lemma NmsSeparated(detections: seq<Detection>, threshold: real)
    ensures var r := Nms(detections, threshold);
            forall i, j :: 0 <= i < j < |r| ==> IoU(r[i].bbox, r[j].bbox) < threshold
  {
    if |detections| > 0 {
      GreedySeparated(SortByConfidence(detections), threshold);
      assert Nms(detections, threshold) == Greedy(SortByConfidence(detections), threshold);
    }
  }

  /** Nothing is dropped without cause: a dropped detection overlaps a kept one. */
  lemma NmsCovers(detections: seq<Detection>, threshold: real)
    ensures var r := Nms(detections, threshold);
            forall d :: d in detections ==>
              d in r || exists k :: 0 <= k < |r| && IoU(r[k].bbox, d.bbox) >= threshold
  {
    if |detections| > 0 {
      var sorted := SortByConfidence(detections);
      GreedyCovers(sorted, threshold);
      assert Nms(detections, threshold) == Greedy(sorted, threshold);
      forall d | d in detections
        ensures d in sorted
      {
        assert d in multiset(sorted);
      }
    }
  }

  /** Running the suppression again on its own output changes nothing. */
  lemma NmsIdempotent(detections: seq<Detection>, threshold: real)
    ensures Nms(Nms(detections, threshold), threshold) == Nms(detections, threshold)
  {
    var r := Nms(detections, threshold);
    NmsDescending(detections, threshold);
    NmsSeparated(detections, threshold);
    SortDescendingIsIdentity(r);
    GreedySeparatedIsIdentity(r, threshold);
  }

  /** Two detections with the same box: only the more confident one survives. */
  lemma NmsDuplicateBoxExample()
    ensures var box := Box(10.0, 10.0, 50.0, 90.0);
            var a := Detection("shell", 0.8, box);
            var b := Detection("shell", 0.9, box);
            Nms([a, b], DefaultIouThreshold) == [b]
  {
    var box := Box(10.0, 10.0, 50.0, 90.0);
    var a := Detection("shell", 0.8, box);
    var b := Detection("shell", 0.9, box);
    IoUIdentical(box);
    assert SortByConfidence([a, b]) == [b, a] by {
      assert [a, b][1..] == [b];
      assert SortByConfidence([b]) == [b];
    }
    assert Survivors(b, [a], DefaultIouThreshold) == [];
  }

  // ---------------------------------------------------------------------------------------------
  // The loop as the source writes it

  /** Pops the best detection into `keep`, then rebuilds the remaining list. */
  method ApplyNms(detections: seq<Detection>, iouThreshold: real) returns (keep: seq<Detection>)
    ensures keep == Nms(detections, iouThreshold)
  {
    if |detections| == 0 {
      return [];
    }
    var pending := SortByConfidence(detections);
    keep := [];
    while |pending| > 0
      invariant keep + Greedy(pending, iouThreshold) == Nms(detections, iouThreshold)
      decreases |pending|
    {
      var best := pending[0];
      var rest := pending[1..];
      GreedyStep(keep, pending, iouThreshold);
      keep := keep + [best];
      pending := RemoveOverlapping(best, rest, iouThreshold);
    }
  }

  /** The inner loop: the detections whose IoU with `best` stays below the threshold, in order. */
  method RemoveOverlapping(best: Detection, detections: seq<Detection>, iouThreshold: real)
    returns (remaining: seq<Detection>)
    ensures remaining == Survivors(best, detections, iouThreshold)
  {
    remaining := [];
    for k := 0 to |detections|
      invariant remaining == Survivors(best, detections[..k], iouThreshold)
    {
      SurvivorsAppend(best, detections[..k], detections[k], iouThreshold);
      assert detections[..k + 1] == detections[..k] + [detections[k]];
      if IoU(best.bbox, detections[k].bbox) < iouThreshold {
        remaining := remaining + [detections[k]];
      }
    }
    assert detections[..|detections|] == detections;
  }

  /** One round of the loop: the head moves to the kept list, its survivors stay pending. */
  lemma GreedyStep(keep: seq<Detection>, pending: seq<Detection>, threshold: real)
    requires |pending| > 0
    ensures keep + Greedy(pending, threshold)
         == (keep + [pending[0]]) + Greedy(Survivors(pending[0], pending[1..], threshold), threshold)
  {
  }
}
