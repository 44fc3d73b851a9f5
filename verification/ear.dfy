/** The eye-aspect-ratio (EAR) openness score and the per-frame blink
    classification of both eyes over the detected face meshes. */
module Ear {
  import opened Common

  /** A face-mesh landmark in normalised image coordinates. */
  datatype Landmark = Landmark(x: real, y: real)

  /** Euclidean distance between two pixel points, left abstract. */
  type Distance = (Point, Point) -> real

  ghost predicate NonNegative(dist: Distance) {
    forall p, q :: dist(p, q) >= 0.0
  }

  /** Mesh indices of the six contour points of each eye: corner, two upper
      lid points, the other corner, two lower lid points. */
  const LeftEye: seq<nat> := [33, 160, 158, 133, 153, 144]
  const RightEye: seq<nat> := [362, 385, 387, 263, 373, 380]

  /** A mesh holds every landmark either eye contour refers to. */
  predicate CoversEyes(lm: seq<Landmark>) {
    |lm| > 387
  }

  /** Average of the two lid distances over twice the corner distance;
      a degenerate eye with coincident corners scores 0.0. */
  function Ratio(v1: real, v2: real, h: real): (r: real)
    ensures h == 0.0 ==> r == 0.0
    ensures h != 0.0 ==> r * (2.0 * h) == v1 + v2
    ensures v1 >= 0.0 && v2 >= 0.0 && h >= 0.0 ==> r >= 0.0
  {
    if h == 0.0 then 0.0 else (v1 + v2) / (2.0 * h)
  }

  /** Landmark `lm[i]` scaled to pixel coordinates of a `w` by `h` image. */
  function Pixel(lm: seq<Landmark>, i: nat, w: real, h: real): Point
    requires i < |lm|
  {
    Point(lm[i].x * w, lm[i].y * h)
  }

  /** calculate_ear: the openness score of the eye whose contour is `idx`. */
  function CalculateEar(lm: seq<Landmark>, idx: seq<nat>, w: real, h: real, dist: Distance): (r: real)
    requires |idx| == 6
    requires forall k :: 0 <= k < 6 ==> idx[k] < |lm|
    ensures var hd := dist(Pixel(lm, idx[0], w, h), Pixel(lm, idx[3], w, h));
            var v := dist(Pixel(lm, idx[1], w, h), Pixel(lm, idx[5], w, h))
                   + dist(Pixel(lm, idx[2], w, h), Pixel(lm, idx[4], w, h));
            (hd == 0.0 ==> r == 0.0) && (hd != 0.0 ==> r * (2.0 * hd) == v)
    ensures NonNegative(dist) ==> r >= 0.0
  {
    var v1 := dist(Pixel(lm, idx[1], w, h), Pixel(lm, idx[5], w, h));
    var v2 := dist(Pixel(lm, idx[2], w, h), Pixel(lm, idx[4], w, h));
    var hd := dist(Pixel(lm, idx[0], w, h), Pixel(lm, idx[3], w, h));
    Ratio(v1, v2, hd)
  }

  /** The closed classification `ear < threshold` restated over the
      distances: for a proper eye it compares the lid opening with the
      corner distance; a degenerate eye counts as closed exactly when the
      threshold is positive. */
  lemma ClosedIff(v1: real, v2: real, h: real, threshold: real)
    requires h >= 0.0
    ensures h > 0.0 ==> (Ratio(v1, v2, h) < threshold <==> v1 + v2 < 2.0 * threshold * h)
    ensures h == 0.0 ==> (Ratio(v1, v2, h) < threshold <==> 0.0 < threshold)
  {
  }

  /** The score depends only on the shape of the eye: scaling every
      distance by the same positive factor leaves it unchanged. */
  lemma ScaleInvariant(v1: real, v2: real, h: real, k: real)
    requires k > 0.0
    ensures Ratio(k * v1, k * v2, k * h) == Ratio(v1, v2, h)
  {
  }

  /** An eye contour whose indices every mesh that covers the eyes holds. */
  predicate Contour(idx: seq<nat>) {
    |idx| == 6 && forall k :: 0 <= k < 6 ==> idx[k] <= 387
  }

  predicate AllCoverEyes(faces: seq<seq<Landmark>>) {
    forall i :: 0 <= i < |faces| ==> CoversEyes(faces[i])
  }

  /** What the meshes yield for one eye: its reported score and whether it
      was classified as closed. */
  datatype EyeReading = EyeReading(ear: real, blink: bool)

  /** The loop over `multi_face_landmarks`, for the eye with contour `idx`:
      each face overwrites the score and may set, never clear, the blink
      flag. */
  function EyeScan(faces: seq<seq<Landmark>>, idx: seq<nat>, w: real, h: real,
                   dist: Distance, threshold: real): EyeReading
    requires Contour(idx) && AllCoverEyes(faces)
    decreases |faces|
  {
    if |faces| == 0 then EyeReading(0.0, false)
    else
      var prev := EyeScan(faces[..|faces| - 1], idx, w, h, dist, threshold);
      var ear := CalculateEar(faces[|faces| - 1], idx, w, h, dist);
      EyeReading(ear, prev.blink || ear < threshold)
  }

  /** The reported score is that of the last face, while the eye counts as
      blinking when it is below the threshold in ANY face. No face: score
      0.0 and no blink. */
  lemma {:induction false} EyeScanReading(faces: seq<seq<Landmark>>, idx: seq<nat>, w: real, h: real,
                                          dist: Distance, threshold: real)
    requires Contour(idx) && AllCoverEyes(faces)
    ensures var r := EyeScan(faces, idx, w, h, dist, threshold);
            && (|faces| == 0 ==> r == EyeReading(0.0, false))
            && (|faces| > 0 ==> r.ear == CalculateEar(faces[|faces| - 1], idx, w, h, dist))
            && (r.blink <==> exists i :: 0 <= i < |faces| && CalculateEar(faces[i], idx, w, h, dist) < threshold)
            && (NonNegative(dist) ==> r.ear >= 0.0)
    decreases |faces|
  {
    if |faces| > 0 {
      var init := faces[..|faces| - 1];
      assert forall i :: 0 <= i < |init| ==> init[i] == faces[i];
      EyeScanReading(init, idx, w, h, dist, threshold);
    }
  }

  /** What one frame's meshes yield for the two eyes. */
  datatype EyeReadings = EyeReadings(earLeft: real, earRight: real, blinkLeft: bool, blinkRight: bool)

  /** Both eyes of one frame; the two eyes are scanned independently. */
  function Scan(faces: seq<seq<Landmark>>, w: real, h: real, dist: Distance, threshold: real): EyeReadings
    requires AllCoverEyes(faces)
  {
    assert Contour(LeftEye) && Contour(RightEye);
    var l := EyeScan(faces, LeftEye, w, h, dist, threshold);
    var r := EyeScan(faces, RightEye, w, h, dist, threshold);
    EyeReadings(l.ear, r.ear, l.blink, r.blink)
  }

  /** The two eyes' scores come from the last face, each blink flag is set
      when its eye is below the threshold in any face, and a frame without
      faces reports 0.0 scores and no blink. */
  lemma ScanReadings(faces: seq<seq<Landmark>>, w: real, h: real, dist: Distance, threshold: real)
    requires AllCoverEyes(faces)
    ensures var r := Scan(faces, w, h, dist, threshold);
            && (|faces| == 0 ==> r == EyeReadings(0.0, 0.0, false, false))
            && (|faces| > 0 ==>
                  && r.earLeft == CalculateEar(faces[|faces| - 1], LeftEye, w, h, dist)
                  && r.earRight == CalculateEar(faces[|faces| - 1], RightEye, w, h, dist))
            && (r.blinkLeft <==> exists i :: 0 <= i < |faces| && CalculateEar(faces[i], LeftEye, w, h, dist) < threshold)
            && (r.blinkRight <==> exists i :: 0 <= i < |faces| && CalculateEar(faces[i], RightEye, w, h, dist) < threshold)
            && (NonNegative(dist) ==> r.earLeft >= 0.0 && r.earRight >= 0.0)
  {
    assert Contour(LeftEye) && Contour(RightEye);
    EyeScanReading(faces, LeftEye, w, h, dist, threshold);
    EyeScanReading(faces, RightEye, w, h, dist, threshold);
  }
}
