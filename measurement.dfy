/**
 * `measurement.py`, the second calculator variant: both angles are unsigned
 * angles between two vectors, through a clamped arccos.
 */
module Measurement {
  import opened Wrappers
  import opened Geometry
  import opened Markers
  import Analyzer
  import TrafficLight

  /** `np.clip(x, lo, hi)`. */
  function Clip(x: real, lo: real, hi: real): (r: real)
    requires lo <= hi
    ensures lo <= r <= hi
    ensures lo <= x <= hi ==> r == x
    ensures x < lo ==> r == lo
    ensures hi < x ==> r == hi
  {
    if x < lo then lo else if hi < x then hi else x
  }

  /** Clamping twice is clamping once. */
  lemma ClipIdempotent(x: real, lo: real, hi: real)
    requires lo <= hi
    ensures Clip(Clip(x, lo, hi), lo, hi) == Clip(x, lo, hi)
  {
  }

  /** The reference vector of the femur angle: the image's horizontal axis. */
  const Horizontal := Point(1.0, 0.0)

  /**
   * `calculate_angle`: the angle in degrees between two vectors, from the dot
   * product of their unit vectors clamped into [-1, 1]. The source divides by
   * both norms unguarded, so both vectors must be non-zero.
   */
  function CalculateAngle(n: Numerics, v1: Point, v2: Point): (r: real)
    requires Lawful(n)
    requires v1 != Origin && v2 != Origin
    ensures 0.0 <= r <= 180.0
  {
    NormZero(n, v1);
    NormZero(n, v2);
    n.arccosDeg(Clip(UnitDot(n, v1, v2), -1.0, 1.0))
  }

  /** The dot product of the two unit vectors, before the clamp. */
  function UnitDot(n: Numerics, v1: Point, v2: Point): real
    requires Norm(n, v1) != 0.0 && Norm(n, v2) != 0.0
  {
    Dot(Div(v1, Norm(n, v1)), Div(v2, Norm(n, v2)))
  }

  /** Normalising first gives the cosine of the two vectors. */
  lemma UnitDotIsCosine(n: Numerics, v1: Point, v2: Point)
    requires Norm(n, v1) != 0.0 && Norm(n, v2) != 0.0
    ensures UnitDot(n, v1, v2) == Cosine(n, v1, v2)
  {
    var a, b := Norm(n, v1), Norm(n, v2);
    DotOfUnits(v1, v2, a, b);
    assert UnitDot(n, v1, v2) == Dot(Div(v1, a), Div(v2, b));
    assert Cosine(n, v1, v2) == Dot(v1, v2) / (a * b);
  }

  /**
   * In exact arithmetic the clamp never changes its argument: the angle is
   * the arccos of the plain cosine of the two vectors.
   */
  lemma ClipInactiveInExactArithmetic(n: Numerics, v1: Point, v2: Point)
    requires Lawful(n)
    requires v1 != Origin && v2 != Origin
    ensures Norm(n, v1) != 0.0 && Norm(n, v2) != 0.0
    ensures CalculateAngle(n, v1, v2) == n.arccosDeg(Cosine(n, v1, v2))
  {
    NormZero(n, v1);
    NormZero(n, v2);
    UnitDotIsCosine(n, v1, v2);
    CosineInRange(n, v1, v2);
  }

  /** `get_femur_angle` reaches `calculate_angle` with a non-zero vector: a detected hip and knee differ. */
  predicate FemurNonDegenerate(ids: Option<seq<int>>, corners: seq<Quad>)
    requires WellFormed(ids, corners)
  {
    Detected(ids, HipId) && Detected(ids, KneeId) ==> Locate(ids, corners, HipId) != Locate(ids, corners, KneeId)
  }

  /** `get_knee_angle` reaches `calculate_angle` with non-zero vectors: consecutive markers of a detected chain differ. */
  predicate ChainNonDegenerate(ids: Option<seq<int>>, corners: seq<Quad>)
    requires WellFormed(ids, corners)
  {
    Detected(ids, HipId) && Detected(ids, KneeId) && Detected(ids, AnkleId) ==>
      Locate(ids, corners, HipId) != Locate(ids, corners, KneeId) && Locate(ids, corners, KneeId) != Locate(ids, corners, AnkleId)
  }

  /** `get_knee_angle`: the angle between hip-to-knee and knee-to-ankle, if markers 1, 2 and 3 are all detected. */
  function GetKneeAngle(n: Numerics, ids: Option<seq<int>>, corners: seq<Quad>): (r: Option<real>)
    requires Lawful(n) && WellFormed(ids, corners) && ChainNonDegenerate(ids, corners)
    ensures r.Some? <==> Detected(ids, HipId) && Detected(ids, KneeId) && Detected(ids, AnkleId)
    ensures r.Some? ==> 0.0 <= r.value <= 180.0
  {
    if ids.None? then None
    else
      var hip, knee, ankle := Locate(ids, corners, HipId), Locate(ids, corners, KneeId), Locate(ids, corners, AnkleId);
      if hip.Some? && knee.Some? && ankle.Some? then
        SubZero(knee.value, hip.value);
        SubZero(ankle.value, knee.value);
        Some(CalculateAngle(n, Sub(knee.value, hip.value), Sub(ankle.value, knee.value)))
      else None
  }

  /** `get_femur_angle`: the unsigned angle between hip-to-knee and the horizontal, if markers 1 and 2 are detected. */
  function GetFemurAngle(n: Numerics, ids: Option<seq<int>>, corners: seq<Quad>): (r: Option<real>)
    requires Lawful(n) && WellFormed(ids, corners) && FemurNonDegenerate(ids, corners)
    ensures r.Some? <==> Detected(ids, HipId) && Detected(ids, KneeId)
    ensures r.Some? ==> 0.0 <= r.value <= 180.0
  {
    if ids.None? then None
    else
      var hip, knee := Locate(ids, corners, HipId), Locate(ids, corners, KneeId);
      if hip.Some? && knee.Some? then
        SubZero(knee.value, hip.value);
        Some(CalculateAngle(n, Sub(knee.value, hip.value), Horizontal))
      else None
  }

  lemma SubZero(p: Point, q: Point)
    ensures Sub(p, q) == Origin <==> p == q
  {
  }

  /**
   * Where both knee angles exist they are supplementary: the analyzer's knee
   * angle is 180 minus this variant's, and both need the same three markers.
   */
  lemma KneeAnglesSupplementary(n: Numerics, ids: Option<seq<int>>, corners: seq<Quad>)
    requires Lawful(n) && WellFormed(ids, corners) && ChainNonDegenerate(ids, corners)
    ensures Analyzer.CalculateKneeAngle(n, ids, corners).Some? <==> GetKneeAngle(n, ids, corners).Some?
    ensures GetKneeAngle(n, ids, corners).Some? ==>
      Analyzer.CalculateKneeAngle(n, ids, corners).value == 180.0 - GetKneeAngle(n, ids, corners).value
  {
    Analyzer.KneeAngleAbsentIff(n, ids, corners);
    if GetKneeAngle(n, ids, corners).Some? {
      var hip, knee, ankle := Locate(ids, corners, HipId).value, Locate(ids, corners, KneeId).value, Locate(ids, corners, AnkleId).value;
      SubZero(knee, hip);
      SubZero(ankle, knee);
      ClipInactiveInExactArithmetic(n, Sub(knee, hip), Sub(ankle, knee));
    }
  }

  /**
   * This variant's femur angle is never negative, so the traffic light would
   * never show it as a valid squat.
   */
  lemma FemurAngleNeverValidZone(n: Numerics, ids: Option<seq<int>>, corners: seq<Quad>)
    requires Lawful(n) && WellFormed(ids, corners) && FemurNonDegenerate(ids, corners)
    ensures TrafficLight.Classify(GetFemurAngle(n, ids, corners)) != TrafficLight.SquatValid
  {
  }
}
