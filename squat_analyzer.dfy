/**
 * `SquatAnalyzer` (the variant the application uses): femur angle, knee angle
 * and handle height from the detector's ids and corners, and the two flags the
 * traffic light keeps on the analyzer object.
 */
module Analyzer {
  import opened Wrappers
  import opened Geometry
  import opened Markers
  import opened TrafficLight

  /** The physical width of the handle marker, in centimetres. */
  const MarkerWidthCm: real := 5.7

  /**
   * The signed angle of the hip-to-knee vector against the image's horizontal
   * axis, from the first corners of markers 1 and 2.
   */
  function CalculateFemurAngle(n: Numerics, ids: Option<seq<int>>, corners: seq<Quad>): (r: Option<real>)
    requires WellFormed(ids, corners)
    ensures r.Some? <==> Detected(ids, HipId) && Detected(ids, KneeId)
  {
    if ids.None? then None
    else
      var hip, knee := Locate(ids, corners, HipId), Locate(ids, corners, KneeId);
      if hip.Some? && knee.Some? then
        var femur := Sub(knee.value, hip.value);
        Some(n.atan2Deg(femur.y, femur.x))
      else None
  }

  /** The femur angle lies in [-180, 180] degrees. */
  lemma FemurAngleRange(n: Numerics, ids: Option<seq<int>>, corners: seq<Quad>)
    requires Lawful(n) && WellFormed(ids, corners)
    ensures var r := CalculateFemurAngle(n, ids, corners);
      r.Some? ==> -180.0 <= r.value <= 180.0
  {
  }

  /**
   * The femur angle is negative (the valid zone) exactly when the knee marker
   * is above the hip marker in the image (smaller y, the y axis pointing down).
   */
  lemma FemurAngleNegativeIffKneeAboveHip(n: Numerics, ids: Option<seq<int>>, corners: seq<Quad>)
    requires Lawful(n) && WellFormed(ids, corners)
    requires Detected(ids, HipId) && Detected(ids, KneeId)
    ensures CalculateFemurAngle(n, ids, corners).value < 0.0
        <==> Locate(ids, corners, KneeId).value.y < Locate(ids, corners, HipId).value.y
  {
  }

  /** The femur angle is taken between the first corners of the first markers 1 and 2. */
  lemma FemurAngleUsesFirstOccurrences(n: Numerics, ids: seq<int>, corners: seq<Quad>, i: nat, j: nat)
    requires WellFormed(Some(ids), corners)
    requires i < |ids| && ids[i] == HipId && forall k :: 0 <= k < i ==> ids[k] != HipId
    requires j < |ids| && ids[j] == KneeId && forall k :: 0 <= k < j ==> ids[k] != KneeId
    ensures CalculateFemurAngle(n, Some(ids), corners)
         == Some(n.atan2Deg(corners[j][0].y - corners[i][0].y, corners[j][0].x - corners[i][0].x))
  {
    LocateQuadIsFirstOccurrence(ids, corners, HipId, i);
    LocateQuadIsFirstOccurrence(ids, corners, KneeId, j);
  }

  /**
   * The interior knee angle, 180 minus the angle between the femur vector
   * (knee minus hip) and the shin vector (ankle minus knee); absent when a
   * marker is missing or either vector has length zero.
   */
  function CalculateKneeAngle(n: Numerics, ids: Option<seq<int>>, corners: seq<Quad>): (r: Option<real>)
    requires WellFormed(ids, corners)
    ensures !Detected(ids, HipId) || !Detected(ids, KneeId) || !Detected(ids, AnkleId) ==> r.None?
  {
    if ids.None? then None
    else
      var hip, knee, ankle := Locate(ids, corners, HipId), Locate(ids, corners, KneeId), Locate(ids, corners, AnkleId);
      if hip.Some? && knee.Some? && ankle.Some? then
        var femur, shin := Sub(knee.value, hip.value), Sub(ankle.value, knee.value);
        if Norm(n, femur) == 0.0 || Norm(n, shin) == 0.0 then None
        else Some(180.0 - n.arccosDeg(Cosine(n, femur, shin)))
      else None
  }

  /**
   * The knee angle is absent exactly when a marker is missing or two
   * consecutive markers coincide (a zero-length segment).
   */
  lemma KneeAngleAbsentIff(n: Numerics, ids: Option<seq<int>>, corners: seq<Quad>)
    requires Lawful(n) && WellFormed(ids, corners)
    ensures var hip, knee, ankle := Locate(ids, corners, HipId), Locate(ids, corners, KneeId), Locate(ids, corners, AnkleId);
      (CalculateKneeAngle(n, ids, corners).None? <==> hip.None? || knee.None? || ankle.None? || hip == knee || knee == ankle)
  {
    var hip, knee, ankle := Locate(ids, corners, HipId), Locate(ids, corners, KneeId), Locate(ids, corners, AnkleId);
    if hip.Some? && knee.Some? && ankle.Some? {
      NormZero(n, Sub(knee.value, hip.value));
      NormZero(n, Sub(ankle.value, knee.value));
      assert Sub(knee.value, hip.value) == Origin <==> hip == knee;
      assert Sub(ankle.value, knee.value) == Origin <==> knee == ankle;
    }
  }

  /**
   * In exact arithmetic the unclamped arccos argument lies in [-1, 1], so the
   * knee angle lies in [0, 180] degrees.
   */
  lemma KneeAngleRange(n: Numerics, ids: Option<seq<int>>, corners: seq<Quad>)
    requires Lawful(n) && WellFormed(ids, corners)
    ensures var r := CalculateKneeAngle(n, ids, corners);
      r.Some? ==> 0.0 <= r.value <= 180.0
  {
    if CalculateKneeAngle(n, ids, corners).Some? {
      var hip, knee, ankle := Locate(ids, corners, HipId).value, Locate(ids, corners, KneeId).value, Locate(ids, corners, AnkleId).value;
      CosineInRange(n, Sub(knee, hip), Sub(ankle, knee));
    }
  }

  /** Pixels per centimetre of a marker quad: its first edge over the physical width. */
  function PixelsPerCm(n: Numerics, q: Quad): (r: real)
    requires |q| == 4
    ensures r * MarkerWidthCm == Norm(n, Sub(q[0], q[1]))
  {
    Norm(n, Sub(q[0], q[1])) / MarkerWidthCm
  }

  /** The value of a floating-point division: a number, or inf/nan after a division by zero. */
  datatype Quotient = Finite(value: real) | NonFinite

  /**
   * `get_handle_position` as written: the height of marker 4's first corner
   * in centimetres, with no guard against a zero-width marker.
   */
  function GetHandlePositionAsWritten(n: Numerics, ids: Option<seq<int>>, corners: seq<Quad>): (r: Option<Quotient>)
    requires WellFormed(ids, corners)
    ensures r.None? <==> !Detected(ids, HandleId)
    ensures r.Some? ==> (r.value.NonFinite? <==> PixelsPerCm(n, LocateQuad(ids, corners, HandleId).value) == 0.0)
  {
    match LocateQuad(ids, corners, HandleId)
    case None => None
    case Some(q) =>
      var pixelsPerCm := PixelsPerCm(n, q);
      if pixelsPerCm == 0.0 then Some(NonFinite) else Some(Finite(q[0].y / pixelsPerCm))
  }

  /**
   * `get_handle_position` with the zero-width guard: the height of marker 4's
   * first corner in centimetres, absent when the marker is missing or has no width.
   */
  function GetHandlePosition(n: Numerics, ids: Option<seq<int>>, corners: seq<Quad>): (r: Option<real>)
    requires WellFormed(ids, corners)
    ensures !Detected(ids, HandleId) ==> r.None?
    ensures r.Some? ==> r.value * PixelsPerCm(n, LocateQuad(ids, corners, HandleId).value) == LocateQuad(ids, corners, HandleId).value[0].y
  {
    match LocateQuad(ids, corners, HandleId)
    case None => None
    case Some(q) =>
      var pixelsPerCm := PixelsPerCm(n, q);
      if pixelsPerCm == 0.0 then None else Some(q[0].y / pixelsPerCm)
  }

  /**
   * The guarded height is absent exactly when marker 4 is missing or its first
   * two corners coincide.
   */
  lemma HandlePositionAbsentIff(n: Numerics, ids: Option<seq<int>>, corners: seq<Quad>)
    requires Lawful(n) && WellFormed(ids, corners)
    ensures var q := LocateQuad(ids, corners, HandleId);
      (GetHandlePosition(n, ids, corners).None? <==> q.None? || q.value[0] == q.value[1])
  {
    var q := LocateQuad(ids, corners, HandleId);
    if q.Some? {
      WidthZero(n, q.value);
    }
  }

  /** A marker has no width in pixels exactly when its first two corners coincide. */
  lemma WidthZero(n: Numerics, q: Quad)
    requires Lawful(n) && |q| == 4
    ensures PixelsPerCm(n, q) == 0.0 <==> q[0] == q[1]
  {
    NormZero(n, Sub(q[0], q[1]));
  }

  /**
   * Wherever the guarded height is present it is the source's finite height,
   * and wherever the source divides by zero it is absent.
   */
  lemma HandlePositionAgreesWithAsWritten(n: Numerics, ids: Option<seq<int>>, corners: seq<Quad>)
    requires WellFormed(ids, corners)
    ensures var r, w := GetHandlePosition(n, ids, corners), GetHandlePositionAsWritten(n, ids, corners);
      && (r.Some? ==> w == Some(Finite(r.value)))
      && (w.Some? && w.value.Finite? ==> r == Some(w.value.value))
      && (w == Some(NonFinite) ==> r.None?)
  {
  }

  /**
   * A detected handle marker whose first two corners coincide yields a
   * non-finite height in the source, which the application then records.
   */
  lemma ZeroWidthHandleAsWritten(n: Numerics)
    requires Lawful(n)
    ensures var ids, corners := Some([HandleId]), [[Point(3.0, 7.0), Point(3.0, 7.0), Point(9.0, 7.0), Point(9.0, 1.0)]];
      && GetHandlePositionAsWritten(n, ids, corners) == Some(NonFinite)
      && GetHandlePosition(n, ids, corners) == None
  {
    var ids, corners := Some([HandleId]), [[Point(3.0, 7.0), Point(3.0, 7.0), Point(9.0, 7.0), Point(9.0, 1.0)]];
    assert LocateQuad(ids, corners, HandleId) == Some(corners[0]);
    NormZero(n, Sub(corners[0][0], corners[0][1]));
  }

  /** The analyzer object's traffic-light flags (its other fields are not modelled). */
  class SquatAnalyzer {
    var squatStarted: bool
    var squatValid: bool

    /** A new analyzer, with both flags at their baseline value. */
    constructor ()
      ensures Flags(squatStarted, squatValid) == Baseline
    {
      squatStarted, squatValid := false, false;
    }
  }
}
