/**
 * The detector's per-frame output and the lookup of a marker by id.
 *
 * The detector reports a flat list of ids (or nothing at all) and, at the same
 * positions, one quadrilateral of corner points per id. A required marker is
 * found at the position of the first occurrence of its id.
 */
module Markers {
  import opened Wrappers
  import opened Geometry

  /** The marker ids the calculators look for. */
  const HipId := 1
  const KneeId := 2
  const AnkleId := 3
  const HandleId := 4

  /** The four corners of one detected marker, in the detector's order. */
  type Quad = seq<Point>

  /** What the detector guarantees: one four-corner quad per reported id. */
  predicate WellFormed(ids: Option<seq<int>>, corners: seq<Quad>) {
    ids.Some? ==> |corners| == |ids.value| && forall i :: 0 <= i < |corners| ==> |corners[i]| == 4
  }

  /** `k in ids` for a possibly missing id list. */
  predicate Detected(ids: Option<seq<int>>, k: int) {
    ids.Some? && k in ids.value
  }

  /** The position of the first occurrence of `k` (Python's `list.index`), if any. */
  function FirstIndex(ids: seq<int>, k: int): (r: Option<nat>)
    ensures r.Some? <==> k in ids
    ensures r.Some? ==> r.value < |ids| && ids[r.value] == k
    ensures r.Some? ==> forall j :: 0 <= j < r.value ==> ids[j] != k
  {
    if |ids| == 0 then None
    else if ids[0] == k then Some(0)
    else
      match FirstIndex(ids[1..], k)
      case None => None
      case Some(i) => Some(i + 1)
  }

  /** The corners of the marker with id `k`: those of its first occurrence. */
  function LocateQuad(ids: Option<seq<int>>, corners: seq<Quad>, k: int): (r: Option<Quad>)
    requires WellFormed(ids, corners)
    ensures r.Some? <==> Detected(ids, k)
    ensures r.Some? ==> |r.value| == 4
  {
    if ids.None? then None
    else
      match FirstIndex(ids.value, k)
      case None => None
      case Some(i) => Some(corners[i])
  }

  /** The reference point of marker `k`: the first corner of its quad. */
  function Locate(ids: Option<seq<int>>, corners: seq<Quad>, k: int): (r: Option<Point>)
    requires WellFormed(ids, corners)
    ensures r.Some? <==> Detected(ids, k)
  {
    match LocateQuad(ids, corners, k)
    case None => None
    case Some(q) => Some(q[0])
  }

  /** A duplicated id resolves to the quad at its first position. */
  lemma LocateQuadIsFirstOccurrence(ids: seq<int>, corners: seq<Quad>, k: int, i: nat)
    requires WellFormed(Some(ids), corners)
    requires i < |ids| && ids[i] == k
    requires forall j :: 0 <= j < i ==> ids[j] != k
    ensures LocateQuad(Some(ids), corners, k) == Some(corners[i])
    ensures Locate(Some(ids), corners, k) == Some(corners[i][0])
  {
  }

  /** Markers reported after the first occurrence of `k` do not move it. */
  lemma {:induction false} FirstIndexOfPrefix(ids: seq<int>, more: seq<int>, k: int)
    requires k in ids
    ensures FirstIndex(ids + more, k) == FirstIndex(ids, k)
  {
    if ids[0] != k {
      assert (ids + more)[1..] == ids[1..] + more;
      FirstIndexOfPrefix(ids[1..], more, k);
    }
  }

  /** Appending markers to a frame never changes where a detected marker is found. */
  lemma LocateInExtendedFrame(ids: seq<int>, corners: seq<Quad>, more: seq<int>, moreCorners: seq<Quad>, k: int)
    requires WellFormed(Some(ids), corners) && WellFormed(Some(more), moreCorners)
    requires k in ids
    ensures WellFormed(Some(ids + more), corners + moreCorners)
    ensures LocateQuad(Some(ids + more), corners + moreCorners, k) == LocateQuad(Some(ids), corners, k)
    ensures Locate(Some(ids + more), corners + moreCorners, k) == Locate(Some(ids), corners, k)
  {
    FirstIndexOfPrefix(ids, more, k);
    var all := corners + moreCorners;
    forall i | 0 <= i < |all| ensures |all[i]| == 4 {
      if i < |corners| {
        assert all[i] == corners[i];
      } else {
        assert all[i] == moreCorners[i - |corners|];
      }
    }
  }
}
