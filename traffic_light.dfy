/**
 * The traffic light and the repetition counter of `SquatApp.update_traffic_light`.
 *
 * Each tick classifies one optional femur angle into a zone, rewrites the
 * analyzer's two flags `squat_started` and `squat_valid`, and increments the
 * squat counter on the first valid-zone frame after an armed excursion.
 * `Step` is the tick on values; the class in `Application` performs it in place.
 */
module TrafficLight {
  import opened Wrappers

  /** Femur angles strictly below this are a valid squat depth. */
  const ValidBelowDeg: real := 0.0
  /** Femur angles from `ValidBelowDeg` up to and including this are "almost there". */
  const AlmostThereUpToDeg: real := 10.0

  datatype Zone = NoSquatDetected | SquatValid | AlmostThere | SquatInvalid

  datatype Colour = Red | Yellow | Green

  /** The zone shown for a femur angle; the four zones partition the input. */
  function Classify(angle: Option<real>): (z: Zone)
    ensures z == NoSquatDetected <==> angle.None?
    ensures z == SquatValid <==> angle.Some? && angle.value < ValidBelowDeg
    ensures z == AlmostThere <==> angle.Some? && ValidBelowDeg <= angle.value <= AlmostThereUpToDeg
    ensures z == SquatInvalid <==> angle.Some? && AlmostThereUpToDeg < angle.value
  {
    match angle
    case None => NoSquatDetected
    case Some(a) =>
      if a < ValidBelowDeg then SquatValid
      else if a <= AlmostThereUpToDeg then AlmostThere
      else SquatInvalid
  }

  /** The text of the traffic-light label; each text belongs to exactly one zone. */
  function Label(z: Zone): (r: string)
    ensures r == "No Squat Detected" <==> z == NoSquatDetected
    ensures r == "Squat Valid" <==> z == SquatValid
    ensures r == "Almost There" <==> z == AlmostThere
    ensures r == "Squat Invalid" <==> z == SquatInvalid
  {
    match z
    case NoSquatDetected => "No Squat Detected"
    case SquatValid => "Squat Valid"
    case AlmostThere => "Almost There"
    case SquatInvalid => "Squat Invalid"
  }

  /** The background colour of the traffic-light label: green only when valid, yellow only when almost there. */
  function Background(z: Zone): (r: Colour)
    ensures r == Green <==> z == SquatValid
    ensures r == Yellow <==> z == AlmostThere
    ensures r == Red <==> z == NoSquatDetected || z == SquatInvalid
  {
    match z
    case NoSquatDetected => Red
    case SquatValid => Green
    case AlmostThere => Yellow
    case SquatInvalid => Red
  }

  /** The label text tells the four zones apart, although two share a colour. */
  lemma LabelsDistinguishZones(z1: Zone, z2: Zone)
    ensures Label(z1) == Label(z2) <==> z1 == z2
    ensures Background(NoSquatDetected) == Background(SquatInvalid)
  {
  }

  /** The analyzer's `squat_started` and `squat_valid`. */
  datatype Flags = Flags(started: bool, valid: bool)

  /** Both flags false: the state a reset is meant to leave. */
  const Baseline := Flags(false, false)

  /** The flags never claim a started and a valid squat at once. */
  predicate Exclusive(f: Flags) {
    !(f.started && f.valid)
  }

  /** The test of a new valid squat: `not squat_valid and squat_started`. */
  predicate Armed(f: Flags) {
    !f.valid && f.started
  }

  /** The flags together with the squat counter. */
  datatype Machine = Machine(flags: Flags, count: nat)

  /** One call of `update_traffic_light` with the femur angle of the frame. */
  function Step(m: Machine, angle: Option<real>): (r: Machine)
    ensures m.count <= r.count <= m.count + 1
    ensures r.count == m.count + 1 <==> Classify(angle) == SquatValid && Armed(m.flags)
    ensures Exclusive(m.flags) ==> Exclusive(r.flags)
  {
    match angle
    case None => Machine(Baseline, m.count)
    case Some(a) =>
      if a < ValidBelowDeg then
        if Armed(m.flags) then Machine(Flags(false, true), m.count + 1) else m
      else
        // "Almost There" and "Squat Invalid" write the same flags
        Machine(Flags(true, false), m.count)
  }

  /** What each zone does to the flags and the counter. */
  lemma StepByZone(m: Machine, angle: Option<real>)
    ensures Classify(angle) == NoSquatDetected ==> Step(m, angle) == Machine(Baseline, m.count)
    ensures Classify(angle) in {AlmostThere, SquatInvalid} ==> Step(m, angle) == Machine(Flags(true, false), m.count)
    ensures Classify(angle) == SquatValid && Armed(m.flags) ==> Step(m, angle) == Machine(Flags(false, true), m.count + 1)
    ensures Classify(angle) == SquatValid && !Armed(m.flags) ==> Step(m, angle) == m
  {
  }

  /** Under the invariant, the `not squat_valid` half of the test is implied by `squat_started`. */
  lemma ArmedIsStarted(f: Flags)
    requires Exclusive(f)
    ensures Armed(f) <==> f.started
  {
  }

  /** A frame without a femur angle disarms: a valid frame right after it does not count. */
  lemma MissingAngleDisarms(m: Machine, a: real)
    requires a < ValidBelowDeg
    ensures Step(Step(m, None), Some(a)) == Machine(Baseline, m.count)
  {
  }

  /** The machine after a sequence of ticks. */
  function Run(m: Machine, angles: seq<Option<real>>): Machine
    decreases |angles|
  {
    if angles == [] then m else Run(Step(m, angles[0]), angles[1..])
  }

  /** The counter after each tick of a sequence: entry `i` is the count once the first `i + 1` ticks have run. */
  function Counts(m: Machine, angles: seq<Option<real>>): (r: seq<nat>)
    ensures |r| == |angles|
    ensures forall i :: 0 <= i < |angles| ==> r[i] == Run(m, angles[..i + 1]).count
    decreases |angles|
  {
    if angles == [] then [] else
      var next := Step(m, angles[0]);
      var rest := Counts(next, angles[1..]);
      assert forall i :: 0 < i < |angles| ==> angles[..i + 1][1..] == angles[1..][..i];
      assert Run(m, angles[..1]) == next;
      [next.count] + rest
  }

  /** Over a run the counter never decreases and grows by at most one per tick. */
  lemma {:induction false} RunCountBounds(m: Machine, angles: seq<Option<real>>)
    ensures m.count <= Run(m, angles).count <= m.count + |angles|
    decreases |angles|
  {
    if angles != [] {
      RunCountBounds(Step(m, angles[0]), angles[1..]);
    }
  }

  /** A run keeps the flags exclusive. */
  lemma {:induction false} RunKeepsExclusive(m: Machine, angles: seq<Option<real>>)
    requires Exclusive(m.flags)
    ensures Exclusive(Run(m, angles).flags)
    decreases |angles|
  {
    if angles != [] {
      RunKeepsExclusive(Step(m, angles[0]), angles[1..]);
    }
  }

  /** Valid-zone frames on a disarmed machine change nothing. */
  lemma {:induction false} HeldValidWhileDisarmed(m: Machine, angles: seq<Option<real>>)
    requires !Armed(m.flags)
    requires forall i :: 0 <= i < |angles| ==> Classify(angles[i]) == SquatValid
    ensures Run(m, angles) == m
    decreases |angles|
  {
    if angles != [] {
      assert Classify(angles[0]) == SquatValid;
      HeldValidWhileDisarmed(Step(m, angles[0]), angles[1..]);
    }
  }

  /**
   * Holding the valid zone for any number of frames counts once, and only if
   * the machine was armed when the hold began.
   */
  lemma HeldValidCountsOnce(m: Machine, angles: seq<Option<real>>)
    requires forall i :: 0 <= i < |angles| ==> Classify(angles[i]) == SquatValid
    ensures Run(m, angles).count == m.count + (if angles != [] && Armed(m.flags) then 1 else 0)
  {
    if angles != [] {
      assert Classify(angles[0]) == SquatValid;
      HeldValidWhileDisarmed(Step(m, angles[0]), angles[1..]);
    }
  }

  /** The number of frames in the "Almost There" or "Squat Invalid" zone. */
  function Armings(angles: seq<Option<real>>): (r: nat)
    ensures r <= |angles|
  {
    if angles == [] then 0
    else (if Classify(angles[0]) in {AlmostThere, SquatInvalid} then 1 else 0) + Armings(angles[1..])
  }

  /** The count plus one for a pending arming. */
  function Potential(m: Machine): nat {
    m.count + if Armed(m.flags) then 1 else 0
  }

  /**
   * Every counted squat consumes an arming: a run counts at most one squat per
   * frame in the "Almost There" or "Squat Invalid" zone, plus one if it starts armed.
   */
  lemma {:induction false} CountsNeedArmings(m: Machine, angles: seq<Option<real>>)
    ensures Potential(Run(m, angles)) <= Potential(m) + Armings(angles)
    ensures Run(m, angles).count <= Potential(m) + Armings(angles)
    decreases |angles|
  {
    if angles != [] {
      CountsNeedArmings(Step(m, angles[0]), angles[1..]);
    }
  }

  /**
   * The trace 20, 5, -1, -1, 20, -1 from the baseline shows the zones Invalid,
   * Almost There, Valid, Valid, Invalid, Valid and counts at ticks 2 and 5 only.
   */
  lemma ExampleTrace()
    ensures var angles := [Some(20.0), Some(5.0), Some(-1.0), Some(-1.0), Some(20.0), Some(-1.0)];
      && (var zones := [SquatInvalid, AlmostThere, SquatValid, SquatValid, SquatInvalid, SquatValid];
          forall i :: 0 <= i < |angles| ==> Classify(angles[i]) == zones[i])
      && Counts(Machine(Baseline, 0), angles) == [0, 0, 1, 1, 1, 2]
      && Run(Machine(Baseline, 0), angles).count == 2
  {
    var angles := [Some(20.0), Some(5.0), Some(-1.0), Some(-1.0), Some(20.0), Some(-1.0)];
    var m1 := Step(Machine(Baseline, 0), angles[0]);
    var m2 := Step(m1, angles[1]);
    var m3 := Step(m2, angles[2]);
    var m4 := Step(m3, angles[3]);
    var m5 := Step(m4, angles[4]);
    var m6 := Step(m5, angles[5]);
    assert m6 == Machine(Flags(false, true), 2);
    assert Counts(m5, angles[5..]) == [2];
    assert Counts(m4, angles[4..]) == [1, 2];
    assert Counts(m3, angles[3..]) == [1, 1, 2];
    assert Counts(m2, angles[2..]) == [1, 1, 1, 2];
    assert Counts(m1, angles[1..]) == [0, 1, 1, 1, 2];
    assert Run(m6, angles[6..]) == m6;
  }

  /**
   * The tick as the source runs it on a fresh analyzer, whose flags were never
   * assigned (`None`): a valid-zone frame reads `squat_valid` before anything
   * wrote it and raises AttributeError (result `None`); every other frame
   * writes both flags without reading them.
   */
  function StepAsWritten(flags: Option<Flags>, count: nat, angle: Option<real>): (r: Option<Machine>)
    ensures r.None? <==> flags.None? && Classify(angle) == SquatValid
    ensures flags.Some? ==> r == Some(Step(Machine(flags.value, count), angle))
  {
    match flags
    case Some(f) => Some(Step(Machine(f, count), angle))
    case None =>
      if angle.Some? && angle.value < ValidBelowDeg then None
      else Some(Step(Machine(Baseline, count), angle))
  }

  /**
   * With the flags starting at `Baseline`, the first tick of a session is
   * always defined, never counts, and agrees with the source wherever the
   * source does not raise.
   */
  lemma BaselineFirstFrame(count: nat, angle: Option<real>)
    ensures Step(Machine(Baseline, count), angle).count == count
    ensures StepAsWritten(None, count, angle).Some? ==> StepAsWritten(None, count, angle).value == Step(Machine(Baseline, count), angle)
    ensures Classify(angle) == SquatValid ==> StepAsWritten(None, count, angle).None? && Step(Machine(Baseline, count), angle) == Machine(Baseline, count)
  {
  }
}
