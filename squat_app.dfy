/**
 * `SquatApp`: the per-frame pipeline of `update_live_feed`, the session
 * controls `start_measurement` and `stop_measurement`, and the state they
 * share: the analyzer and its traffic-light flags, the squat counter and the
 * two bounded histories.
 */
module Application {
  import opened Wrappers
  import opened Geometry
  import opened Markers
  import opened TrafficLight
  import opened Analyzer
  import opened History

  /** The `maxlen` of both histories. */
  const HistoryCapacity: nat := 100

  /** What the detector returns for one frame. */
  datatype Detection = Detection(ids: Option<seq<int>>, corners: seq<Quad>)

  /** A camera read (`None` when `cap.read()` fails) whose detection is well formed. */
  predicate ReadWellFormed(read: Option<Detection>) {
    read.Some? ==> WellFormed(read.value.ids, read.value.corners)
  }

  /**
   * The application's state as values: the analyzer's flags (`None` when
   * there is no analyzer), whether a measurement runs, the squat counter and
   * the contents of the two histories.
   */
  datatype Snapshot = Snapshot(analyzer: Option<Flags>, measuring: bool, count: nat,
                               kneeAngles: seq<real>, handlePositions: seq<real>)

  /**
   * `history.append(x)` if `x is not None`: the sample goes last, and a full
   * history drops its oldest entry.
   */
  function Record(history: seq<real>, x: Option<real>): (r: seq<real>)
    ensures x.None? ==> r == history
    ensures x.Some? ==> r != [] && r[|r| - 1] == x.value
    ensures x.Some? && |history| < HistoryCapacity ==> r == history + [x.value]
    ensures x.Some? && |history| == HistoryCapacity ==> r == history[1..] + [x.value]
    ensures |history| <= HistoryCapacity ==> |r| <= HistoryCapacity
  {
    if x.Some? then LastN(history + [x.value], HistoryCapacity) else history
  }

  /** Whether a pass of `update_live_feed` reaches the calculators and the traffic light. */
  predicate Ticks(s: Snapshot, read: Option<Detection>) {
    s.analyzer.Some? && s.measuring && read.Some? && read.value.ids.Some?
  }

  /** One pass of `update_live_feed` on the frame `read`. */
  function LiveFeedStep(n: Numerics, s: Snapshot, read: Option<Detection>): (r: Snapshot)
    requires ReadWellFormed(read)
    ensures r.measuring == s.measuring && (r.analyzer.Some? <==> s.analyzer.Some?)
    ensures Ticks(s, read) ==>
      r.analyzer == Some(Step(Machine(s.analyzer.value, s.count), CalculateFemurAngle(n, read.value.ids, read.value.corners)).flags)
    ensures |s.kneeAngles| <= HistoryCapacity ==> |r.kneeAngles| <= HistoryCapacity
    ensures |s.handlePositions| <= HistoryCapacity ==> |r.handlePositions| <= HistoryCapacity
  {
    if Ticks(s, read) then
      var d := read.value;
      var next := Step(Machine(s.analyzer.value, s.count), CalculateFemurAngle(n, d.ids, d.corners));
      Snapshot(Some(next.flags), s.measuring, next.count,
               Record(s.kneeAngles, CalculateKneeAngle(n, d.ids, d.corners)),
               Record(s.handlePositions, GetHandlePosition(n, d.ids, d.corners)))
    else s
  }

  /** `start_measurement` before its first pass: a new analyzer, measuring on. */
  function Started(s: Snapshot): Snapshot {
    s.(analyzer := Some(Baseline), measuring := true)
  }

  /** `stop_measurement`: the analyzer and the counter are cleared only if there was an analyzer. */
  function Stopped(s: Snapshot): Snapshot {
    if s.analyzer.Some? then s.(analyzer := None, count := 0, measuring := false)
    else s.(measuring := false)
  }

  /**
   * The states the application can reach: bounded histories, exclusive flags,
   * no measurement without an analyzer and no count without one.
   */
  predicate Reachable(s: Snapshot) {
    && |s.kneeAngles| <= HistoryCapacity && |s.handlePositions| <= HistoryCapacity
    && (s.analyzer.Some? ==> Exclusive(s.analyzer.value))
    && (s.analyzer.None? ==> !s.measuring && s.count == 0)
  }

  lemma InitialIsReachable()
    ensures Reachable(Snapshot(None, false, 0, [], []))
  {
  }

  /** Every operation keeps the state reachable. */
  lemma OperationsKeepReachable(n: Numerics, s: Snapshot, read: Option<Detection>)
    requires Reachable(s) && ReadWellFormed(read)
    ensures Reachable(LiveFeedStep(n, s, read))
    ensures Reachable(Started(s))
    ensures Reachable(Stopped(s))
  {
  }

  /**
   * A frame that is not processed (no analyzer, not measuring, a failed camera
   * read, or no marker detected) leaves flags, counter and histories as they were.
   */
  lemma NoDetectionChangesNothing(n: Numerics, s: Snapshot, read: Option<Detection>)
    requires ReadWellFormed(read)
    requires s.analyzer.None? || !s.measuring || read.None? || read.value.ids.None?
    ensures LiveFeedStep(n, s, read) == s
  {
  }

  /**
   * A pass changes the counter by at most one, and increments it exactly when
   * it ticks on a valid-zone femur angle while armed.
   */
  lemma LiveFeedCount(n: Numerics, s: Snapshot, read: Option<Detection>)
    requires ReadWellFormed(read)
    ensures var r := LiveFeedStep(n, s, read);
      && s.count <= r.count <= s.count + 1
      && (r.count == s.count + 1 <==>
            Ticks(s, read) && Armed(s.analyzer.value)
            && Classify(CalculateFemurAngle(n, read.value.ids, read.value.corners)) == SquatValid)
  {
  }

  /**
   * End to end: with hip and knee markers in view, a pass counts a squat
   * exactly when the analyzer is armed and the knee marker is above the hip marker.
   */
  lemma CountsWhenKneeAboveHip(n: Numerics, s: Snapshot, d: Detection)
    requires Lawful(n) && WellFormed(d.ids, d.corners)
    requires s.analyzer.Some? && s.measuring
    requires Detected(d.ids, HipId) && Detected(d.ids, KneeId)
    ensures LiveFeedStep(n, s, Some(d)).count == s.count + 1 <==>
      Armed(s.analyzer.value) && Locate(d.ids, d.corners, KneeId).value.y < Locate(d.ids, d.corners, HipId).value.y
  {
    FemurAngleNegativeIffKneeAboveHip(n, d.ids, d.corners);
  }

  /** The histories take a sample only when the calculator returned one. */
  lemma HistoriesRecordOnlyPresentSamples(n: Numerics, s: Snapshot, read: Option<Detection>)
    requires ReadWellFormed(read) && Ticks(s, read)
    ensures var r, d := LiveFeedStep(n, s, read), read.value;
      && (CalculateKneeAngle(n, d.ids, d.corners).None? ==> r.kneeAngles == s.kneeAngles)
      && (CalculateKneeAngle(n, d.ids, d.corners).Some? ==>
            r.kneeAngles == LastN(s.kneeAngles + [CalculateKneeAngle(n, d.ids, d.corners).value], HistoryCapacity))
      && (GetHandlePosition(n, d.ids, d.corners).None? ==> r.handlePositions == s.handlePositions)
      && (GetHandlePosition(n, d.ids, d.corners).Some? ==>
            r.handlePositions == LastN(s.handlePositions + [GetHandlePosition(n, d.ids, d.corners).value], HistoryCapacity))
  {
  }

  /**
   * Stopping always leaves the counter at zero and no analyzer, keeps the
   * histories, and stopping again changes nothing.
   */
  lemma StopResets(s: Snapshot)
    requires Reachable(s)
    ensures Stopped(s).count == 0 && Stopped(s).analyzer.None? && !Stopped(s).measuring
    ensures Stopped(s).kneeAngles == s.kneeAngles && Stopped(s).handlePositions == s.handlePositions
    ensures Stopped(Stopped(s)) == Stopped(s)
  {
  }

  /** Starting replaces the flags by the baseline and keeps the counter and the histories. */
  lemma StartKeepsCounter(s: Snapshot)
    ensures Started(s).count == s.count
    ensures Started(s).analyzer == Some(Baseline) && Started(s).measuring
    ensures Started(s).kneeAngles == s.kneeAngles && Started(s).handlePositions == s.handlePositions
  {
  }

  /** The application object. */
  class SquatApp {
    var squatAnalyzer: SquatAnalyzer?
    var squatCounter: nat
    var isMeasuring: bool
    const kneeAngleHistory: BoundedDeque
    const handlePositionHistory: BoundedDeque

    /** The state of the object and of the objects it owns, as a value. */
    ghost function State(): Snapshot
      reads this, squatAnalyzer, kneeAngleHistory, handlePositionHistory
    {
      Snapshot(if squatAnalyzer == null then None else Some(Flags(squatAnalyzer.squatStarted, squatAnalyzer.squatValid)),
               isMeasuring, squatCounter, kneeAngleHistory.items, handlePositionHistory.items)
    }

    ghost predicate Valid()
      reads this, squatAnalyzer, kneeAngleHistory, handlePositionHistory
    {
      && kneeAngleHistory != handlePositionHistory
      && kneeAngleHistory.maxlen == HistoryCapacity && handlePositionHistory.maxlen == HistoryCapacity
      && Reachable(State())
    }

    constructor ()
      ensures Valid() && State() == Snapshot(None, false, 0, [], [])
      ensures fresh(kneeAngleHistory) && fresh(handlePositionHistory)
    {
      squatAnalyzer := null;
      squatCounter := 0;
      isMeasuring := false;
      kneeAngleHistory := new BoundedDeque(HistoryCapacity);
      handlePositionHistory := new BoundedDeque(HistoryCapacity);
    }

    /** `update_traffic_light`: one step of the traffic light on the analyzer's flags and the counter. */
    method UpdateTrafficLight(femurAngle: Option<real>)
      requires Valid() && squatAnalyzer != null
      modifies this`squatCounter, squatAnalyzer
      ensures Valid()
      ensures var m := Step(Machine(old(State()).analyzer.value, old(squatCounter)), femurAngle);
        State() == old(State()).(analyzer := Some(m.flags), count := m.count)
    {
      match femurAngle
      case Some(a) =>
        if a < ValidBelowDeg {
          if !squatAnalyzer.squatValid && squatAnalyzer.squatStarted {
            squatCounter := squatCounter + 1;
            squatAnalyzer.squatStarted := false;
            squatAnalyzer.squatValid := true;
          }
        } else if a <= AlmostThereUpToDeg {
          squatAnalyzer.squatStarted := true;
          squatAnalyzer.squatValid := false;
        } else {
          squatAnalyzer.squatStarted := true;
          squatAnalyzer.squatValid := false;
        }
      case None =>
        squatAnalyzer.squatStarted := false;
        squatAnalyzer.squatValid := false;
    }

    /** `update_live_feed` on one camera read (the re-scheduling is not modelled). */
    method UpdateLiveFeed(n: Numerics, read: Option<Detection>)
      requires Valid() && ReadWellFormed(read)
      modifies this`squatCounter, squatAnalyzer, kneeAngleHistory, handlePositionHistory
      ensures Valid() && squatAnalyzer == old(squatAnalyzer)
      ensures State() == LiveFeedStep(n, old(State()), read)
    {
      if squatAnalyzer != null && isMeasuring && read.Some? && read.value.ids.Some? {
        var d := read.value;
        var femurAngle := CalculateFemurAngle(n, d.ids, d.corners);
        var kneeAngle := CalculateKneeAngle(n, d.ids, d.corners);
        var handlePosition := GetHandlePosition(n, d.ids, d.corners);
        if kneeAngle.Some? {
          kneeAngleHistory.Append(kneeAngle.value);
        }
        if handlePosition.Some? {
          handlePositionHistory.Append(handlePosition.value);
        }
        UpdateTrafficLight(femurAngle);
      }
    }

    /** `start_measurement`: a new analyzer, measuring on, then the first pass of the live feed. */
    method StartMeasurement(n: Numerics, read: Option<Detection>)
      requires Valid() && ReadWellFormed(read)
      modifies this, kneeAngleHistory, handlePositionHistory
      ensures Valid() && fresh(squatAnalyzer)
      ensures State() == LiveFeedStep(n, Started(old(State())), read)
    {
      squatAnalyzer := new SquatAnalyzer();
      isMeasuring := true;
      UpdateLiveFeed(n, read);
    }

    /** `stop_measurement`: drops the analyzer and zeroes the counter if there is an analyzer. */
    method StopMeasurement()
      requires Valid()
      modifies this
      ensures Valid() && State() == Stopped(old(State()))
    {
      if squatAnalyzer != null {
        squatAnalyzer := null;
        squatCounter := 0;
      }
      isMeasuring := false;
    }
  }
}
