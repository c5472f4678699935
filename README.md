# SquatAnalyzer — a Dafny model of the squat-validation core

SquatAnalyzer watches a lifter through a webcam. The lifter wears four ArUco
markers: hip (id 1), knee (id 2), ankle (id 3) and one on the bar handle
(id 4). Each frame, the application computes three values from the detected
marker corners:

- the **femur angle**: the hip→knee direction in image degrees, negative when
  the knee is above the hip;
- the **knee angle**: 180° minus the angle between the femur and the shin;
- the **handle height** in centimetres, scaled by the 5.7 cm marker width.

A four-state **traffic light** turns the femur angle into feedback
("No Squat Detected", "Squat Valid", "Almost There", "Squat Invalid"). It
counts one squat each time the lifter reaches the valid zone ("Squat Valid")
directly after a zone above it ("Almost There" or "Squat Invalid"). No
frame in between may have markers detected but the hip or the knee missing.
A frame with no marker detected, or a failed camera read, is skipped and
keeps the counter armed. The knee
angle and the handle height also go into two histories that keep only the
last 100 samples.

The model has eight modules:

- `Wrappers` holds the `Option` type.
- `Geometry` covers 2-D points and vector algebra. `Numerics` is a parameter
  standing for numpy's `sqrt`, `degrees∘arctan2` and `degrees∘arccos`, with
  only their mathematical laws assumed (`Lawful`).
- `Markers` is the `ids.flatten()` / `list(ids).index(k)` lookup of
  `Project/squat_analyzer.py` and `Project/measurement.py`.
- `TrafficLight` is the zone classifier and the squat-counting state machine
  of `update_traffic_light`.
- `Analyzer` holds the angles and the handle height of
  `Project/squat_analyzer.py`, plus the class whose two flags the traffic
  light updates.
- `Measurement` holds the standalone functions of `Project/measurement.py`.
- `History` is the `deque(maxlen=100)` history, written as a class over a
  `seq`.
- `Application` is the `SquatApp` object. It has its fields, its
  start/stop/live-feed/traffic-light methods, and a value-level
  specification of its state (`Snapshot`, `LiveFeedStep`, `Started`,
  `Stopped`) that each method is proved against.

In these places the model follows the code as written:

- `get_handle_position` has no zero-width guard. Only
  `Analyzer.GetHandlePositionAsWritten` follows the code here. The
  application uses the guarded `Analyzer.GetHandlePosition` (see
  "## Findings").
- There are two knee-angle formulas that are not unified: the analyzer's is
  not clipped, while `measurement.py`'s is clipped and is the supplement of
  the first.
- `stop_measurement` clears the counter only when an analyzer exists.
- The markers are found by the first occurrence of each id.

The two places where the code evidently does not do what was intended are
listed under "## Findings". The model keeps the code as written next to the
corrected behaviour.

## Model

| member | source | states |
|---|---|---|
| Markers.FirstIndex | Project/squat_analyzer.py:28-30 | `list(ids).index(k)`: there is an index iff `k` occurs; it holds `k`, and no earlier position holds `k` |
| Markers.LocateQuad | Project/squat_analyzer.py:83-85 | the corner quad exists iff the marker was detected, and it has four corners |
| Markers.Locate | Project/squat_analyzer.py:29-32 | the marker's first corner `corners[idx][0][0]` exists iff the marker was detected |
| Markers.LocateQuadIsFirstOccurrence | Project/squat_analyzer.py:29-32 | when several markers share an id, the corners of the first one are used |
| Markers.FirstIndexOfPrefix | Project/measurement.py:14-16 | extra detections after the first occurrence of `k` do not change its index |
| Markers.LocateInExtendedFrame | Project/measurement.py:14-21 | appending detections keeps the frame well formed and does not move an already located marker |
| Geometry.NormZero | Project/squat_analyzer.py:61-65 | `np.linalg.norm` is non-negative and is zero exactly for the zero vector, so the `== 0` guard is a coincidence test |
| Geometry.CauchySchwarz | Project/squat_analyzer.py:60-68 | the squared dot product is at most the product of the squared norms |
| Geometry.CosineInRange | Project/squat_analyzer.py:60-68 | the quotient passed to `np.arccos` lies in [-1, 1] whenever both norms are non-zero |
| Analyzer.CalculateFemurAngle | Project/squat_analyzer.py:23-35 | there is an angle iff `ids` is present and contains both the hip and the knee |
| Analyzer.FemurAngleRange | Project/squat_analyzer.py:33 | the femur angle lies in [-180, 180] |
| Analyzer.FemurAngleNegativeIffKneeAboveHip | Project/squat_analyzer.py:33 | the femur angle is negative exactly when the knee's first corner is above the hip's (smaller image y) |
| Analyzer.FemurAngleUsesFirstOccurrences | Project/squat_analyzer.py:29-33 | the angle is computed from the first hip and the first knee detection |
| Analyzer.CalculateKneeAngle | Project/squat_analyzer.py:38-74 | there is no angle unless hip, knee and ankle are all detected |
| Analyzer.KneeAngleAbsentIff | Project/squat_analyzer.py:40-65 | when all three markers are detected, the angle is absent iff the hip and knee corners coincide or the knee and ankle corners coincide |
| Analyzer.KneeAngleRange | Project/squat_analyzer.py:60-72 | a present knee angle lies in [0, 180] without clipping |
| Analyzer.GetHandlePositionAsWritten | Project/squat_analyzer.py:77-97 | the code as written: absent iff marker 4 is missing; not finite exactly when the pixels-per-cm ratio is zero |
| Analyzer.GetHandlePosition | Project/squat_analyzer.py:77-97 | absent when marker 4 is missing; a present height times pixels-per-cm equals the first corner's y in pixels |
| Analyzer.HandlePositionAbsentIff | Project/squat_analyzer.py:83-95 | the corrected height is absent iff marker 4 is missing or its first two corners coincide |
| Analyzer.PixelsPerCm | Project/squat_analyzer.py:88-89 | the ratio times the 5.7 cm marker width is the marker's first edge in pixels |
| Analyzer.WidthZero | Project/squat_analyzer.py:88-89 | the pixels-per-cm ratio is zero iff the first two corners coincide |
| Analyzer.HandlePositionAgreesWithAsWritten | Project/squat_analyzer.py:88-95 | the corrected height is present exactly where the as-written one is finite, with the same value, and absent wherever the as-written one is not finite |
| Analyzer.ZeroWidthHandleAsWritten | Project/squat_analyzer.py:88-93 | a concrete frame whose handle marker has two coincident first corners gives a non-finite height as written |
| Analyzer.SquatAnalyzer.constructor | Project/squat_analyzer.py:6-11 | a new analyzer starts with both squat flags false (the corrected initialisation) |
| Measurement.Clip | Project/measurement.py:71 | `np.clip`: the result lies in the interval, is `x` when `x` is inside, and is the nearer bound otherwise |
| Measurement.ClipIdempotent | Project/measurement.py:71 | clipping twice is clipping once |
| Measurement.CalculateAngle | Project/measurement.py:64-76 | the angle between two non-zero vectors lies in [0, 180] |
| Measurement.UnitDot | Project/measurement.py:66-68 | the dot product of the two vectors after each is divided by its norm; `Measurement.UnitDotIsCosine` gives its value |
| Measurement.UnitDotIsCosine | Project/measurement.py:66-68 | the dot product of the two normalised vectors equals the dot product over the product of the norms |
| Measurement.ClipInactiveInExactArithmetic | Project/measurement.py:66-73 | in exact arithmetic the clip never changes its argument: the angle is `arccos` of the cosine |
| Measurement.GetKneeAngle | Project/measurement.py:4-32 | there is an angle iff hip, knee and ankle are detected, and it lies in [0, 180] |
| Measurement.GetFemurAngle | Project/measurement.py:34-62 | there is an angle iff hip and knee are detected, and it lies in [0, 180] |
| Measurement.SubZero | Project/measurement.py:24-25 | a difference vector is zero iff the two corners coincide |
| Measurement.KneeAnglesSupplementary | Project/measurement.py:23-28 | the two knee-angle variants are present together, and the analyzer's is 180 minus this module's |
| Measurement.FemurAngleNeverValidZone | Project/measurement.py:52-58 | this femur angle is never negative, so fed to the traffic light it could never reach "Squat Valid" |
| TrafficLight.Classify | Project/squat_app.py:179-198 | each of the four zones holds exactly for its range: absent; below 0; from 0 to 10 inclusive; above 10 |
| TrafficLight.Label | Project/squat_app.py:181-198 | each of the four label texts is shown for exactly one zone |
| TrafficLight.Background | Project/squat_app.py:181-198 | green exactly for "Squat Valid", yellow exactly for "Almost There", red for the other two zones |
| TrafficLight.LabelsDistinguishZones | Project/squat_app.py:181-198 | the four labels are pairwise different; "No Squat Detected" and "Squat Invalid" share the red background |
| TrafficLight.Step | Project/squat_app.py:177-200 | the counter grows by at most one, and it grows exactly when the zone is "Squat Valid" and the analyzer is armed (not valid, started); the flags are never both set |
| TrafficLight.StepByZone | Project/squat_app.py:179-200 | the new flags and counter for each zone: cleared, armed, counted or unchanged |
| TrafficLight.ArmedIsStarted | Project/squat_app.py:182 | when the flags are never both set, armed is the same as started |
| TrafficLight.MissingAngleDisarms | Project/squat_app.py:197-200 | a tick without a femur angle (markers detected, but hip or knee missing) disarms, so a valid tick right after it does not count |
| TrafficLight.Counts | Project/squat_app.py:183-186 | the counter after each frame: one value per frame, entry `i` being the counter of `Run` over the first `i + 1` frames |
| TrafficLight.RunCountBounds | Project/squat_app.py:183 | over `k` frames the counter grows by between 0 and `k` |
| TrafficLight.RunKeepsExclusive | Project/squat_app.py:184-200 | "started" and "valid" are never both set at any point of a run |
| TrafficLight.HeldValidWhileDisarmed | Project/squat_app.py:180-188 | holding the valid zone while disarmed changes nothing |
| TrafficLight.HeldValidCountsOnce | Project/squat_app.py:180-188 | holding the valid zone over many frames counts at most one squat |
| TrafficLight.Armings | Project/squat_app.py:189-196 | the number of arming frames is at most the number of frames |
| TrafficLight.CountsNeedArmings | Project/squat_app.py:182-196 | every counted squat is paid for by an earlier frame in "Almost There" or "Squat Invalid" (plus one if the run starts armed) |
| TrafficLight.ExampleTrace | Project/squat_app.py:177-200 | a concrete session (20°, 5°, -1°, -1°, 20°, -1°) shows the zones and a counter of 0, 0, 1, 1, 1, 2 |
| TrafficLight.StepAsWritten | Project/squat_app.py:182 | with uninitialised flags, a valid-zone frame raises (no result), and every other frame initialises the flags |
| TrafficLight.BaselineFirstFrame | Project/squat_app.py:179-200 | the corrected start state never counts on the first frame, agrees with the code whenever the code does not raise, and handles the raising case as "no change" |
| History.LastN | Project/squat_app.py:20-21 | `deque(maxlen=n)` contents: the last `min(|s|, n)` elements of what was appended |
| History.LastNOfExtendedSuffix | Project/squat_app.py:157 | truncating before further appends does not change the final window |
| History.AppendAll | Project/squat_app.py:157 | the history after appending samples one at a time, each append evicting the oldest entry once the capacity is reached; `History.AppendAllKeepsLast` gives its contents |
| History.AppendAllKeepsLast | Project/squat_app.py:157 | appending one at a time to a bounded deque keeps exactly the last `n` of all samples |
| History.AppendAllFromEmpty | Project/squat_app.py:20-21 | from empty, the deque keeps the last `min(k, n)` of `k` samples |
| History.HundredFiftySamples | Project/squat_app.py:20-21 | after 150 samples a `maxlen=100` history holds exactly the last 100 |
| History.BoundedDeque.constructor | Project/squat_app.py:20-21 | a new history is empty with the given capacity |
| History.BoundedDeque.Append | Project/squat_app.py:157 | the new contents are the last `maxlen` of the old contents followed by `x` |
| Application.Record | Project/squat_app.py:155-162 | a present sample goes last; below capacity it is simply appended, at capacity the oldest entry is dropped; an absent sample changes nothing; the length stays within 100 |
| Application.LiveFeedStep | Project/squat_app.py:137-165 | one pass keeps the measuring flag and whether an analyzer exists, and keeps both histories within 100. A pass that reaches the traffic light leaves the analyzer with the flags of one `TrafficLight.Step` on its femur angle. `Application.LiveFeedCount` gives the counter, `Application.HistoriesRecordOnlyPresentSamples` the histories, and `Application.NoDetectionChangesNothing` the skipped passes |
| Application.Started | Project/squat_app.py:95-98 | a new analyzer with baseline flags, measuring on; `Application.StartKeepsCounter` gives its properties |
| Application.Stopped | Project/squat_app.py:101-112 | the analyzer and the counter are cleared only when there was an analyzer, and measuring is off; `Application.StopResets` gives its properties |
| Application.InitialIsReachable | Project/squat_app.py:15-21 | the initial state (no analyzer, not measuring, counter 0, empty histories) is reachable |
| Application.OperationsKeepReachable | Project/squat_app.py:95-175 | a live-feed pass, a start and a stop each keep bounded histories, exclusive flags and "no analyzer ⇒ not measuring and counter 0" |
| Application.NoDetectionChangesNothing | Project/squat_app.py:137-143 | without an analyzer, while not measuring, on a failed read or without detected ids, a pass changes nothing |
| Application.LiveFeedCount | Project/squat_app.py:143-165 | a pass raises the counter by at most one, and by one exactly when it reaches the traffic light armed with a valid femur angle |
| Application.CountsWhenKneeAboveHip | Project/squat_app.py:148-165 | with hip and knee detected, a pass counts exactly when the analyzer is armed and the knee is above the hip in the image |
| Application.HistoriesRecordOnlyPresentSamples | Project/squat_app.py:155-162 | each history gains the new sample bounded to 100 when it is present, and is untouched when it is absent |
| Application.StopResets | Project/squat_app.py:101-112 | from any reachable state, stopping leaves counter 0, no analyzer and not measuring, keeps the histories, and stopping twice equals stopping once |
| Application.StartKeepsCounter | Project/squat_app.py:95-98 | starting installs fresh flags and turns measuring on, keeping the counter and the histories |
| Application.SquatApp.constructor | Project/squat_app.py:13-21 | the new application is in the initial state with two fresh histories |
| Application.SquatApp.UpdateTrafficLight | Project/squat_app.py:177-200 | the analyzer's flags and the counter become those of one traffic-light step; nothing else changes |
| Application.SquatApp.UpdateLiveFeed | Project/squat_app.py:135-175 | the new state is one live-feed pass over the old state and the frame's detection |
| Application.SquatApp.StartMeasurement | Project/squat_app.py:95-99 | the new state is a fresh start followed by one live-feed pass |
| Application.SquatApp.StopMeasurement | Project/squat_app.py:101-112 | the new state is the stop of the old state |

## Left out

- Camera capture (`cv2.VideoCapture`, `cap.read`, `cap.release`): a frame read is a parameter `Option<Detection>`, where `None` stands for a failed read.
- ArUco detection (`detect_aruco_markers`): the detector's output is a parameter. `Markers.WellFormed` states what the model relies on: one quad of four corners per id.
- Tk scheduling (`root.after`, `after_cancel`, `update_id`): one call to `UpdateLiveFeed` is one scheduled pass. The repeated rescheduling and its cancellation are not modelled.
- GUI widgets, drawing (`draw_lines_between_markers`), video conversion, and the matplotlib graphs: the traffic-light text and colour are modelled only as `Label` and `Background`.
- The beep sound (`play_beeb_sound`, pygame) and the sound checkbox have no effect on the state.
- The analyzer field `cap` is read at `Project/squat_app.py:138` and released at `Project/squat_app.py:104`. It is abstracted into the `read` parameter, and its release is not modelled.
- The analyzer fields `squat_count`, `play_sound`, `femur_angle_threshold` and `previous_handle_y` are never read by the core.
- Numeric values: `sqrt`, `arctan2` and `arccos` are abstract and carry only their laws:
  - the square root is non-negative and squares back;
  - `atan2` lies in [-180, 180] and is negative iff its y argument is negative;
  - `arccos` maps [-1, 1] into [0, 180].
- Floating point: rounding is not modelled, and all arithmetic is exact over the reals. `inf` and `nan` are modelled in one place only: `Analyzer.Quotient.NonFinite`, the as-written handle height after a division by zero.
- Analyzer.KneeAngleRange: proves [0, 180] in exact arithmetic only. In floating point, the unclipped quotient at `Project/squat_analyzer.py:68` can overshoot ±1, and then `np.arccos` gives `nan`.
- Analyzer.FemurAngleNegativeIffKneeAboveHip: treats a y difference of -0.0 as 0 (`arctan2(-0.0, x)` can be -0.0 or -180 in IEEE arithmetic).
- Measurement.CalculateAngle: requires two non-zero vectors. The source divides by the norm without a guard, and a zero vector gives `nan`, which the model does not represent.
- Measurement.GetKneeAngle: requires `ChainNonDegenerate` (when hip, knee and ankle are all detected, hip ≠ knee and knee ≠ ankle), for the same reason.
- Measurement.GetFemurAngle: requires `FemurNonDegenerate` (when hip and knee are both detected, hip ≠ knee), for the same reason.
- Application.SquatApp.UpdateLiveFeed: records the corrected handle height (`Analyzer.GetHandlePosition`). A zero-width frame adds nothing to the handle history, where the code would append a non-finite value (see "## Findings").
- Application.SquatApp.StartMeasurement: a new analyzer starts with both flags false (`Analyzer.SquatAnalyzer.constructor`). The code leaves them unset; the as-written behaviour is in `TrafficLight.StepAsWritten` only.
- `Project/main.py`, `Project/gui.py`, `Project/utils.py` and `Project/aruco_detection.py` are not part of this model.

## Findings

| source | as written | input that shows it | evidently intended | confidence | as-written member | corrected member |
|---|---|---|---|---|---|---|
| Project/squat_analyzer.py:6-11 | `__init__` never assigns `squat_started` or `squat_valid`, yet `update_traffic_light` reads `squat_valid` at `Project/squat_app.py:182` | after Start, the first frame with any marker detected (the first that reaches `update_traffic_light`) has hip and knee detected with the knee above the hip (femur angle below 0): reading the missing attribute raises, before `update_live_feed` reschedules itself at `Project/squat_app.py:175`, so the feed stops | both flags start false, so that frame shows "Squat Valid" and counts nothing | not executed; high | TrafficLight.StepAsWritten | TrafficLight.BaselineFirstFrame |
| Project/squat_analyzer.py:88-93 | the marker width in pixels is used as a divisor without a zero check, unlike the knee-angle guard at `Project/squat_analyzer.py:64-65` | marker 4 alone with corners (3,7), (3,7), (9,7), (9,1): `pixels_per_cm` is 0, the height is non-finite, and it is appended to the handle history | no height for a degenerate marker, as for the knee angle | not executed; medium | Analyzer.GetHandlePositionAsWritten | Analyzer.GetHandlePosition |
