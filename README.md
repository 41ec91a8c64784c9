# Playback core of the three.js print-simulation viewer

This project models the playback engine of the viewer in `src/index.js` and
proves properties of it. The viewer replays a recorded simulation log. Robots
move their print heads through space, and the paths they print accumulate
frame by frame, tinted by height.

The model covers four cooperating pieces:

- **Scene objects** (module `Actors`).
  - `PrintedGroup` is a class whose `showing` flag stands for membership in
    the scene. `AddToScene` and `RemoveFromScene` are guarded, idempotent
    toggles.
  - `Robot` is a class holding the pose of its two parts, its keyframe track
    and an in-scene flag. It supports `AddKeyframe`, a bounds-guarded
    `SetFrame` and `Clone`, which copies the graphics and starts an empty
    track.
- **Colour mapping** (module `Color`).
  - `ColorInterpolator` unpacks 24-bit colours into bytes with JavaScript's
    bitwise semantics (`ToInt32`, `<<` wrapping into 32 signed bits).
  - It maps a height linearly per channel with `floor` and repacks the bytes.
  - A degenerate value range, which yields NaN in JavaScript, gives `None`.
- **Ingestion** (modules `Log` and `Engine`).
  - The log is a document value whose keys may be missing.
  - Pure specification functions say what loading computes: the replicated
    roster (`Replicated`), the keyframe tracks (`AppendAll`), the running
    model height (`MaxHeight`), the outcome (`RunOutcome`, `LoadOutcome`) and
    the lines of the printed groups (`LoadedLines`).
  - The `Simulation` class methods `InitalizeRobots`, `SetRobotKeyframes`,
    `CreatedPrintedGroups` and `LoadSimulation` mutate the roster, the
    robots and the group list in loops, and are proved against those
    functions.
- **Playback state machine** (modules `Playback` and `Engine`).
  - `DrawFrame`, `PreviousFrame`, `NextFrame` and `SetFrame` normalise the
    frame index with JavaScript's truncated remainder (`JsRem`, `Normalize`).
  - They pose every robot from its track and move the show/hide watermark
    over the printed groups.
  - The object invariant `Valid` keeps groups `1..lastPrintedFrame` shown and
    every later group hidden.

Each ingestion step ends in an `Outcome`:

- `Ok` is return code 0, or the completion callback receiving `true`.
- `Error` is return code 1, or the callback receiving `false`.
- `Thrown` is a JavaScript `TypeError`. It is raised when a record's robot
  index is negative: `this.robots[n]` is then `undefined` and reading it
  throws.

Where the code behaves in ways one might not expect, the model follows the
code:

- **Clone count.** The roster is replicated to the number of *records* in
  `init.machines`, at least one (`src/index.js:173,187`). It is not the number
  of distinct robot indices.
- **Partial loads.** Loading is not atomic. `frameCount` is assigned before
  the roster is checked (`src/index.js:284`). Keyframes appended before a
  failing record stay, and so do the clones.
- **Printed groups are appended.** A load appends its groups after the
  existing ones and never clears the list (`src/index.js:239,266`).
- **Index normalisation.** The index is normalised only when it is out of
  range, as `(c + frameCount) % frameCount` with a truncated remainder
  (`src/index.js:319-320`). From `-frameCount` upwards this lands in
  `[0, frameCount)` (`Playback.NormalizeInRange`). Below that it lands on
  frame 0 when `c + frameCount` is a multiple of `frameCount` (JavaScript's
  `-0` indexes as 0), and otherwise stays negative
  (`Playback.NormalizeNonNegative`).
- **Track length.** After a load, a track holds the template's old keyframes
  (clones: none) plus one keyframe per record naming that robot. Its length
  is not `frameCount`.
- **Group 0.** The watermark loop starts at the old watermark inclusive. So
  group 0 (the empty pre-roll group) is shown on the first forward step and
  never hidden again. The invariant therefore constrains groups `1..` only.
- **Last group.** The group with index `frameCount` is never shown by
  playback, because `currentFrame` stays below `frameCount`.

## Model

| member | source | states |
|---|---|---|
| `Geometry.WorldRoundTrip` | src/index.js:223 | the log-to-world transform `(v0/-10, v2/10, v1/10)` is inverted by `ToLog`, so no coordinate is lost; the world height is `v2/10` |
| `Geometry.LogRoundTrip` | src/index.js:254 | every world point is the image of exactly one log point |
| `Geometry.WorldPath` | src/index.js:252-256 | a polyline's world vertices are its log vertices transformed one by one, same count, same order |
| `Color.ToInt32` | src/index.js:152 | JavaScript's 32-bit conversion lands in the signed 32-bit range, is congruent to its input modulo 2^32, and is the identity on that range |
| `Color.ShiftLeft` | src/index.js:152 | `x << k` yields a signed 32-bit value |
| `Color.ShiftLeftSmall` | src/index.js:152 | `x << k` equals `x * 2^k` when the product fits in 32 signed bits |
| `Color.Red` | src/index.js:128 | `(c & 0xff0000) >> 16` is a byte |
| `Color.Green` | src/index.js:129 | `(c & 0x00ff00) >> 8` is a byte |
| `Color.Blue` | src/index.js:130 | `c & 0x0000ff` is a byte |
| `Color.UnpackPack` | src/index.js:128-134 | unpacking a colour packed from three bytes gives the bytes back, and the packed colour is 24-bit |
| `Color.PackUnpack` | src/index.js:128-134 | repacking the three bytes of any integer gives its low 24 bits |
| `Color.ColorAt` | src/index.js:147-153 | `getColor` yields a finite colour exactly when the value range is not empty |
| `Color.Lerp` | src/index.js:142-145 | definition: `interpolate`, one channel as `floor(p * (end - start) + start)` with `p` the value's position in the value range, unclamped; its meaning is `LerpEndpoints`, `LerpMonotone` and `LerpBetween` |
| `Color.LerpEndpoints` | src/index.js:142-145 | a channel takes its start at `minValue` and its end at `maxValue` |
| `Color.LerpMonotone` | src/index.js:142-145 | with an increasing value range, a channel moves monotonically in the direction of `end - start` |
| `Color.LerpBetween` | src/index.js:142-145 | inside the value range, a channel stays between its start and its end |
| `Color.ColorAtEnds` | src/index.js:147-153 | `getColor(minValue)` is `(rStart<<16)+(gStart<<8)+bStart`, and `getColor(maxValue)` is the packed end colour |
| `Color.ColorAtInRange` | src/index.js:147-153 | inside the value range the colour is 24-bit and its bytes are the three interpolated channels |
| `Color.ColorAtMonotone` | src/index.js:147-153 | inside an increasing value range each byte of the colour is monotone in the direction of its `end - start` |
| `Color.ColorInterpolator.constructor` | src/index.js:116-125 | the default calibration: values `[0, 1]`, every channel from 0 to 255 |
| `Color.ColorInterpolator.SetColorRange` | src/index.js:127-135 | the six channel fields become the bytes of the two colours, and the value range is kept |
| `Color.ColorInterpolator.SetValueRange` | src/index.js:137-140 | the value range is set and the channels are kept |
| `Actors.PrintedGroup.constructor` | src/index.js:14-23 | a new group holds the given meshes and is hidden |
| `Actors.PrintedGroup.Add` | src/index.js:29-31 | appends exactly one mesh and keeps the flag |
| `Actors.PrintedGroup.AddToScene` | src/index.js:33-40 | the group ends up shown; when it was already shown, nothing changes (idempotence) |
| `Actors.PrintedGroup.RemoveFromScene` | src/index.js:42-49 | the group ends up hidden; when it was already hidden, nothing changes (idempotence) |
| `Actors.KeyframePose` | src/index.js:87-95 | definition: the pose `setFrame` gives a robot from a keyframe (body on the ground under the head, both turned by the rotation); its meaning is `KeyframePoseRoundTrip` |
| `Actors.PosedAt` | src/index.js:87-95 | definition: the keyframe's pose when the index is inside the track, otherwise the old pose; the reference `Robot.SetFrame` and `Simulation.PoseRobots` are proved against |
| `Actors.KeyframePoseRoundTrip` | src/index.js:73-81 | posing from a keyframe loses nothing: the keyframe is read back from the print head's pose |
| `Actors.Robot.constructor` | src/index.js:62-71 | a robot wraps its graphics' pose and starts with an empty track |
| `Actors.Robot.SetLocation` | src/index.js:73-76 | the body goes to `(x, 0, z)` and the head to `(x, y, z)`; everything else is kept |
| `Actors.Robot.SetRotation` | src/index.js:78-81 | both parts get yaw `theta`; everything else is kept |
| `Actors.Robot.AddKeyframe` | src/index.js:83-85 | appends exactly one keyframe and keeps the earlier ones |
| `Actors.Robot.SetFrame` | src/index.js:87-95 | at an index past the track, nothing changes; otherwise the pose becomes that of the keyframe at the index, and the print head's position and yaw read back as that keyframe |
| `Actors.Robot.AddToScene` | src/index.js:97-99 | the robot is in the scene, with pose and track kept |
| `Actors.Robot.RemoveFromScene` | src/index.js:101-103 | the robot is out of the scene, with pose and track kept |
| `Actors.Robot.Clone` | src/index.js:108-112 | a fresh robot with the same pose and an empty track of its own |
| `Log.KeyframeOf` | src/index.js:205 | a record's keyframe is its point through the world transform (recoverable by `ToLog`), with height `v2/10` and rotation `r` |
| `Log.FirstBad` | src/index.js:197-201 | ingestion stops at the first record whose robot index is not in `[0, size)`; every earlier record names a robot |
| `Log.RunOutcome` | src/index.js:197-209 | definition: a pass ends `Ok` (return 0, lines 209 and 231) when every record names a robot, `Error` (return 1, lines 199-201 and 218-219) at a first bad index that is too large, and a throw at a negative one; its meaning is `RunOutcomeCases` |
| `Log.RunOutcomeCases` | src/index.js:197-209 | a pass over records succeeds exactly when every record names a robot, and returns 1 exactly when some record's index is too large with all earlier records valid |
| `Log.RosterSize` | src/index.js:185-191 | replication leaves `max(1, records)` robots |
| `Log.Replicated` | src/index.js:185-191 | definition (its ensures spell out the body): after replication the template keeps its track and every clone's track is empty; what `InitalizeRobots` is proved against |
| `Log.AppendAll` | src/index.js:197-206 | appending the records' keyframes keeps the number of tracks |
| `Log.AppendAllAt` | src/index.js:197-206 | each track keeps its old keyframes and gains, in record order, the keyframes of exactly the records naming it |
| `Log.AppendAllCount` | src/index.js:197-206 | exactly one keyframe is appended per record |
| `Log.AppendAllConcat` | src/index.js:212-229 | appending records in two batches (initial, then per frame) equals appending them in one |
| `Log.MaxHeight` | src/index.js:225-227 | definition: the running maximum of `modelHeight` over records; its meaning is `MaxHeightIsMax` |
| `Log.MaxHeightIsMax` | src/index.js:225-227 | the running `modelHeight` never decreases, bounds every record's height, and equals the old value or one of those heights |
| `Log.MaxHeightConcat` | src/index.js:213-229 | raising the height frame by frame gives the maximum over all records |
| `Log.FlattenFirstBad` | src/index.js:213-220 | when frame `f` holds the first bad record, a pass over all frame records stops at that same record with the same outcome |
| `Log.FirstBadConcat` | src/index.js:286-296 | a pass over two batches stops in the first batch where it would stop, or else in the second where that one would stop |
| `Log.SeedThenAppend` | src/index.js:286-296 | seeding from the initial records and then appending the frame records leaves the tracks and outcome of one pass over all records |
| `Log.LoadOutcome` | src/index.js:272-304 | definition: a load is an error without the document's keys or without a robot to clone, otherwise the outcome of the initial records and then of the frame records; its meaning is `LoadOutcomeIsOnePass` and `LoadOkIff` |
| `Log.LoadOutcomeIsOnePass` | src/index.js:284-296 | a load ends as one pass over the initial records followed by all frame records |
| `Log.LoadOkIff` | src/index.js:273-304 | a load succeeds exactly when the document has its keys, the roster is not empty, and every record names a robot of the replicated roster |
| `Log.LoadedLines` | src/index.js:239-267 | definition (its ensures spell out the body): a load builds `frames.length + 1` groups, an empty one, then one per frame holding that frame's lines; what `CreatedPrintedGroups` is proved against |
| `Log.FrameGroupLines` | src/index.js:241-267 | definition (its ensures spell out the body): one group of lines per frame, in frame order; what `AppendFrameGroups` is proved against |
| `Log.PrintGradient` | src/index.js:235-237 | definition: the print calibration, channels from the bytes of `0x2d3dbf` to those of `0xffffff` over heights `[0, modelHeight * 1.1]` |
| `Log.LineOf` | src/index.js:250-263 | definition: a path's polyline, its world vertices coloured by `ColorAt` of its last vertex's height; what `BuildLine` is proved against |
| `Log.FrameLines` | src/index.js:245-264 | definition: the polylines of one frame's group, dropping paths of fewer than two points; its meaning is `FrameLinesAreKeptPaths` |
| `Log.Kept` | src/index.js:245-248 | the paths a group keeps all have at least two points |
| `Log.FrameLinesAreKeptPaths` | src/index.js:245-264 | a group holds one line per kept path, in order, each coloured by its last vertex's height, and every line has at least two vertices |
| `Playback.JsRem` | src/index.js:320 | JavaScript's `%` takes the dividend's sign, lies strictly within `(-b, b)`, is congruent to the dividend, and is the identity on `(-b, b)` |
| `Playback.Normalize` | src/index.js:319-320 | an index already in `[0, frameCount)` is left unchanged |
| `Playback.NormalizeInRange` | src/index.js:319-320 | from `-frameCount` upwards the normalised index is a frame congruent to the index; one step below wraps to the top and one step above wraps to the bottom |
| `Playback.NormalizeNonNegative` | src/index.js:319-320 | the normalised index is not negative exactly when the index is at least `-frameCount` or `c + frameCount` is a multiple of `frameCount`; in the second case below `-frameCount` it is frame 0 |
| `Playback.WrapAround` | src/index.js:308-320 | a step back from frame 0 gives `frameCount - 1`, and a step forward from `frameCount - 1` gives 0 |
| `Playback.StepsCancel` | src/index.js:308-316 | previous then next, or next then previous, returns to the same frame |
| `Playback.IsFinishedAt` | src/index.js:361-363 | definition: `currentFrame + 1 === frameCount`; its meaning is `FinishedIffNextWraps` |
| `Playback.FinishedIffNextWraps` | src/index.js:361-363 | `isFinished` holds exactly at the frame from which the next step wraps to 0 |
| `Playback.Reconcile` | src/index.js:327-335 | reconciling the flags keeps the number of groups |
| `Playback.ReconcileKeepsWatermark` | src/index.js:327-339 | moving the watermark keeps "groups `1..w` shown, later ones hidden" at the new frame, and only flags between the old and the new watermark change |
| `Playback.Hidden` | src/index.js:16 | definition (its ensures spell out the body): the flags of newly built groups, all hidden; its use is `HiddenKeepsWatermark` |
| `Playback.HiddenKeepsWatermark` | src/index.js:239-266 | appending hidden groups after the watermark keeps the invariant |
| `Engine.BuildLine` | src/index.js:250-263 | the loop builds the polyline of a path: its world vertices, coloured by the height of the last vertex |
| `Engine.BuildGroup` | src/index.js:244-264 | a fresh hidden group holding, in order, the polyline of every path with at least two points |
| `Engine.PrintInterpolator` | src/index.js:235-237 | the interpolator runs from `0x2d3dbf` to `0xffffff` over heights `[0, 1.1 * modelHeight]` |
| `Engine.Simulation.constructor` | src/index.js:157-164 | the initial state: no frames, no groups, no robots, watermark 0 and height 0; the invariant holds |
| `Engine.Simulation.DrawFrame` | src/index.js:318-340 | for every index whose normalised value is not negative, the index is normalised into `[0, frameCount)`, every robot is posed from its track, the flags follow the watermark, and the watermark becomes the frame; nothing else changes and the invariant is kept |
| `Engine.Simulation.PoseRobots` | src/index.js:323-325 | every robot gets the pose of its track at the frame, or keeps its pose past the track end |
| `Engine.Simulation.ReconcileGroups` | src/index.js:327-335 | the flags become `Reconcile` of the old flags, and every group keeps its lines |
| `Engine.Simulation.ShowGroups` | src/index.js:328-330 | groups `lo..hi` are shown and every other flag is kept |
| `Engine.Simulation.HideGroups` | src/index.js:332-334 | groups `lo..hi` are hidden and every other flag is kept |
| `Engine.Simulation.PreviousFrame` | src/index.js:308-311 | draws the frame one before the current one |
| `Engine.Simulation.NextFrame` | src/index.js:313-316 | draws the frame one after the current one |
| `Engine.Simulation.SetFrame` | src/index.js:346-349 | draws the requested frame |
| `Engine.Simulation.SetBaseRobot` | src/index.js:351-359 | the roster becomes just the given robot, in the scene; every other previous robot is out of the scene; poses and tracks are kept |
| `Engine.Simulation.AddRecordKeyframe` | src/index.js:222-223 | exactly the named robot's track gains the record's keyframe; poses and scene flags are unchanged |
| `Engine.Simulation.RemoveExtraRobots` | src/index.js:176-182 | the roster is truncated to its first robot, and every other robot is taken out of the scene |
| `Engine.Simulation.CloneBaseRobot` | src/index.js:185-191 | the roster grows to `max(1, count)`: the template first, then fresh clones in the scene with its pose and empty tracks |
| `Engine.Simulation.ApplyInitializations` | src/index.js:197-209 | the tracks gain the keyframes of the records before the first bad one; the outcome is 1 on a too-large index and a throw on a negative one; poses and scene flags are unchanged |
| `Engine.Simulation.InitalizeRobots` | src/index.js:172-210 | an empty roster is an error with nothing changed; otherwise the roster is replicated to `max(1, records)` and seeded per record, the template keeps its pose and scene flag, and every removed robot leaves the scene keeping its old track and pose (`Retired`) |
| `Engine.Simulation.RaiseModelHeight` | src/index.js:225-227 | the height becomes the larger of the old height and the given one |
| `Engine.Simulation.AddFrameKeyframes` | src/index.js:216-228 | one frame's records extend the tracks and raise the height up to the first bad record, whose outcome is returned; poses and scene flags are unchanged |
| `Engine.Simulation.SetRobotKeyframes` | src/index.js:212-232 | all frame records, in frame order, extend the tracks and the height up to the first bad record; earlier appends stay; poses, scene flags and group visibility are unchanged; on success the height is the maximum over all records |
| `Engine.Simulation.PushGroup` | src/index.js:239 | appends one group, keeping the earlier groups' lines and flags |
| `Engine.Simulation.AppendFrameGroups` | src/index.js:241-267 | appends one fresh hidden group per frame, holding that frame's lines; existing groups are kept |
| `Engine.Simulation.CreatedPrintedGroups` | src/index.js:234-270 | appends an empty group and then one hidden group per frame, coloured by the model height; it returns 0 and the invariant is kept |
| `Engine.Simulation.IngestRobots` | src/index.js:286-296 | the robot half of a load: the tracks and outcome of one pass over all records; the template keeps its pose and scene flag; every removed robot leaves the scene keeping its old track and pose (`Retired`); the height is kept when the initial records fail (or there is no robot), and otherwise is the running maximum over the frame records before the first bad one |
| `Engine.Simulation.LoadSimulation` | src/index.js:272-306 | the outcome is `LoadOutcome`; a malformed document changes neither the simulation nor any robot; an empty roster changes only `frameCount`; otherwise the template keeps its pose and scene flag, every removed robot leaves the scene keeping its old track and pose (`Retired`), the height is kept when the initial records fail and is the running maximum up to the first bad frame record otherwise; further, `frameCount` is set first, the roster is replicated and seeded, and the groups are appended on success only; the playback indices are untouched |

## Left out

- Rendering is not modelled: the THREE scene, renderer, camera, orbit
  controls, grid and lights (`src/index.js:8-11, 431-451`). They are a
  foreign library. Scene membership is a flag on each object.
- Loading the robot's OBJ/MTL assets (`src/index.js:453-476`) is
  asynchronous I/O. The loaded graphics enter the model as the `Pose` given
  to `Robot`'s constructor.
- The body and print-head scaling (`src/index.js:67-68`) only affects
  rendering.
- `downloadSimulationFile` and `getJSON` (`src/index.js:166-170`) are
  network I/O.
  - `LoadSimulation` takes the parsed document, an `Option<Document>` whose
    keys may be missing.
  - The completion callback's argument is the returned `Outcome`.
- The DOM code is UI and is not modelled: `updateFrameCounter` (its text is
  `currentFrame + ' | ' + frameCount`), `updateInfoText`,
  `updatePlayButton` and the button handlers (`src/index.js:342-344,
  366-429`).
- The `animate` loop (`src/index.js:481-505`) is wall-clock scheduling.
- THREE geometry, material and line objects (`src/index.js:250-262`) are
  reduced to a `Polyline` holding the world vertices and the colour.
- Numbers are mathematical reals and integers, not IEEE doubles.
  - Rounding is not modelled.
  - NaN and infinities appear only as the `None` colour of an empty value
    range.
- Malformed record contents are not modelled: a `v` array with fewer than
  three numbers (JavaScript computes NaN coordinates), or a non-numeric or
  fractional `n`. A record is typed as an integer index, three reals and a
  real rotation.
- A frame is typed as always having `machines` and `printeds`. In
  JavaScript a frame without `machines` makes `setRobotKeyframes` throw
  (`src/index.js:216`), and one without `printeds` makes
  `createdPrintedGroups` throw after the groups of the earlier frames were
  pushed (`src/index.js:245`).
- A printed vertex is typed as three reals. With fewer than three numbers
  JavaScript computes NaN coordinates and a NaN colour, which the model
  does not represent.
- Engine.Simulation.DrawFrame: requires `frameCount > 0`, a frame index
  whose normalised value is not negative, and that every group the
  watermark moves over exists. In JavaScript, a zero frame count makes the
  index NaN, and a missing group throws `TypeError` while drawing. A
  negative normalised value throws `TypeError` in `Robot.setFrame` when the
  roster is not empty, and in the group loop when it is below -1. With an
  empty roster and a normalised value of -1, JavaScript hides groups
  `0..lastPrintedFrame` and sets the watermark to -1. None of these is
  modelled.
- Engine.Simulation.PreviousFrame: has the same precondition as `DrawFrame`,
  applied to `currentFrame - 1`.
- Engine.Simulation.NextFrame: has the same precondition as `DrawFrame`,
  applied to `currentFrame + 1`.
- Engine.Simulation.SetFrame: has the same precondition as `DrawFrame`,
  applied to the requested frame.
- Actors.Robot.SetFrame: requires a non-negative index. A negative index
  reads `undefined` in JavaScript and throws. `DrawFrame` only passes
  normalised frames.
- Engine.Simulation.DrawFrame: does not update the frame-counter text (DOM).
- Color.ColorInterpolator.Interpolate and GetColor carry no `ensures` of
  their own. Their meaning is stated by the lemmas about `Lerp` and
  `ColorAt`, which they evaluate on the object's calibration.
  `Interpolate` requires a non-empty value range: on an empty one
  JavaScript's `interpolate` returns NaN or an infinity, which the model
  represents only at the level of the packed colour (`GetColor` gives
  `None`).
- Engine.Simulation.IsFinished is `IsFinishedAt` on the object's fields.
  Its property is `Playback.FinishedIffNextWraps`.
