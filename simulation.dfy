/** The simulation: ingestion of a log into keyframe tracks and printed-path
    groups, and the frame-index state machine that drives playback. */
module Engine {
  import opened Util
  import opened Geometry
  import opened Color
  import opened Actors
  import opened Log
  import opened Playback

  /** The robots a load took off the roster (every one after the first of
      `roster`): out of the scene, each with the track and the pose it had,
      as given by `tracks` and `poses`. */
  ghost predicate Retired(roster: seq<Robot>, tracks: seq<seq<Keyframe>>, poses: seq<Pose>)
    reads set j | 1 <= j < |roster| :: roster[j]
  {
    && |tracks| == |roster| && |poses| == |roster|
    && forall j :: 1 <= j < |roster| ==>
         && !roster[j].inScene
         && roster[j].keyframes == tracks[j]
         && roster[j].CurrentPose() == poses[j]
  }

  /** A replicated roster, as given by its poses and scene flags: every
      robot wears `pose`, the first one has scene flag `first`, and every
      later one is in the scene. */
  ghost predicate Cloned(poses: seq<Pose>, scene: seq<bool>, pose: Pose, first: bool)
  {
    && |scene| == |poses| >= 1
    && scene[0] == first
    && forall j :: 0 <= j < |poses| ==> poses[j] == pose && (j >= 1 ==> scene[j])
  }

  /** Builds the polyline for one printed path: every vertex goes through the
      world transform, and the colour comes from the height of the vertex
      visited last. */
  method BuildLine(simulationPrinted: seq<RawPoint>, colorInterpolator: ColorInterpolator)
    returns (line: Polyline)
    requires |simulationPrinted| >= 2
    ensures line == LineOf(simulationPrinted, colorInterpolator.Settings())
  {
    var vertices: seq<Point3> := [];
    var height := 0.0;
    var i := 0;
    while i < |simulationPrinted|
      invariant 0 <= i <= |simulationPrinted|
      invariant vertices == WorldPath(simulationPrinted[..i])
      invariant i > 0 ==> height == Height(simulationPrinted[i - 1])
    {
      var vertex := simulationPrinted[i];
      height := vertex.v2 / 10.0;
      vertices := vertices + [ToWorld(vertex)];
      i := i + 1;
    }
    assert simulationPrinted[..i] == simulationPrinted;
    line := Polyline(vertices, colorInterpolator.GetColor(height));
  }

  /** Builds one frame's group: a hidden group holding, in order, the
      polyline of every printed path with at least two points. */
  method BuildGroup(simulationPrinteds: seq<seq<RawPoint>>, colorInterpolator: ColorInterpolator)
    returns (printedGroup: PrintedGroup)
    ensures fresh(printedGroup) && !printedGroup.showing
    ensures printedGroup.lines == FrameLines(simulationPrinteds, colorInterpolator.Settings())
  {
    printedGroup := new PrintedGroup([]);
    var i := 0;
    while i < |simulationPrinteds|
      invariant 0 <= i <= |simulationPrinteds|
      invariant fresh(printedGroup) && !printedGroup.showing
      invariant printedGroup.lines == FrameLines(simulationPrinteds[..i], colorInterpolator.Settings())
    {
      var simulationPrinted := simulationPrinteds[i];
      assert simulationPrinteds[..i + 1][..i] == simulationPrinteds[..i];
      i := i + 1;
      if |simulationPrinted| < 2 {
        continue;
      }
      var tube := BuildLine(simulationPrinted, colorInterpolator);
      printedGroup.Add(tube);
    }
    assert simulationPrinteds[..i] == simulationPrinteds;
  }

  /** The interpolator the group builder sets up: the print colours over
      the heights from 0 to 10% above the model height. */
  method PrintInterpolator(modelHeight: real) returns (colorInterpolator: ColorInterpolator)
    ensures fresh(colorInterpolator)
    ensures colorInterpolator.Settings() == PrintGradient(modelHeight)
  {
    colorInterpolator := new ColorInterpolator();
    colorInterpolator.SetColorRange(PrintStartColor, PrintEndColor);
    colorInterpolator.SetValueRange(0.0, modelHeight * HeightMargin);
  }

  class Simulation {
    var frameCount: int
    var currentFrame: int
    var printedGroups: seq<PrintedGroup>
    var robots: seq<Robot>
    var lastPrintedFrame: int
    var modelHeight: real

    /** The visibility flag of every printed group, by index. */
    ghost function Shown(): seq<bool>
      reads this`printedGroups, printedGroups
    {
      var groups := printedGroups;
      seq(|groups|, i reads groups requires 0 <= i < |groups| => groups[i].showing)
    }

    /** The lines of every printed group, by index. */
    ghost function Lines(): seq<seq<Polyline>>
      reads this`printedGroups, printedGroups
    {
      var groups := printedGroups;
      seq(|groups|, i reads groups requires 0 <= i < |groups| => groups[i].lines)
    }

    /** The keyframe track of every robot, by roster index. */
    ghost function Tracks(): seq<seq<Keyframe>>
      reads this`robots, robots
    {
      var roster := robots;
      seq(|roster|, i reads roster requires 0 <= i < |roster| => roster[i].keyframes)
    }

    /** The pose of every robot, by roster index. */
    ghost function Poses(): seq<Pose>
      reads this`robots, robots
    {
      var roster := robots;
      seq(|roster|, i reads roster requires 0 <= i < |roster| => roster[i].CurrentPose())
    }

    /** Whether each robot is in the scene, by roster index. */
    ghost function Scene(): seq<bool>
      reads this`robots, robots
    {
      var roster := robots;
      seq(|roster|, i reads roster requires 0 <= i < |roster| => roster[i].inScene)
    }

    ghost predicate DistinctRobots()
      reads this`robots
    {
      forall i, j :: 0 <= i < j < |robots| ==> robots[i] != robots[j]
    }

    ghost predicate DistinctGroups()
      reads this`printedGroups
    {
      forall i, j :: 0 <= i < j < |printedGroups| ==> printedGroups[i] != printedGroups[j]
    }

    /** The object invariant: robots and groups are distinct objects, the
        watermark indexes a group (or is 0 before the first load), and the
        groups `1..lastPrintedFrame` are exactly the shown ones. */
    ghost predicate Valid()
      reads this`robots, this`printedGroups, this`lastPrintedFrame, printedGroups
    {
      && DistinctRobots()
      && DistinctGroups()
      && 0 <= lastPrintedFrame
      && (lastPrintedFrame < |printedGroups| || lastPrintedFrame == 0)
      && Watermarked(Shown(), lastPrintedFrame)
    }

    constructor()
      ensures Valid()
      ensures frameCount == 0 && currentFrame == 0 && lastPrintedFrame == 0
      ensures printedGroups == [] && robots == [] && modelHeight == 0.0
    {
      frameCount := 0;
      currentFrame := 0;
      printedGroups := [];
      robots := [];
      lastPrintedFrame := 0;
      modelHeight := 0.0;
    }

    /** Drawing frame `c` touches only existing things: the frame count is
        positive, the normalised index is not negative (from `-frameCount`
        upwards it never is, and below that only when `c + frameCount` is a
        multiple of `frameCount`; a negative one makes JavaScript read
        `undefined` and throw), and every group the watermark moves over
        exists. */
    ghost predicate CanDraw(c: int)
      reads this
    {
      && frameCount > 0
      && 0 <= Normalize(c, frameCount)
      && (Normalize(c, frameCount) != lastPrintedFrame ==>
            Normalize(c, frameCount) < |printedGroups| && lastPrintedFrame < |printedGroups|)
    }

    /** What drawing the requested frame index does: the index is
        normalised, every robot is posed from its track, the group flags
        follow the watermark from its old value to the new frame, and the
        watermark becomes the frame. Nothing else changes. */
    twostate predicate Drew(requested: int)
      reads this, robots, printedGroups
    {
      && frameCount == old(frameCount) && frameCount > 0
      && robots == old(robots) && printedGroups == old(printedGroups)
      && modelHeight == old(modelHeight)
      && currentFrame == Normalize(requested, frameCount)
      && lastPrintedFrame == currentFrame
      && Shown() == Reconcile(old(Shown()), old(lastPrintedFrame), currentFrame)
      && Lines() == old(Lines())
      && (forall j :: 0 <= j < |robots| ==>
            && robots[j].keyframes == old(robots[j].keyframes)
            && robots[j].inScene == old(robots[j].inScene)
            && robots[j].CurrentPose() == PosedAt(robots[j].keyframes, currentFrame, old(robots[j].CurrentPose())))
    }

    method DrawFrame()
      requires Valid() && CanDraw(currentFrame)
      modifies this, robots, printedGroups
      ensures Valid() && Drew(old(currentFrame))
      ensures 0 <= currentFrame < frameCount
    {
      if currentFrame < 0 || currentFrame >= frameCount {
        currentFrame := JsRem(currentFrame + frameCount, frameCount);
      }
      PoseRobots(currentFrame);
      ReconcileGroups(lastPrintedFrame, currentFrame);
      assert Watermarked(Shown(), currentFrame) by {
        ReconcileKeepsWatermark(old(Shown()), lastPrintedFrame, currentFrame);
      }
      lastPrintedFrame := currentFrame;
    }

    /** Moves the shown/hidden boundary of the groups from `last` to `cur`,
        touching only the groups in between. */
    method ReconcileGroups(last: int, cur: int)
      requires DistinctGroups() && 0 <= last && 0 <= cur
      requires last != cur ==> last < |printedGroups| && cur < |printedGroups|
      modifies printedGroups
      ensures Shown() == Reconcile(old(Shown()), last, cur) && Lines() == old(Lines())
      ensures forall j :: 0 <= j < |robots| ==>
        && robots[j].keyframes == old(robots[j].keyframes)
        && robots[j].inScene == old(robots[j].inScene)
        && robots[j].CurrentPose() == old(robots[j].CurrentPose())
    {
      if last < cur {
        ShowGroups(last, cur);
      } else if last > cur {
        HideGroups(cur + 1, last);
      }
      assert Shown() == Reconcile(old(Shown()), last, cur);
      assert Lines() == old(Lines());
    }

    /** Poses every robot from frame `frame` of its own track. */
    method PoseRobots(frame: int)
      requires 0 <= frame && DistinctRobots()
      modifies robots
      ensures forall j :: 0 <= j < |robots| ==>
        && robots[j].keyframes == old(robots[j].keyframes)
        && robots[j].inScene == old(robots[j].inScene)
        && robots[j].CurrentPose() == PosedAt(robots[j].keyframes, frame, old(robots[j].CurrentPose()))
      ensures Shown() == old(Shown()) && Lines() == old(Lines())
    {
      var i := 0;
      while i < |robots|
        invariant 0 <= i <= |robots|
        invariant forall j :: 0 <= j < |robots| ==>
          robots[j].keyframes == old(robots[j].keyframes) && robots[j].inScene == old(robots[j].inScene)
        invariant forall j :: 0 <= j < i ==>
          robots[j].CurrentPose() == PosedAt(robots[j].keyframes, frame, old(robots[j].CurrentPose()))
        invariant forall j :: i <= j < |robots| ==> robots[j].CurrentPose() == old(robots[j].CurrentPose())
      {
        robots[i].SetFrame(frame);
        i := i + 1;
      }
    }

    /** Shows the groups `lo..hi`; every other flag is kept. */
    method ShowGroups(lo: int, hi: int)
      requires 0 <= lo <= hi < |printedGroups| && DistinctGroups()
      modifies printedGroups
      ensures forall j :: 0 <= j < |printedGroups| ==>
        && printedGroups[j].showing == (if lo <= j <= hi then true else old(printedGroups[j].showing))
        && printedGroups[j].lines == old(printedGroups[j].lines)
    {
      var i := lo;
      while i <= hi
        invariant lo <= i <= hi + 1
        invariant forall j :: 0 <= j < |printedGroups| ==>
          && printedGroups[j].showing == (if lo <= j < i then true else old(printedGroups[j].showing))
          && printedGroups[j].lines == old(printedGroups[j].lines)
      {
        printedGroups[i].AddToScene();
        i := i + 1;
      }
    }

    /** Hides the groups `lo..hi`; every other flag is kept. */
    method HideGroups(lo: int, hi: int)
      requires 0 <= lo <= hi < |printedGroups| && DistinctGroups()
      modifies printedGroups
      ensures forall j :: 0 <= j < |printedGroups| ==>
        && printedGroups[j].showing == (if lo <= j <= hi then false else old(printedGroups[j].showing))
        && printedGroups[j].lines == old(printedGroups[j].lines)
    {
      var i := lo;
      while i <= hi
        invariant lo <= i <= hi + 1
        invariant forall j :: 0 <= j < |printedGroups| ==>
          && printedGroups[j].showing == (if lo <= j < i then false else old(printedGroups[j].showing))
          && printedGroups[j].lines == old(printedGroups[j].lines)
      {
        printedGroups[i].RemoveFromScene();
        i := i + 1;
      }
    }

    method PreviousFrame()
      requires Valid() && CanDraw(currentFrame - 1)
      modifies this, robots, printedGroups
      ensures Valid() && Drew(old(currentFrame) - 1)
    {
      currentFrame := currentFrame - 1;
      DrawFrame();
    }

    method NextFrame()
      requires Valid() && CanDraw(currentFrame + 1)
      modifies this, robots, printedGroups
      ensures Valid() && Drew(old(currentFrame) + 1)
    {
      currentFrame := currentFrame + 1;
      DrawFrame();
    }

    method SetFrame(frame: int)
      requires Valid() && CanDraw(frame)
      modifies this, robots, printedGroups
      ensures Valid() && Drew(frame)
    {
      currentFrame := frame;
      DrawFrame();
    }

    function IsFinished(): bool
      reads this
    {
      IsFinishedAt(currentFrame, frameCount)
    }

    /** Replaces the roster by the one robot given, taking every previous
        robot out of the scene first. */
    method SetBaseRobot(robot: Robot)
      requires Valid()
      modifies this`robots, robots, robot
      ensures Valid()
      ensures robots == [robot] && robot.inScene
      ensures forall r :: r in old(robots) && r != robot ==> !r.inScene
      ensures forall r :: r in old(robots) || r == robot ==>
        r.keyframes == old(r.keyframes) && r.CurrentPose() == old(r.CurrentPose())
    {
      var i := 0;
      while i < |robots|
        invariant 0 <= i <= |robots|
        invariant forall j :: 0 <= j < i ==> !robots[j].inScene
        invariant forall r :: r in old(robots) || r == robot ==>
          r.keyframes == old(r.keyframes) && r.CurrentPose() == old(r.CurrentPose())
        modifies robots
      {
        robots[i].RemoveFromScene();
        i := i + 1;
      }
      robots := [robot];
      robot.AddToScene();
    }

    // ----- Ingestion -----

    /** Appends one record's keyframe to the track of the robot it names. */
    method AddRecordKeyframe(record: MachineRecord)
      requires DistinctRobots() && 0 <= record.n < |robots|
      modifies robots
      ensures Tracks() == old(Tracks())[record.n := old(Tracks())[record.n] + [KeyframeOf(record)]]
      ensures Poses() == old(Poses()) && Scene() == old(Scene())
    {
      var robot := robots[record.n];
      robot.AddKeyframe(record.v.v0 / -10.0, record.v.v2 / 10.0, record.v.v1 / 10.0, record.r);
      assert Tracks() == old(Tracks())[record.n := old(Tracks())[record.n] + [KeyframeOf(record)]];
    }

    /** The roster after replication: the template first, keeping its pose
        `pose` and its scene flag `inScene`, then clones in the scene that
        carry the template's pose. */
    ghost predicate Replicas(template: Robot, pose: Pose, inScene: bool, count: int)
      reads this`robots, robots
    {
      && |robots| == RosterSize(count)
      && robots[0] == template
      && Cloned(Poses(), Scene(), pose, inScene)
    }

    /** Takes every robot after the first out of the scene and keeps only
        the first in the roster. */
    method RemoveExtraRobots()
      requires DistinctRobots() && |robots| > 1
      modifies this`robots, robots
      ensures robots == [old(robots[0])]
      ensures robots[0].inScene == old(robots[0].inScene)
      ensures forall j :: 0 <= j < |old(robots)| ==>
        && old(robots)[j].keyframes == old(robots[j].keyframes)
        && old(robots)[j].CurrentPose() == old(robots[j].CurrentPose())
      ensures forall j :: 1 <= j < |old(robots)| ==> !old(robots)[j].inScene
    {
      var i := 1;
      while i < |robots|
        invariant 1 <= i <= |robots|
        invariant forall j :: 0 <= j < |robots| ==>
          robots[j].keyframes == old(robots[j].keyframes) && robots[j].CurrentPose() == old(robots[j].CurrentPose())
        invariant forall j :: 1 <= j < i ==> !robots[j].inScene
        invariant robots[0].inScene == old(robots[0].inScene)
        modifies robots
      {
        robots[i].RemoveFromScene();
        i := i + 1;
      }
      robots := [robots[0]];
    }

    /** Grows a one-robot roster to RosterSize(count) robots by cloning the
        first one; each clone is in the scene, wears the first robot's pose
        and has no keyframes. */
    method CloneBaseRobot(count: int)
      requires |robots| == 1
      modifies this`robots
      ensures Replicas(old(robots[0]), old(robots[0].CurrentPose()), old(robots[0].inScene), count)
      ensures forall j :: 1 <= j < |robots| ==> fresh(robots[j]) && robots[j].keyframes == []
      ensures DistinctRobots()
    {
      var baseRobot := robots[0];
      var i := 1;
      while i < count
        invariant 1 <= i && (i == 1 || i <= count)
        invariant |robots| == i && robots[0] == baseRobot
        invariant forall j :: 1 <= j < |robots| ==>
          fresh(robots[j]) && robots[j].inScene && robots[j].keyframes == []
          && robots[j].CurrentPose() == baseRobot.CurrentPose()
        invariant DistinctRobots()
      {
        var newRobot := baseRobot.Clone();
        newRobot.AddToScene();
        robots := robots + [newRobot];
        i := i + 1;
      }
    }

    /** Appends each record's keyframe to the robot it names, in order,
        stopping at the first record that names no robot. */
    method ApplyInitializations(robotInitializations: seq<MachineRecord>) returns (result: Outcome)
      requires DistinctRobots()
      modifies robots
      ensures Tracks() == AppendAll(old(Tracks()),
                                    robotInitializations[..FirstBad(robotInitializations, |robots|)])
      ensures result == RunOutcome(robotInitializations, |robots|)
      ensures Poses() == old(Poses()) && Scene() == old(Scene())
    {
      var k := 0;
      while k < |robotInitializations|
        invariant 0 <= k <= |robotInitializations|
        invariant AllAddress(robotInitializations[..k], |robots|)
        invariant Tracks() == AppendAll(old(Tracks()), robotInitializations[..k])
        invariant Poses() == old(Poses()) && Scene() == old(Scene())
        modifies robots
      {
        var robotInitialization := robotInitializations[k];
        var robotIndex := robotInitialization.n;
        if !Addresses(robotInitialization, |robots|) {
          assert FirstBad(robotInitializations, |robots|) == k;
        }
        if robotIndex >= |robots| {
          return Error;
        }
        if robotIndex < 0 {
          return Thrown;
        }
        AppendAllStep(old(Tracks()), robotInitializations, k);
        AddRecordKeyframe(robotInitialization);
        k := k + 1;
      }
      assert robotInitializations[..k] == robotInitializations;
      assert FirstBad(robotInitializations, |robots|) == k;
      return Ok;
    }

    /** Truncates the roster to its first robot, clones that robot once for
        every record after the first, then appends each record's keyframe to
        the robot it names, stopping at the first record that names none.
        An empty roster is an error and changes nothing. */
    method InitalizeRobots(robotInitializations: seq<MachineRecord>) returns (result: Outcome)
      requires Valid()
      modifies this`robots, robots
      ensures Valid()
      ensures old(robots) == [] ==> result == Error && robots == []
      ensures old(robots) != [] ==>
        && Replicas(old(robots[0]), old(robots[0].CurrentPose()), old(robots[0].inScene), |robotInitializations|)
        && (forall j :: 1 <= j < |robots| ==> fresh(robots[j]))
        && Retired(old(robots), old(Tracks()), old(Poses()))
        && (forall j :: 1 <= j < |old(robots)| ==> old(robots)[j] !in robots)
        && Tracks() == AppendAll(Replicated(old(robots[0].keyframes), |robotInitializations|),
                                 robotInitializations[..FirstBad(robotInitializations, |robots|)])
        && result == RunOutcome(robotInitializations, |robots|)
    {
      var robotCount := |robotInitializations|;
      ghost var shown := Shown();

      if |robots| > 1 {
        RemoveExtraRobots();
      }

      if |robots| == 1 {
        CloneBaseRobot(robotCount);
      } else {
        return Error;
      }

      assert Tracks() == Replicated(old(robots[0].keyframes), robotCount);
      assert forall j :: 1 <= j < |old(robots)| ==> old(robots)[j] !in robots;
      assert Retired(old(robots), old(Tracks()), old(Poses()));
      assert Shown() == shown;
      result := ApplyInitializations(robotInitializations);
      assert Shown() == shown;
    }

    /** Raises the model height to `height` when that is higher. */
    method RaiseModelHeight(height: real)
      modifies this`modelHeight
      ensures modelHeight == if height > old(modelHeight) then height else old(modelHeight)
    {
      if height > modelHeight {
        modelHeight := height;
      }
    }

    /** Appends one frame's records to the tracks of the robots they name,
        raising the model height to each record's height, and stops at the
        first record that names no robot. */
    method AddFrameKeyframes(simulationRobots: seq<MachineRecord>) returns (result: Outcome)
      requires DistinctRobots()
      modifies this`modelHeight, robots
      ensures Tracks() == AppendAll(old(Tracks()), simulationRobots[..FirstBad(simulationRobots, |robots|)])
      ensures modelHeight == MaxHeight(old(modelHeight), simulationRobots[..FirstBad(simulationRobots, |robots|)])
      ensures result == RunOutcome(simulationRobots, |robots|)
      ensures Poses() == old(Poses()) && Scene() == old(Scene())
    {
      var k := 0;
      while k < |simulationRobots|
        invariant 0 <= k <= |simulationRobots|
        invariant AllAddress(simulationRobots[..k], |robots|)
        invariant Tracks() == AppendAll(old(Tracks()), simulationRobots[..k])
        invariant modelHeight == MaxHeight(old(modelHeight), simulationRobots[..k])
        invariant Poses() == old(Poses()) && Scene() == old(Scene())
        modifies this`modelHeight, robots
      {
        var simulationRobot := simulationRobots[k];
        var robotIndex := simulationRobot.n;
        if !Addresses(simulationRobot, |robots|) {
          assert FirstBad(simulationRobots, |robots|) == k;
        }
        if robotIndex >= |robots| {
          return Error;
        }
        if robotIndex < 0 {
          return Thrown;
        }
        AddRecordKeyframe(simulationRobot);
        RaiseModelHeight(simulationRobot.v.v2 / 10.0);
        assert && AllAddress(simulationRobots[..k + 1], |robots|)
               && Tracks() == AppendAll(old(Tracks()), simulationRobots[..k + 1])
               && modelHeight == MaxHeight(old(modelHeight), simulationRobots[..k + 1]) by {
          AppendAllStep(old(Tracks()), simulationRobots, k);
          MaxHeightStep(old(modelHeight), simulationRobots, k);
        }
        k := k + 1;
      }
      assert simulationRobots[..k] == simulationRobots;
      assert FirstBad(simulationRobots, |robots|) == k;
      return Ok;
    }

    /** Appends the records of every frame, frame after frame, exactly as one
        pass over their concatenation would: it stops at the first record
        that names no robot. */
    method SetRobotKeyframes(simulationFrames: seq<Frame>) returns (result: Outcome)
      requires DistinctRobots()
      modifies this`modelHeight, robots
      ensures Tracks() == AppendAll(old(Tracks()),
                                    Flatten(simulationFrames)[..FirstBad(Flatten(simulationFrames), |robots|)])
      ensures modelHeight == MaxHeight(old(modelHeight),
                                       Flatten(simulationFrames)[..FirstBad(Flatten(simulationFrames), |robots|)])
      ensures result == RunOutcome(Flatten(simulationFrames), |robots|)
      ensures result == Ok ==> modelHeight == MaxHeight(old(modelHeight), Flatten(simulationFrames))
      ensures Poses() == old(Poses()) && Scene() == old(Scene())
      ensures Shown() == old(Shown()) && (old(Valid()) ==> Valid())
    {
      var f := 0;
      while f < |simulationFrames|
        invariant 0 <= f <= |simulationFrames|
        invariant AllAddress(Flatten(simulationFrames[..f]), |robots|)
        invariant Tracks() == AppendAll(old(Tracks()), Flatten(simulationFrames[..f]))
        invariant modelHeight == MaxHeight(old(modelHeight), Flatten(simulationFrames[..f]))
        invariant Poses() == old(Poses()) && Scene() == old(Scene())
        invariant Shown() == old(Shown())
        modifies this`modelHeight, robots
      {
        ghost var done := Flatten(simulationFrames[..f]);
        var simulationRobots := simulationFrames[f].machines;
        var frameResult := AddFrameKeyframes(simulationRobots);
        ghost var j := FirstBad(simulationRobots, |robots|);
        if frameResult != Ok {
          ghost var all := Flatten(simulationFrames);
          assert && Tracks() == AppendAll(old(Tracks()), all[..FirstBad(all, |robots|)])
                 && modelHeight == MaxHeight(old(modelHeight), all[..FirstBad(all, |robots|)])
                 && frameResult == RunOutcome(all, |robots|) by {
            AppendAllConcat(old(Tracks()), done, simulationRobots[..j]);
            MaxHeightConcat(old(modelHeight), done, simulationRobots[..j]);
            FlattenFirstBad(simulationFrames, f, |robots|);
          }
          return frameResult;
        }
        assert && AllAddress(Flatten(simulationFrames[..f + 1]), |robots|)
               && Tracks() == AppendAll(old(Tracks()), Flatten(simulationFrames[..f + 1]))
               && modelHeight == MaxHeight(old(modelHeight), Flatten(simulationFrames[..f + 1])) by {
          assert simulationRobots[..j] == simulationRobots;
          AppendAllConcat(old(Tracks()), done, simulationRobots);
          MaxHeightConcat(old(modelHeight), done, simulationRobots);
          FlattenStep(simulationFrames, f);
        }
        f := f + 1;
      }
      assert simulationFrames[..f] == simulationFrames;
      FirstBadUnique(Flatten(simulationFrames), |robots|, |Flatten(simulationFrames)|);
      assert Flatten(simulationFrames)[..|Flatten(simulationFrames)|] == Flatten(simulationFrames);
      return Ok;
    }

    /** Appends one new group to the group list. */
    method PushGroup(printedGroup: PrintedGroup)
      requires DistinctGroups() && printedGroup !in printedGroups
      modifies this`printedGroups
      ensures printedGroups == old(printedGroups) + [printedGroup] && DistinctGroups()
      ensures Lines() == old(Lines()) + [printedGroup.lines]
      ensures Shown() == old(Shown()) + [printedGroup.showing]
    {
      printedGroups := printedGroups + [printedGroup];
      assert forall i :: 0 <= i < |old(printedGroups)| ==> printedGroups[i] == old(printedGroups)[i];
    }

    /** Appends one hidden group per frame, built from that frame's printed
        paths with the given interpolator. */
    method AppendFrameGroups(simulationFrames: seq<Frame>, colorInterpolator: ColorInterpolator)
      requires DistinctGroups()
      modifies this`printedGroups
      ensures |printedGroups| == |old(printedGroups)| + |simulationFrames| && DistinctGroups()
      ensures printedGroups[..|old(printedGroups)|] == old(printedGroups)
      ensures Lines() == old(Lines()) + FrameGroupLines(simulationFrames, colorInterpolator.Settings())
      ensures Shown() == old(Shown()) + Hidden(|simulationFrames|)
      ensures forall j :: |old(printedGroups)| <= j < |printedGroups| ==> fresh(printedGroups[j])
    {
      var f := 0;
      while f < |simulationFrames|
        invariant 0 <= f <= |simulationFrames|
        invariant |printedGroups| == |old(printedGroups)| + f
        invariant printedGroups[..|old(printedGroups)|] == old(printedGroups)
        invariant Lines() == old(Lines()) + FrameGroupLines(simulationFrames[..f], colorInterpolator.Settings())
        invariant Shown() == old(Shown()) + Hidden(f)
        invariant forall j :: |old(printedGroups)| <= j < |printedGroups| ==> fresh(printedGroups[j])
        invariant DistinctGroups()
      {
        var printedGroup := BuildGroup(simulationFrames[f].printeds, colorInterpolator);
        PushGroup(printedGroup);
        assert Lines() == old(Lines()) + FrameGroupLines(simulationFrames[..f + 1], colorInterpolator.Settings()) by {
          FrameGroupLinesStep(simulationFrames, f, colorInterpolator.Settings());
        }
        assert Shown() == old(Shown()) + Hidden(f + 1) by {
          assert Hidden(f + 1) == Hidden(f) + [false];
        }
        f := f + 1;
      }
      assert simulationFrames[..f] == simulationFrames;
    }

    /** The groups after a load appended theirs to `groups`, whose lines
        and flags were `lines` and `shown`: an empty group, then one group per
        frame holding its printed paths along the print gradient of `height`,
        all hidden. */
    ghost predicate GroupsAppended(groups: seq<PrintedGroup>, lines: seq<seq<Polyline>>, shown: seq<bool>,
                                   frames: seq<Frame>, height: real)
      reads this`printedGroups, printedGroups
    {
      && |printedGroups| == |groups| + 1 + |frames|
      && printedGroups[..|groups|] == groups
      && Lines() == lines + LoadedLines(frames, PrintGradient(height))
      && Shown() == shown + Hidden(|frames| + 1)
    }

    /** Appends an empty group for the pre-roll index 0, then one hidden group
        per frame holding that frame's printed paths, coloured along the
        print gradient of the current model height. Existing groups stay. */
    method CreatedPrintedGroups(simulationFrames: seq<Frame>) returns (result: Outcome)
      requires Valid()
      modifies this`printedGroups
      ensures result == Ok && Valid()
      ensures GroupsAppended(old(printedGroups), old(Lines()), old(Shown()), simulationFrames, modelHeight)
      ensures forall j :: |old(printedGroups)| <= j < |printedGroups| ==> fresh(printedGroups[j])
    {
      var colorInterpolator := PrintInterpolator(modelHeight);

      var first := new PrintedGroup([]);
      PushGroup(first);
      ghost var groups := printedGroups;
      AppendFrameGroups(simulationFrames, colorInterpolator);
      assert GroupsAppended(old(printedGroups), old(Lines()), old(Shown()), simulationFrames, modelHeight) by {
        assert printedGroups[..|groups|] == groups;
        ConcatAssoc(old(Lines()), [[]], FrameGroupLines(simulationFrames, PrintGradient(modelHeight)));
        ConcatAssoc(old(Shown()), [false], Hidden(|simulationFrames|));
        assert Hidden(|simulationFrames| + 1) == [false] + Hidden(|simulationFrames|);
      }
      assert Watermarked(Shown(), lastPrintedFrame) by {
        HiddenKeepsWatermark(old(Shown()), lastPrintedFrame, |simulationFrames| + 1);
      }
      assert forall j :: |old(printedGroups)| <= j < |printedGroups| ==> fresh(printedGroups[j]) by {
        assert printedGroups[..|groups|] == groups;
        assert printedGroups[|groups| - 1] == first;
      }
      return Ok;
    }

    /** The roster a load leaves behind: `template` first, keeping its pose
        `pose` and scene flag `inScene`, clones in the scene wearing `pose`,
        and every track holding, after its old keyframes `base` (clones:
        none), the keyframes of the log's records up to the first one that
        names no robot. */
    ghost predicate Seeded(template: Robot, pose: Pose, inScene: bool, base: seq<Keyframe>,
                           machines: seq<MachineRecord>, frames: seq<Frame>)
      reads this`robots, robots
    {
      && Replicas(template, pose, inScene, |machines|)
      && Tracks() == AppendAll(Replicated(base, |machines|),
                               (machines + Flatten(frames))[..FirstBad(machines + Flatten(frames), |robots|)])
    }

    /** The robot half of a load: replicate and seed the roster from the
        initial records, then append the frame records. The tracks end up
        holding every record up to the first one that names no robot, as if
        all records had been read in one pass. */
    method IngestRobots(machines: seq<MachineRecord>, frames: seq<Frame>) returns (result: Outcome)
      requires Valid()
      modifies this`robots, this`modelHeight, robots
      ensures Valid()
      ensures old(robots) == [] ==> result == Error && robots == [] && modelHeight == old(modelHeight)
      ensures old(robots) != [] ==>
        && Seeded(old(robots[0]), old(robots[0].CurrentPose()), old(robots[0].inScene), old(robots[0].keyframes),
                  machines, frames)
        && (forall j :: 1 <= j < |robots| ==> fresh(robots[j]))
        && result == RunOutcome(machines + Flatten(frames), |robots|)
        && Retired(old(robots), old(Tracks()), old(Poses()))
      ensures old(robots) != [] && RunOutcome(machines, RosterSize(|machines|)) == Ok ==>
        modelHeight == MaxHeight(old(modelHeight),
                                 Flatten(frames)[..FirstBad(Flatten(frames), RosterSize(|machines|))])
      ensures old(robots) == [] || RunOutcome(machines, RosterSize(|machines|)) != Ok ==>
        modelHeight == old(modelHeight)
      ensures result == Ok ==> modelHeight == MaxHeight(old(modelHeight), Flatten(frames))
    {
      ghost var roster, tracks, poses := robots, Tracks(), Poses();
      ghost var seeded := Replicated(if robots == [] then [] else robots[0].keyframes, |machines|);
      ghost var all := machines + Flatten(frames);
      result := InitalizeRobots(machines);
      if result != Ok {
        if roster != [] {
          assert Tracks() == AppendAll(seeded, all[..FirstBad(all, |robots|)])
              && result == RunOutcome(all, |robots|) by {
            SeedThenAppend(seeded, machines, Flatten(frames));
          }
        }
        return;
      }
      assert machines[..FirstBad(machines, |robots|)] == machines;
      result := SetRobotKeyframes(frames);
      assert Tracks() == AppendAll(seeded, all[..FirstBad(all, |robots|)])
          && result == RunOutcome(all, |robots|) by {
        SeedThenAppend(seeded, machines, Flatten(frames));
      }
    }

    /** Loads a parsed log: a document without `init`, `init.machines` or
        `frames` is an error that changes nothing. Otherwise the frame count
        is set first, then the roster is replicated and seeded, the frame
        records are appended and the printed groups are built; the first
        step that fails ends the load and keeps what the steps before it
        did. */
    method LoadSimulation(simulation: Option<Document>) returns (result: Outcome)
      requires Valid()
      modifies this, robots
      ensures Valid()
      ensures result == LoadOutcome(simulation, |old(robots)|)
      ensures !WellShaped(simulation) ==> unchanged(this) && forall j :: 0 <= j < |robots| ==> unchanged(robots[j])
      ensures WellShaped(simulation) && old(robots) == [] ==> robots == [] && modelHeight == old(modelHeight)
      ensures WellShaped(simulation) ==> frameCount == |Frames(simulation)|
      ensures currentFrame == old(currentFrame) && lastPrintedFrame == old(lastPrintedFrame)
      ensures result != Ok ==> printedGroups == old(printedGroups)
      ensures WellShaped(simulation) && old(robots) != [] ==>
        && Seeded(old(robots[0]), old(robots[0].CurrentPose()), old(robots[0].inScene), old(robots[0].keyframes),
                  InitMachines(simulation), Frames(simulation))
        && (forall j :: 1 <= j < |robots| ==> fresh(robots[j]))
        && Retired(old(robots), old(Tracks()), old(Poses()))
      ensures WellShaped(simulation) && old(robots) != [] &&
              RunOutcome(InitMachines(simulation), RosterSize(|InitMachines(simulation)|)) == Ok ==>
        modelHeight == MaxHeight(old(modelHeight),
                                 Flatten(Frames(simulation))[..FirstBad(Flatten(Frames(simulation)),
                                                                        RosterSize(|InitMachines(simulation)|))])
      ensures WellShaped(simulation) && (old(robots) == [] ||
              RunOutcome(InitMachines(simulation), RosterSize(|InitMachines(simulation)|)) != Ok) ==>
        modelHeight == old(modelHeight)
      ensures result == Ok ==>
        && modelHeight == MaxHeight(old(modelHeight), Flatten(Frames(simulation)))
        && GroupsAppended(old(printedGroups), old(Lines()), old(Shown()), Frames(simulation), modelHeight)
        && (forall j :: |old(printedGroups)| <= j < |printedGroups| ==> fresh(printedGroups[j]))
    {
      if !WellShaped(simulation) {
        return Error;
      }
      var frames := simulation.value.frames.value;
      var machines := simulation.value.init.value.machines.value;
      ghost var roster, lines, shown := |robots|, Lines(), Shown();

      frameCount := |frames|;

      result := IngestRobots(machines, frames);
      assert Lines() == lines && Shown() == shown;
      assert result == LoadOutcome(simulation, roster) by {
        if roster > 0 {
          assert |robots| == RosterSize(|machines|);
          LoadOutcomeIsOnePass(simulation, roster);
        }
      }
      if result != Ok {
        return;
      }
      result := CreatedPrintedGroups(frames);
    }
  }
}
