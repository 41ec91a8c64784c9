/** The two kinds of scene objects the playback engine drives: printed-path
    groups, which are shown or hidden, and robots, which are posed from their
    keyframe tracks. The scene graph itself is external: an object's
    membership in it is modelled by a flag on the object. */
module Actors {
  import opened Util
  import opened Geometry

  /** One robot's pose at one simulated frame, in world coordinates. */
  datatype Keyframe = Keyframe(x: real, y: real, z: real, rotation: real)

  /** A drawn polyline: its world vertices and its colour. */
  datatype Polyline = Polyline(vertices: seq<Point3>, color: Option<int>)

  /** The material printed during one simulated frame, drawn as one group. */
  class PrintedGroup {
    var lines: seq<Polyline>
    /** Whether the group is currently in the scene. */
    var showing: bool

    constructor(meshes: seq<Polyline>)
      ensures lines == meshes && !showing
    {
      lines := meshes;
      showing := false;
    }

    method Add(line: Polyline)
      modifies this
      ensures lines == old(lines) + [line]
      ensures showing == old(showing)
    {
      lines := lines + [line];
    }

    /** Puts the group into the scene unless it is already there; a second
        call changes nothing. */
    method AddToScene()
      modifies this
      ensures showing && lines == old(lines)
      ensures old(showing) ==> unchanged(this)
    {
      if showing {
        return;
      }
      showing := true;
    }

    /** Takes the group out of the scene unless it is already out; a second
        call changes nothing. */
    method RemoveFromScene()
      modifies this
      ensures !showing && lines == old(lines)
      ensures !old(showing) ==> unchanged(this)
    {
      if !showing {
        return;
      }
      showing := false;
    }
  }

  /** The placement of a robot's two parts, body and print head: positions and
      Euler rotations. */
  datatype Pose = Pose(
    bodyPosition: Point3, headPosition: Point3,
    bodyRotation: Point3, headRotation: Point3)

  /** The pose a keyframe puts a robot in: the print head at the keyframe's
      point, the body at the same point on the ground, both turned by the
      keyframe's rotation about the vertical axis. */
  function KeyframePose(k: Keyframe): Pose
  {
    Pose(Point3(k.x, 0.0, k.z), Point3(k.x, k.y, k.z),
         Point3(0.0, k.rotation, 0.0), Point3(0.0, k.rotation, 0.0))
  }

  /** The pose a robot has after being posed from frame `frame` of its
      track: the keyframe's pose when the track reaches that frame, otherwise
      the pose it had before. */
  function PosedAt(track: seq<Keyframe>, frame: int, before: Pose): Pose
  {
    if 0 <= frame < |track| then KeyframePose(track[frame]) else before
  }

  /** Reads the keyframe back off a pose: the print head's position and yaw. */
  function PoseKeyframe(p: Pose): Keyframe
  {
    Keyframe(p.headPosition.x, p.headPosition.y, p.headPosition.z, p.headRotation.y)
  }

  /** Posing loses nothing: the keyframe can be read back from the pose. */
  lemma KeyframePoseRoundTrip(k: Keyframe)
    ensures PoseKeyframe(KeyframePose(k)) == k
  {
  }

  /** A robot: the pose of its graphics, its keyframe track, and whether its
      graphics are in the scene. */
  class Robot {
    var bodyPosition: Point3
    var headPosition: Point3
    var bodyRotation: Point3
    var headRotation: Point3
    var keyframes: seq<Keyframe>
    var inScene: bool

    function CurrentPose(): Pose
      reads this
    {
      Pose(bodyPosition, headPosition, bodyRotation, headRotation)
    }

    /** Wraps loaded graphics in the given pose; the track starts empty. */
    constructor(graphics: Pose)
      ensures CurrentPose() == graphics
      ensures keyframes == [] && !inScene
    {
      bodyPosition := graphics.bodyPosition;
      headPosition := graphics.headPosition;
      bodyRotation := graphics.bodyRotation;
      headRotation := graphics.headRotation;
      keyframes := [];
      inScene := false;
    }

    /** The body stays on the ground under the print head. */
    method SetLocation(x: real, y: real, z: real)
      modifies this
      ensures bodyPosition == Point3(x, 0.0, z) && headPosition == Point3(x, y, z)
      ensures bodyRotation == old(bodyRotation) && headRotation == old(headRotation)
      ensures keyframes == old(keyframes) && inScene == old(inScene)
    {
      bodyPosition := Point3(x, 0.0, z);
      headPosition := Point3(x, y, z);
    }

    method SetRotation(theta: real)
      modifies this
      ensures bodyRotation == Point3(0.0, theta, 0.0) && headRotation == Point3(0.0, theta, 0.0)
      ensures bodyPosition == old(bodyPosition) && headPosition == old(headPosition)
      ensures keyframes == old(keyframes) && inScene == old(inScene)
    {
      bodyRotation := Point3(0.0, theta, 0.0);
      headRotation := Point3(0.0, theta, 0.0);
    }

    /** Appends exactly one keyframe; the earlier ones are kept. */
    method AddKeyframe(x: real, y: real, z: real, rotation: real)
      modifies this
      ensures keyframes == old(keyframes) + [Keyframe(x, y, z, rotation)]
      ensures CurrentPose() == old(CurrentPose()) && inScene == old(inScene)
    {
      keyframes := keyframes + [Keyframe(x, y, z, rotation)];
    }

    /** Poses the robot from keyframe `frameIndex`, or does nothing when the
        track is too short. (A negative index reads `undefined` in JavaScript
        and throws, so callers pass a natural number.) */
    method SetFrame(frameIndex: int)
      requires 0 <= frameIndex
      modifies this
      ensures frameIndex >= |keyframes| ==> unchanged(this)
      ensures CurrentPose() == PosedAt(keyframes, frameIndex, old(CurrentPose()))
      ensures frameIndex < |keyframes| ==> PoseKeyframe(CurrentPose()) == keyframes[frameIndex]
      ensures keyframes == old(keyframes) && inScene == old(inScene)
    {
      if frameIndex >= |keyframes| {
        return;
      } else {
        var keyframe := keyframes[frameIndex];
        SetLocation(keyframe.x, keyframe.y, keyframe.z);
        SetRotation(keyframe.rotation);
        KeyframePoseRoundTrip(keyframe);
      }
    }

    method AddToScene()
      modifies this
      ensures inScene
      ensures CurrentPose() == old(CurrentPose()) && keyframes == old(keyframes)
    {
      inScene := true;
    }

    method RemoveFromScene()
      modifies this
      ensures !inScene
      ensures CurrentPose() == old(CurrentPose()) && keyframes == old(keyframes)
    {
      inScene := false;
    }

    /** A new robot with a copy of this robot's graphics (so its current
        pose) and an empty keyframe track of its own; the copy is not yet in
        the scene. */
    method Clone() returns (newRobot: Robot)
      ensures fresh(newRobot)
      ensures newRobot.CurrentPose() == CurrentPose()
      ensures newRobot.keyframes == [] && !newRobot.inScene
    {
      newRobot := new Robot(CurrentPose());
    }
  }
}
