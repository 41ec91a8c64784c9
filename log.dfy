/** The recorded simulation log and what ingesting it computes: keyframe
    tracks, the model height and the printed-path groups, as functions of the
    log. */
module Log {
  import opened Util
  import opened Geometry
  import opened Actors
  import opened Color

  /** One machine's state in a log record: its roster index `n`, its point
      `v` and its rotation `r`. */
  datatype MachineRecord = MachineRecord(n: int, v: RawPoint, r: real)

  /** One simulated frame: a record per machine and the polylines printed. */
  datatype Frame = Frame(machines: seq<MachineRecord>, printeds: seq<seq<RawPoint>>)

  datatype Init = Init(machines: Option<seq<MachineRecord>>)

  /** The parsed log document; the keys the loader tests for may be missing. */
  datatype Document = Document(init: Option<Init>, frames: Option<seq<Frame>>)

  /** The document is present and has `init`, `init.machines` and `frames`. */
  predicate WellShaped(doc: Option<Document>)
  {
    doc.Some? && doc.value.init.Some? && doc.value.init.value.machines.Some?
    && doc.value.frames.Some?
  }

  function InitMachines(doc: Option<Document>): seq<MachineRecord>
    requires WellShaped(doc)
  {
    doc.value.init.value.machines.value
  }

  function Frames(doc: Option<Document>): seq<Frame>
    requires WellShaped(doc)
  {
    doc.value.frames.value
  }

  /** The keyframe a record contributes: its point through the world
      transform, its rotation unchanged. */
  function KeyframeOf(m: MachineRecord): (k: Keyframe)
    ensures ToLog(Point3(k.x, k.y, k.z)) == m.v
    ensures k.y == Height(m.v) && k.rotation == m.r
  {
    var p := ToWorld(m.v);
    Keyframe(p.x, p.y, p.z, m.r)
  }

  predicate Addresses(m: MachineRecord, size: nat)
  {
    0 <= m.n < size
  }

  /** The index of the first record whose robot index is not in
      `[0, size)`, or the number of records when there is none. Ingestion
      stops there. */
  function FirstBad(recs: seq<MachineRecord>, size: nat): (k: nat)
    ensures k <= |recs|
    ensures forall i :: 0 <= i < k ==> Addresses(recs[i], size)
    ensures k < |recs| ==> !Addresses(recs[k], size)
  {
    if recs == [] then 0
    else if Addresses(recs[0], size) then 1 + FirstBad(recs[1..], size)
    else 0
  }

  /** How a pass over the records ends: `Ok` when every record addresses a
      robot, `Error` at a first bad index that is too large (the loader's own
      check), `Thrown` at a first bad index that is negative (reading the
      robot `undefined` throws). */
  function RunOutcome(recs: seq<MachineRecord>, size: nat): Outcome
  {
    var k := FirstBad(recs, size);
    if k == |recs| then Ok
    else if recs[k].n >= size then Error
    else Thrown
  }

  lemma {:induction false} RunOutcomeCases(recs: seq<MachineRecord>, size: nat)
    ensures RunOutcome(recs, size) == Ok <==> forall i :: 0 <= i < |recs| ==> Addresses(recs[i], size)
    ensures RunOutcome(recs, size) == Error <==>
      exists k :: 0 <= k < |recs| && recs[k].n >= size && forall i :: 0 <= i < k ==> Addresses(recs[i], size)
  {
    var k := FirstBad(recs, size);
    if RunOutcome(recs, size) == Error {
      assert 0 <= k < |recs| && recs[k].n >= size;
    }
    if exists j :: 0 <= j < |recs| && recs[j].n >= size && forall i :: 0 <= i < j ==> Addresses(recs[i], size) {
      var j :| 0 <= j < |recs| && recs[j].n >= size && forall i :: 0 <= i < j ==> Addresses(recs[i], size);
      assert k == j;
    }
    if RunOutcome(recs, size) != Ok {
      assert !Addresses(recs[k], size);
    }
  }

  predicate AllAddress(recs: seq<MachineRecord>, size: nat)
  {
    forall i :: 0 <= i < |recs| ==> Addresses(recs[i], size)
  }

  /** The roster size after replication for `count` records: the template
      robot plus one clone for every record after the first. */
  function RosterSize(count: int): (r: nat)
    ensures r >= 1 && r >= count
  {
    if count > 1 then count else 1
  }

  /** The keyframe tracks right after replication: the template keeps its
      track and every clone starts with an empty one. */
  function Replicated(base: seq<Keyframe>, count: int): (r: seq<seq<Keyframe>>)
    ensures |r| == RosterSize(count) && r[0] == base
    ensures forall i :: 1 <= i < |r| ==> r[i] == []
  {
    [base] + seq(RosterSize(count) - 1, _ => [])
  }

  /** The keyframe tracks after appending each record's keyframe, in order,
      to the track of the robot it names. */
  function AppendAll(tracks: seq<seq<Keyframe>>, recs: seq<MachineRecord>): (r: seq<seq<Keyframe>>)
    requires AllAddress(recs, |tracks|)
    ensures |r| == |tracks|
  {
    if recs == [] then tracks
    else
      var last := recs[|recs| - 1];
      var t := AppendAll(tracks, recs[..|recs| - 1]);
      t[last.n := t[last.n] + [KeyframeOf(last)]]
  }

  /** The keyframes of the records that name robot `i`, in record order. */
  function KeyframesFor(recs: seq<MachineRecord>, i: int): seq<Keyframe>
  {
    if recs == [] then []
    else
      var last := recs[|recs| - 1];
      KeyframesFor(recs[..|recs| - 1], i) + (if last.n == i then [KeyframeOf(last)] else [])
  }

  /** Each robot's track keeps its old keyframes and gains, in order, the
      keyframes of exactly the records that name it. */
  lemma {:induction false} AppendAllAt(tracks: seq<seq<Keyframe>>, recs: seq<MachineRecord>, i: int)
    requires AllAddress(recs, |tracks|)
    requires 0 <= i < |tracks|
    ensures AppendAll(tracks, recs)[i] == tracks[i] + KeyframesFor(recs, i)
  {
    if recs != [] {
      AppendAllAt(tracks, recs[..|recs| - 1], i);
    }
  }

  function TotalLength(tracks: seq<seq<Keyframe>>): nat
  {
    if tracks == [] then 0 else TotalLength(tracks[..|tracks| - 1]) + |tracks[|tracks| - 1]|
  }

  lemma {:induction false} TotalLengthUpdate(tracks: seq<seq<Keyframe>>, i: int, t: seq<Keyframe>)
    requires 0 <= i < |tracks|
    ensures TotalLength(tracks[i := t]) == TotalLength(tracks) - |tracks[i]| + |t|
  {
    var n := |tracks| - 1;
    if i < n {
      TotalLengthUpdate(tracks[..n], i, t);
      assert tracks[i := t][..n] == tracks[..n][i := t];
    } else {
      assert tracks[i := t][..n] == tracks[..n];
    }
  }

  /** One more record appends its keyframe to the track of the robot it
      names. */
  lemma AppendAllStep(tracks: seq<seq<Keyframe>>, recs: seq<MachineRecord>, k: int)
    requires 0 <= k < |recs| && AllAddress(recs[..k], |tracks|) && Addresses(recs[k], |tracks|)
    ensures AllAddress(recs[..k + 1], |tracks|)
    ensures AppendAll(tracks, recs[..k + 1])
         == AppendAll(tracks, recs[..k])[recs[k].n := AppendAll(tracks, recs[..k])[recs[k].n] + [KeyframeOf(recs[k])]]
  {
    assert recs[..k + 1][..k] == recs[..k];
  }

  /** Exactly one keyframe is appended per record. */
  lemma {:induction false} AppendAllCount(tracks: seq<seq<Keyframe>>, recs: seq<MachineRecord>)
    requires AllAddress(recs, |tracks|)
    ensures TotalLength(AppendAll(tracks, recs)) == TotalLength(tracks) + |recs|
  {
    if recs != [] {
      var last := recs[|recs| - 1];
      var t := AppendAll(tracks, recs[..|recs| - 1]);
      AppendAllCount(tracks, recs[..|recs| - 1]);
      TotalLengthUpdate(t, last.n, t[last.n] + [KeyframeOf(last)]);
    }
  }

  /** `FirstBad` is the only index with its three properties. */
  lemma FirstBadUnique(recs: seq<MachineRecord>, size: nat, k: int)
    requires 0 <= k <= |recs|
    requires forall i :: 0 <= i < k ==> Addresses(recs[i], size)
    requires k < |recs| ==> !Addresses(recs[k], size)
    ensures FirstBad(recs, size) == k
  {
  }

  /** Appending records in two batches gives the same tracks as appending
      them in one. */
  lemma {:induction false} AppendAllConcat(tracks: seq<seq<Keyframe>>, a: seq<MachineRecord>, b: seq<MachineRecord>)
    requires AllAddress(a, |tracks|) && AllAddress(b, |tracks|)
    ensures AllAddress(a + b, |tracks|)
    ensures AppendAll(tracks, a + b) == AppendAll(AppendAll(tracks, a), b)
  {
    assert forall i :: 0 <= i < |a + b| ==> (a + b)[i] == if i < |a| then a[i] else b[i - |a|];
    if b == [] {
      assert a + b == a;
    } else {
      var n := |b| - 1;
      assert (a + b)[..|a + b| - 1] == a + b[..n];
      AppendAllConcat(tracks, a, b[..n]);
    }
  }

  /** The running maximum `modelHeight` reaches: the old value and the
      height of every record, whichever is largest. */
  function MaxHeight(h: real, recs: seq<MachineRecord>): real
  {
    if recs == [] then h
    else
      var last := recs[|recs| - 1];
      var m := MaxHeight(h, recs[..|recs| - 1]);
      if Height(last.v) > m then Height(last.v) else m
  }

  /** One more record raises the running maximum to its height when that
      is higher. */
  lemma MaxHeightStep(h: real, recs: seq<MachineRecord>, k: int)
    requires 0 <= k < |recs|
    ensures MaxHeight(h, recs[..k + 1])
         == if Height(recs[k].v) > MaxHeight(h, recs[..k]) then Height(recs[k].v) else MaxHeight(h, recs[..k])
  {
    assert recs[..k + 1][..k] == recs[..k];
  }

  /** The running maximum is the largest of the old value and the record
      heights: it bounds them all and is one of them. */
  lemma {:induction false} MaxHeightIsMax(h: real, recs: seq<MachineRecord>)
    ensures MaxHeight(h, recs) >= h
    ensures forall i :: 0 <= i < |recs| ==> MaxHeight(h, recs) >= Height(recs[i].v)
    ensures MaxHeight(h, recs) == h || exists i :: 0 <= i < |recs| && MaxHeight(h, recs) == Height(recs[i].v)
  {
    if recs != [] {
      var n := |recs| - 1;
      MaxHeightIsMax(h, recs[..n]);
      if MaxHeight(h, recs[..n]) != h && MaxHeight(h, recs) == MaxHeight(h, recs[..n]) {
        var i :| 0 <= i < n && MaxHeight(h, recs[..n]) == Height(recs[..n][i].v);
        assert recs[..n][i] == recs[i];
      }
      assert forall i :: 0 <= i < n ==> recs[..n][i] == recs[i];
    }
  }

  /** Raising the running maximum over records in two batches gives the
      same height as over all of them in one. */
  lemma {:induction false} MaxHeightConcat(h: real, a: seq<MachineRecord>, b: seq<MachineRecord>)
    ensures MaxHeight(h, a + b) == MaxHeight(MaxHeight(h, a), b)
  {
    if b == [] {
      assert a + b == a;
    } else {
      var n := |b| - 1;
      assert (a + b)[..|a + b| - 1] == a + b[..n];
      MaxHeightConcat(h, a, b[..n]);
    }
  }

  /** All the machine records of the frames, frame after frame. */
  function Flatten(frames: seq<Frame>): (r: seq<MachineRecord>)
  {
    if frames == [] then [] else Flatten(frames[..|frames| - 1]) + frames[|frames| - 1].machines
  }

  lemma {:induction false} FlattenAppend(a: seq<Frame>, b: seq<Frame>)
    ensures Flatten(a + b) == Flatten(a) + Flatten(b)
  {
    if b != [] {
      var n := |b| - 1;
      assert (a + b)[..|a + b| - 1] == a + b[..n];
      FlattenAppend(a, b[..n]);
    } else {
      assert a + b == a;
    }
  }

  /** The records of frame `f` follow those of the frames before it. */
  lemma {:induction false} FlattenSplit(frames: seq<Frame>, f: int)
    requires 0 <= f < |frames|
    ensures Flatten(frames) == Flatten(frames[..f]) + frames[f].machines + Flatten(frames[f + 1..])
  {
    var a, b := frames[..f + 1], frames[f + 1..];
    assert frames == a + b;
    FlattenAppend(a, b);
    assert a[..|a| - 1] == frames[..f];
    assert Flatten(a) == Flatten(frames[..f]) + frames[f].machines;
  }

  /** The records of the first `f + 1` frames are those of the first `f`
      followed by frame `f`'s. */
  lemma FlattenStep(frames: seq<Frame>, f: int)
    requires 0 <= f < |frames|
    ensures Flatten(frames[..f + 1]) == Flatten(frames[..f]) + frames[f].machines
  {
    assert frames[..f + 1][..f] == frames[..f];
  }

  /** When frame `f` holds the first record that names no robot, a pass over
      all records stops inside frame `f`, at the same record. */
  lemma FlattenFirstBad(frames: seq<Frame>, f: int, size: nat)
    requires 0 <= f < |frames|
    requires AllAddress(Flatten(frames[..f]), size)
    requires FirstBad(frames[f].machines, size) < |frames[f].machines|
    ensures FirstBad(Flatten(frames), size) == |Flatten(frames[..f])| + FirstBad(frames[f].machines, size)
    ensures Flatten(frames)[..FirstBad(Flatten(frames), size)]
         == Flatten(frames[..f]) + frames[f].machines[..FirstBad(frames[f].machines, size)]
    ensures RunOutcome(Flatten(frames), size) == RunOutcome(frames[f].machines, size)
  {
    var all, done, m := Flatten(frames), Flatten(frames[..f]), frames[f].machines;
    var j := FirstBad(m, size);
    FlattenSplit(frames, f);
    assert all[..|done| + j] == done + m[..j];
    assert all[|done| + j] == m[j];
    FirstBadUnique(all, size, |done| + j);
  }

  /** How loading a document ends for a roster of `roster` robots: an error
      without the expected keys or without a robot to clone, otherwise the
      outcome of the initial records and then, if they all name a robot,
      that of the frame records. */
  function LoadOutcome(doc: Option<Document>, roster: nat): Outcome
  {
    if !WellShaped(doc) || roster == 0 then Error
    else
      var size := RosterSize(|InitMachines(doc)|);
      var init := RunOutcome(InitMachines(doc), size);
      if init != Ok then init else RunOutcome(Flatten(Frames(doc)), size)
  }

  /** A pass over `a + b` stops where the pass over `a` stops, or, when
      every record of `a` names a robot, inside `b` where the pass over `b`
      stops. */
  lemma FirstBadConcat(a: seq<MachineRecord>, b: seq<MachineRecord>, size: nat)
    ensures FirstBad(a, size) < |a| ==>
      && FirstBad(a + b, size) == FirstBad(a, size)
      && (a + b)[..FirstBad(a + b, size)] == a[..FirstBad(a, size)]
      && RunOutcome(a + b, size) == RunOutcome(a, size)
    ensures FirstBad(a, size) == |a| ==>
      && FirstBad(a + b, size) == |a| + FirstBad(b, size)
      && (a + b)[..FirstBad(a + b, size)] == a + b[..FirstBad(b, size)]
      && RunOutcome(a + b, size) == RunOutcome(b, size)
  {
    var i, j := FirstBad(a, size), FirstBad(b, size);
    if i < |a| {
      assert (a + b)[i] == a[i];
      FirstBadUnique(a + b, size, i);
      assert (a + b)[..i] == a[..i];
    } else {
      if j < |b| {
        assert (a + b)[|a| + j] == b[j];
      }
      FirstBadUnique(a + b, size, |a| + j);
      assert (a + b)[..|a| + j] == a + b[..j];
    }
  }

  /** Seeding the tracks from `machines` and then appending `flat`, each
      pass stopping at its first record that names no robot, leaves the
      tracks one pass over `machines + flat` would leave. */
  lemma SeedThenAppend(tracks: seq<seq<Keyframe>>, machines: seq<MachineRecord>, flat: seq<MachineRecord>)
    ensures RunOutcome(machines, |tracks|) != Ok ==>
      && RunOutcome(machines + flat, |tracks|) == RunOutcome(machines, |tracks|)
      && AppendAll(tracks, (machines + flat)[..FirstBad(machines + flat, |tracks|)])
         == AppendAll(tracks, machines[..FirstBad(machines, |tracks|)])
    ensures RunOutcome(machines, |tracks|) == Ok ==>
      && AllAddress(machines, |tracks|)
      && RunOutcome(machines + flat, |tracks|) == RunOutcome(flat, |tracks|)
      && AppendAll(tracks, (machines + flat)[..FirstBad(machines + flat, |tracks|)])
         == AppendAll(AppendAll(tracks, machines), flat[..FirstBad(flat, |tracks|)])
  {
    var size := |tracks|;
    FirstBadConcat(machines, flat, size);
    if RunOutcome(machines, size) == Ok {
      AppendAllConcat(tracks, machines, flat[..FirstBad(flat, size)]);
    }
  }

  /** Loading stops at the same record as one pass over all the records of
      the log, the initial ones first. */
  lemma LoadOutcomeIsOnePass(doc: Option<Document>, roster: nat)
    requires WellShaped(doc) && roster > 0
    ensures LoadOutcome(doc, roster)
         == RunOutcome(InitMachines(doc) + Flatten(Frames(doc)), RosterSize(|InitMachines(doc)|))
  {
    FirstBadConcat(InitMachines(doc), Flatten(Frames(doc)), RosterSize(|InitMachines(doc)|));
  }

  /** Loading succeeds exactly when the document has its keys, the roster is
      not empty and every record of the log names a robot of the replicated
      roster. */
  lemma LoadOkIff(doc: Option<Document>, roster: nat)
    ensures LoadOutcome(doc, roster) == Ok <==>
      && WellShaped(doc) && roster > 0
      && AllAddress(InitMachines(doc) + Flatten(Frames(doc)), RosterSize(|InitMachines(doc)|))
  {
    if WellShaped(doc) && roster > 0 {
      LoadOutcomeIsOnePass(doc, roster);
      RunOutcomeCases(InitMachines(doc) + Flatten(Frames(doc)), RosterSize(|InitMachines(doc)|));
    }
  }

  // ----- Printed-path groups -----

  const PrintStartColor: int := 0x2d3dbf
  const PrintEndColor: int := 0xffffff
  /** The value range runs up to 10% above the model height. */
  const HeightMargin: real := 1.1

  /** The calibration the group builder gives its interpolator. */
  function PrintGradient(modelHeight: real): Gradient
  {
    Gradient(0.0, modelHeight * HeightMargin,
             Red(PrintStartColor), Red(PrintEndColor),
             Green(PrintStartColor), Green(PrintEndColor),
             Blue(PrintStartColor), Blue(PrintEndColor))
  }

  /** The polyline drawn for a printed path: its world vertices, coloured by
      the height of its last vertex. */
  function LineOf(printed: seq<RawPoint>, g: Gradient): Polyline
    requires |printed| >= 2
  {
    Polyline(WorldPath(printed), ColorAt(g, Height(printed[|printed| - 1])))
  }

  /** The polylines of one frame's group: paths of fewer than two points are
      dropped. */
  function FrameLines(printeds: seq<seq<RawPoint>>, g: Gradient): seq<Polyline>
  {
    if printeds == [] then []
    else
      var p := printeds[|printeds| - 1];
      FrameLines(printeds[..|printeds| - 1], g) + (if |p| >= 2 then [LineOf(p, g)] else [])
  }

  /** The lines of the groups one load appends: an empty group for the
      pre-roll index, then one group per frame. */
  function LoadedLines(frames: seq<Frame>, g: Gradient): (r: seq<seq<Polyline>>)
    ensures |r| == |frames| + 1 && r[0] == []
    ensures forall f :: 0 <= f < |frames| ==> r[f + 1] == FrameLines(frames[f].printeds, g)
  {
    [[]] + FrameGroupLines(frames, g)
  }

  /** The lines of the groups built for `frames`, one group per frame. */
  function FrameGroupLines(frames: seq<Frame>, g: Gradient): (r: seq<seq<Polyline>>)
    ensures |r| == |frames|
    ensures forall f :: 0 <= f < |frames| ==> r[f] == FrameLines(frames[f].printeds, g)
  {
    seq(|frames|, f requires 0 <= f < |frames| => FrameLines(frames[f].printeds, g))
  }

  /** Building the group of one more frame appends its lines. */
  lemma FrameGroupLinesStep(frames: seq<Frame>, f: int, g: Gradient)
    requires 0 <= f < |frames|
    ensures FrameGroupLines(frames[..f + 1], g) == FrameGroupLines(frames[..f], g) + [FrameLines(frames[f].printeds, g)]
  {
  }

  /** The paths a group keeps, as a plain filter. */
  function Kept(printeds: seq<seq<RawPoint>>): (r: seq<seq<RawPoint>>)
    ensures forall j :: 0 <= j < |r| ==> |r[j]| >= 2
  {
    if printeds == [] then []
    else if |printeds[0]| >= 2 then [printeds[0]] + Kept(printeds[1..])
    else Kept(printeds[1..])
  }

  lemma {:induction false} KeptAppend(a: seq<seq<RawPoint>>, b: seq<seq<RawPoint>>)
    ensures Kept(a + b) == Kept(a) + Kept(b)
  {
    if a != [] {
      assert (a + b)[1..] == a[1..] + b;
      KeptAppend(a[1..], b);
    } else {
      assert a + b == b;
    }
  }

  /** A group holds one line per kept path, in order, each built from its path
      alone; every line has at least two vertices. */
  lemma {:induction false} FrameLinesAreKeptPaths(printeds: seq<seq<RawPoint>>, g: Gradient)
    ensures |FrameLines(printeds, g)| == |Kept(printeds)|
    ensures forall j :: 0 <= j < |Kept(printeds)| ==> FrameLines(printeds, g)[j] == LineOf(Kept(printeds)[j], g)
    ensures forall j :: 0 <= j < |Kept(printeds)| ==> |FrameLines(printeds, g)[j].vertices| >= 2
  {
    if printeds != [] {
      var n := |printeds| - 1;
      var p := printeds[n];
      FrameLinesAreKeptPaths(printeds[..n], g);
      assert printeds == printeds[..n] + [p];
      KeptAppend(printeds[..n], [p]);
      assert [p][1..] == [];
    }
  }
}
