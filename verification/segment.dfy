/** A segment of the snake (segment.py): a heap object whose position and
    angle the game updates in place. The image, rotated sprite and rect
    are drawing state and are not modelled. */
module Segments {
  import opened Geometry

  class Segment {
    var pos: Vec
    var angle: real
    /** A proof-only identity, fixed at creation; the game uses it to tell
        its segments apart. */
    ghost const id: int

    constructor (x: real, y: real, angle: real, ghost id: int)
      ensures ToPose() == Pose(Vec(x, y), angle) && this.id == id
    {
      pos := Vec(x, y);
      this.angle := angle;
      this.id := id;
    }

    function ToPose(): Pose
      reads this
    {
      Pose(pos, angle)
    }
  }

  /** The poses of a list of segments, in order. */
  function PosesOf(segs: seq<Segment>): (r: seq<Pose>)
    reads segs
    ensures |r| == |segs|
  {
    if segs == [] then [] else PosesOf(segs[..|segs| - 1]) + [segs[|segs| - 1].ToPose()]
  }

  /** Entry k of the poses is the pose of segment k. */
  lemma {:induction false} PosesOfIndex(segs: seq<Segment>)
    ensures forall k :: 0 <= k < |segs| ==> PosesOf(segs)[k] == segs[k].ToPose()
  {
    if segs != [] {
      var front := segs[..|segs| - 1];
      PosesOfIndex(front);
      assert forall k :: 0 <= k < |front| ==> front[k] == segs[k];
    }
  }

  /** The poses are the first segment's, then those of the others. */
  lemma {:induction false} PosesOfCons(segs: seq<Segment>)
    requires |segs| >= 1
    ensures PosesOf(segs) == [segs[0].ToPose()] + PosesOf(segs[1..])
  {
    var n := |segs|;
    if n > 1 {
      var front := segs[..n - 1];
      PosesOfCons(front);
      assert front[1..] == segs[1..][..n - 2];
    }
  }

  /** The first pose is the first segment's. */
  lemma PosesOfFirst(segs: seq<Segment>)
    requires |segs| >= 1
    ensures PosesOf(segs)[0] == segs[0].ToPose()
  {
    PosesOfIndex(segs);
  }

  /** A list of poses that agrees with the segments entry by entry is their
      list of poses. */
  lemma PosesOfIs(segs: seq<Segment>, poses: seq<Pose>)
    requires |poses| == |segs|
    requires forall k :: 0 <= k < |segs| ==> segs[k].ToPose() == poses[k]
    ensures PosesOf(segs) == poses
  {
    PosesOfIndex(segs);
  }

  /** Growth as poses: a new segment with the last segment's pose takes the
      last place, and the last segment follows it. */
  lemma PosesOfGrow(segs: seq<Segment>, grown: Segment)
    requires |segs| >= 1 && grown.ToPose() == segs[|segs| - 1].ToPose()
    ensures var n := |segs|; var was := PosesOf(segs);
      PosesOf(segs[..n - 1] + [grown] + [segs[n - 1]]) == was[..n - 1] + [was[n - 1]] + [was[n - 1]]
  {
    var n := |segs|;
    var kept := segs[..n - 1];
    var longer := kept + [grown] + [segs[n - 1]];
    assert longer[..n] == kept + [grown] && (kept + [grown])[..n - 1] == kept;
    assert PosesOf(segs)[..n - 1] == PosesOf(kept);
  }

  /** Every entry but the last has its own position as identity, and the
      last one a negative identity, so no segment appears twice. */
  ghost predicate Numbered(segs: seq<Segment>)
  {
    && |segs| >= 1
    && segs[|segs| - 1].id < 0
    && forall k :: 0 <= k < |segs| - 1 ==> segs[k].id == k
  }
}
