/** The `Game` object of Procedural_Snake.py and the game logic of one
    iteration of `Game.run`, as `Step`. Each phase of the frame is a method
    proved to perform the matching function of module Rules on the
    snapshot `Snap()`, so `Step` performs `Rules.Next`. */
module Snake {
  import opened Geometry
  import opened Rules
  import opened Segments

  class Game {
    // self.head, self.body and self.tail: never rebound, and the same
    // objects as the entries of `segments`.
    const head: Segment
    const body: Segment
    const tail: Segment
    /** The non-degenerate branch of `constrain_distance`. */
    const place: Placement

    var segments: seq<Segment>
    var score: int
    var highscore: int      // self.highscore['highscore']
    var startGame: bool
    var gameOver: bool
    var gotNewScore: bool
    var eatenApple: bool
    var screenshake: int
    var applePos: Vec
    /** The highscore read from the highscore file at start-up. */
    ghost const stored: int
    /** How many times the highscore file has been written since. */
    ghost var saves: nat

    /** The chain is at least head, body and tail, with the head first, the
        body second and the tail last, and no segment appears twice. */
    ghost predicate Valid()
      reads this`segments
    {
      && |segments| >= 3
      && segments[0] == head && segments[1] == body && segments[|segments| - 1] == tail
      && Numbered(segments)
    }

    /** The highscore file is written once for every point the highscore
        has risen above the stored one. */
    ghost predicate Recorded()
      reads this`saves, this`highscore
    {
      saves == highscore - stored
    }

    /** The value of everything the frame logic reads and writes. */
    ghost function Snap(): State
      reads this, segments
    {
      State(PosesOf(segments), score, highscore, startGame, gameOver,
            gotNewScore, eatenApple, screenshake, applePos)
    }

    /** `Game.__init__` without the window, assets and fonts; `stored` is the
        highscore read from the highscore file. */
    constructor (stored: int, place: Placement)
      ensures Valid() && Snap() == Initial(stored)
      ensures this.place == place && this.stored == stored && saves == 0 && Recorded()
      ensures fresh(head) && fresh(body) && fresh(tail)
    {
      head := new Segment(150.0, 250.0, 0.0, 0);
      body := new Segment(0.0, 250.0, 0.0, 1);
      tail := new Segment(0.0, 250.0, 0.0, -1);
      this.place := place;
      score := 0;
      screenshake := 0;
      startGame := false;
      gameOver := false;
      eatenApple := false;
      gotNewScore := false;
      applePos := Vec(350.0, 250.0);
      segments := [head, body, tail];
      highscore := stored;
      this.stored := stored;
      saves := 0;
      new;
      PosesOfIs(segments, [HeadStart, BodyStart, BodyStart]);
    }

    /** Lines 96-108. The poses of the first three entries are written, so
        the entry at index 2 is reset whether it is the tail or a grown
        segment; then the list is rebound to [head, body, tail], so after
        growth the tail keeps its pose. */
    method Reset()
      requires Valid()
      modifies this, segments[0], segments[1], segments[2]
      ensures Valid() && segments == [head, body, tail]
      ensures Snap() == Restart(old(Snap()))
      ensures saves == old(saves)
    {
      ghost var was := PosesOf(segments);
      if !startGame {
        startGame := true;
      }
      if startGame {
        gameOver, score, applePos := false, 0, AppleStart;
        PlaceAtStart();
        segments := [head, body, tail];
        ghost var tailPose := if |was| == 3 then BodyStart else was[|was| - 1];
        PosesOfIs(segments, [HeadStart, BodyStart, tailPose]);
      }
    }

    /** Lines 101-103 and 105-107: the first three entries of the list get
        the start poses; no other segment moves. */
    method PlaceAtStart()
      requires Valid()
      modifies segments[0], segments[1], segments[2]
      ensures segments[0].ToPose() == HeadStart && segments[1].ToPose() == BodyStart
      ensures segments[2].ToPose() == BodyStart
      ensures forall k :: 3 <= k < |segments| ==> segments[k].ToPose() == old(segments[k].ToPose())
    {
      segments[0].pos := Vec(150.0, 250.0);
      segments[1].pos := Vec(0.0, 250.0);
      segments[2].pos := Vec(0.0, 250.0);
      segments[0].angle := 0.0;
      segments[1].angle := 0.0;
      segments[2].angle := 0.0;
    }

    /** Lines 120-129: turn, then advance along the heading read through
        `self.head`, once the game has started. */
    method Turn(left: bool, right: bool, advance: real -> Vec)
      requires Valid()
      modifies head
      ensures Snap() == Steer(old(Snap()), left, right, advance)
    {
      if startGame {
        PosesOfCons(segments);
        ghost var rest := PosesOf(segments[1..]);
        assert head !in segments[1..];
        MoveHead(left, right, advance);
        assert PosesOf(segments[1..]) == rest;
        PosesOfCons(segments);
      }
    }

    /** Lines 122-129: turn through `segments[0]`, then advance along the
        heading read through `self.head`, the same object. */
    method MoveHead(left: bool, right: bool, advance: real -> Vec)
      requires Valid()
      modifies head
      ensures head.ToPose() == SteerPose(old(head.ToPose()), left, right, advance)
    {
      if left {
        segments[0].angle := segments[0].angle + TurnStep;
      }
      if right {
        segments[0].angle := segments[0].angle - TurnStep;
      }
      var d := advance(head.angle);
      segments[0].pos := Vec(segments[0].pos.x + d.x, segments[0].pos.y + d.y);
    }

    /** Lines 133-139: raise the `eaten_apple` flag; pop the tail, append a
        fresh segment with the tail's pose, append the tail again. */
    method Grow()
      requires Valid()
      modifies this`eatenApple, this`segments
      ensures Valid() && eatenApple
      ensures var n := old(|segments|);
        var was := old(PosesOf(segments));
        && |segments| == n + 1
        && segments[..n - 1] == old(segments[..|segments| - 1])
        && fresh(segments[n - 1])
        && segments[n] == tail
        && PosesOf(segments) == was[..n - 1] + [was[n - 1]] + [was[n - 1]]
      ensures forall k :: 0 <= k < |segments| ==> segments[k] in old(segments) || fresh(segments[k])
    {
      eatenApple := true;
      var last := segments[|segments| - 1];
      var grown := new Segment(last.pos.x, last.pos.y, last.angle, |segments| - 1);
      assert PosesOf(segments) == old(PosesOf(segments));
      PosesOfGrow(segments, grown);
      // pop, then append the new segment and the tail
      segments := segments[..|segments| - 1] + [grown] + [tail];
    }

    /** Lines 141-152: the apple moves to the drawn point and the score
        goes up; a score above the highscore raises the highscore by one,
        writes the highscore file and sets the new-record flag; then the
        `eaten_apple` flag goes down. */
    method AddPoint(appleX: int, appleY: int)
      requires Recorded()
      modifies this`applePos, this`score, this`highscore, this`saves, this`gotNewScore, this`eatenApple
      ensures Recorded() && !eatenApple
      ensures applePos == Vec(appleX as real, appleY as real) && score == old(score) + 1
      ensures highscore == if score > old(highscore) then old(highscore) + 1 else old(highscore)
      ensures gotNewScore == (old(gotNewScore) || score > old(highscore))
    {
      applePos := Vec(appleX as real, appleY as real);
      score := score + 1;
      if score > highscore {
        highscore := highscore + 1;
        saves := saves + 1;
        gotNewScore := true;
      }
      eatenApple := false;
    }

    /** Lines 132-152: on touching the apple (unless it is already being
        eaten), eat it. */
    method EatApple(appleX: int, appleY: int) returns (ate: bool)
      requires Valid() && Recorded()
      modifies this
      ensures Valid() && Recorded()
      ensures (Snap(), ate) == Pickup(old(Snap()), appleX, appleY)
      ensures forall k :: 0 <= k < |segments| ==> segments[k] in old(segments) || fresh(segments[k])
    {
      PosesOfFirst(segments);
      ate := false;
      if PointCollision(segments[0].pos, applePos, AppleRadius) && !eatenApple {
        ate := true;
        Eat(appleX, appleY);
      }
    }

    /** Lines 133-152: grow (raising the `eaten_apple` flag), then add the point
        (lowering it again). */
    method Eat(appleX: int, appleY: int)
      requires Valid() && Recorded()
      modifies this
      ensures Valid() && Recorded()
      ensures Snap() == Eaten(old(Snap()), appleX, appleY)
      ensures forall k :: 0 <= k < |segments| ==> segments[k] in old(segments) || fresh(segments[k])
    {
      ghost var s0 := Snap();
      Grow();
      ghost var grown := PosesOf(segments);
      assert grown == Eaten(s0, appleX, appleY).chain;
      AddPoint(appleX, appleY);
      assert PosesOf(segments) == grown;
    }

    /** Lines 157-161: test every segment from index 2 on against the head;
        each hit ends the round and starts the screenshake. */
    method CheckSelfCollision() returns (hit: bool)
      requires Valid()
      modifies this`screenshake, this`gameOver
      ensures hit == SelfHit(old(Snap()).chain)
      ensures Snap() == if hit then Fail(old(Snap())) else old(Snap())
    {
      ghost var chain := PosesOf(segments);
      PosesOfIndex(segments);
      hit := false;
      for i := 2 to |segments|
        invariant hit <==> exists j :: 2 <= j < i && PointCollision(chain[0].pos, chain[j].pos, BodyRadius)
        invariant gameOver == (old(gameOver) || hit)
        invariant screenshake == if hit then Max(ShakeFrames, old(screenshake)) else old(screenshake)
      {
        assert chain[0] == segments[0].ToPose() && chain[i] == segments[i].ToPose();
        if PointCollision(segments[0].pos, segments[i].pos, BodyRadius) {
          screenshake := Max(ShakeFrames, screenshake);
          hit := true;
          gameOver := true;
        }
      }
    }

    /** Lines 163-167: leaving the arena ends the round and starts the
        screenshake. */
    method CheckBounds() returns (out: bool)
      requires Valid()
      modifies this`screenshake, this`gameOver
      ensures out == !InArena(old(Snap()).chain[0].pos)
      ensures Snap() == if out then Fail(old(Snap())) else old(Snap())
    {
      PosesOfIndex(segments);
      out := !InArena(segments[0].pos);
      if out {
        screenshake := Max(ShakeFrames, screenshake);
        gameOver := true;
      }
    }

    /** Lines 156-167: the self-collision test, then the bounds test.
        Returns whether either failed (the failure sound). */
    method Collisions() returns (failure: bool)
      requires Valid()
      modifies this`screenshake, this`gameOver
      ensures (Snap(), failure) == Collide(old(Snap()))
    {
      var hit := CheckSelfCollision();
      var out := CheckBounds();
      failure := hit || out;
    }

    /** Lines 172-178: constrain every segment from index 1 on to the one
        before it, in ascending order, then turn the last one round. */
    method FollowChain()
      requires Valid()
      modifies segments
      ensures unchanged(this)
      ensures Snap() == Follow(old(Snap()), place)
    {
      ghost var start := PosesOf(segments);
      for i := 1 to |segments|
        invariant FollowFrom(PosesOf(segments), i, place) == FollowPass(start, place)
      {
        ConstrainTo(i);
      }
      ghost var done := PosesOf(segments);
      PosesOfIndex(segments);
      segments[|segments| - 1].angle := segments[|segments| - 1].angle + 180.0;
      PosesOfIs(segments, FlipTail(done));
    }

    /** Lines 172-175 for one index: segment i takes the pose that
        `constrain_distance` gives it against segment i - 1. */
    method ConstrainTo(i: int)
      requires Valid() && 1 <= i < |segments|
      modifies segments[i]
      ensures var was := old(PosesOf(segments));
        PosesOf(segments) == was[i := ConstrainDistance(was[i].pos, was[i - 1].pos, LinkDistance, place)]
    {
      ghost var before := PosesOf(segments);
      PosesOfIndex(segments);
      var moved := ConstrainDistance(segments[i].pos, segments[i - 1].pos, LinkDistance, place);
      segments[i].pos := moved.pos;
      segments[i].angle := moved.angle;
      PosesOfIs(segments, before[i := moved]);
    }

    /** Lines 120-178, the body of `if not self.game_over`. */
    method Play(input: Input) returns (pickup: bool, failure: bool)
      requires Valid() && Recorded()
      modifies this, segments
      ensures Valid() && Recorded()
      ensures forall k :: 0 <= k < |segments| ==> segments[k] in old(segments) || fresh(segments[k])
      ensures var o := Rules.Play(old(Snap()), input, place);
        Snap() == o.state && pickup == o.pickup && failure == o.failure
    {
      ghost var s0 := Snap();
      Turn(input.left, input.right, input.advance);
      pickup := EatApple(input.appleX, input.appleY);
      ghost var grown := Snap();
      assert (grown, pickup) == Grown(s0, input);
      failure := Collisions();
      FollowChain();
    }

    /** Lines 119-188: play unless the round is over; then a score of 40
        ends the round. */
    method Frame(input: Input) returns (pickup: bool, failure: bool)
      requires Valid() && Recorded()
      modifies this, segments
      ensures Valid() && Recorded()
      ensures forall k :: 0 <= k < |segments| ==> segments[k] in old(segments) || fresh(segments[k])
      ensures var o := Rules.Frame(old(Snap()), input, place);
        Snap() == o.state && pickup == o.pickup && failure == o.failure
    {
      pickup, failure := false, false;
      if !gameOver {
        pickup, failure := Play(input);
      }
      ghost var played := Snap();
      if score == WinScore {
        gameOver := true;
      }
      assert Snap() == Win(played);
    }

    /** One iteration of `Game.run`, without drawing: the keys, the head's
        displacement for a heading and the two random apple coordinates come
        in; the pickup and failure sound cues go out. */
    method Step(space: bool, left: bool, right: bool, advance: real -> Vec, appleX: int, appleY: int)
      returns (pickup: bool, failure: bool)
      requires Valid() && Recorded()
      modifies this, segments
      ensures Valid() && Recorded()
      ensures forall k :: 0 <= k < |segments| ==> segments[k] in old(segments) || fresh(segments[k])
      ensures var o := Next(old(Snap()), Input(space, left, right, advance, appleX, appleY), place);
        Snap() == o.state && pickup == o.pickup && failure == o.failure
      ensures saves - old(saves) == highscore - old(highscore)
    {
      ghost var s0 := Snap();
      var input := Input(space, left, right, advance, appleX, appleY);
      screenshake := Max(0, screenshake - 1);
      assert Snap() == Decay(s0);
      if space {
        Reset();
      }
      assert Snap() == Prelude(s0, input);
      pickup, failure := Frame(input);
    }
  }
}
