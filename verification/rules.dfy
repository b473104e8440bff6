/** The game logic of one iteration of `Game.run` (Procedural_Snake.py),
    stated as pure functions on a value snapshot of the game, and the
    properties the game relies on, proved about them. The Game class in
    game.dfy performs these steps in place and is proved to agree with
    `Next`. */
module Rules {
  import opened Geometry

  const LinkDistance: real := 30.0   // self.distance
  const AppleRadius: real := 20.0    // pickup radius
  const BodyRadius: real := 15.0     // self-collision radius
  const TurnStep: real := 3.0        // degrees per frame
  const WinScore: int := 40
  const ShakeFrames: int := 8
  const AppleMin: int := 70          // random.randint(70, 430)
  const AppleMax: int := 430
  const HeadStart := Pose(Vec(150.0, 250.0), 0.0)
  const BodyStart := Pose(Vec(0.0, 250.0), 0.0)
  const AppleStart := Vec(350.0, 250.0)

  /** Everything the frame logic reads and writes. There is no phase enum:
      the phase is `startGame`, `gameOver` and `score == WinScore`.
      `chain` holds the poses of `segments`, head first, tail last. */
  datatype State = State(
    chain: seq<Pose>,
    score: int,
    highscore: int,
    startGame: bool,
    gameOver: bool,
    gotNewScore: bool,
    eatenApple: bool,
    screenshake: int,
    apple: Vec)

  /** What one frame reads from outside: the space, left and right keys;
      `advance(a)`, the head displacement for heading `a` degrees this frame
      (speed * dt * (cos, sin) of its radians); the two values drawn by
      `random.randint(70, 430)` should an apple be eaten. */
  datatype Input = Input(space: bool, left: bool, right: bool, advance: real -> Vec, appleX: int, appleY: int)

  predicate AppleInRange(input: Input)
  {
    AppleMin <= input.appleX <= AppleMax && AppleMin <= input.appleY <= AppleMax
  }

  /** The state built by `Game.__init__`, with the stored highscore. */
  function Initial(stored: int): State
  {
    State([HeadStart, BodyStart, BodyStart], 0, stored, false, false, false, false, 0, AppleStart)
  }

  /** The invariant every frame keeps. */
  ghost predicate Inv(s: State)
  {
    && |s.chain| >= 3
    && 0 <= s.score <= WinScore
    && (s.score == WinScore ==> s.gameOver)
    && !s.eatenApple
    && s.screenshake >= 0
  }

  function Max(a: int, b: int): int { if a >= b then a else b }

  /** Line 80: the screenshake counter runs down to 0. */
  function Decay(s: State): State
  {
    s.(screenshake := Max(0, s.screenshake - 1))
  }

  /** Lines 95-108 on a space press. The poses of the first three list
      entries are reset, then the list is rebound to [head, body, tail]: the
      third entry is the tail itself only while the chain has not grown, so
      otherwise the tail keeps its pose. */
  function Restart(s: State): State
    requires |s.chain| >= 3
  {
    var tailPose := if |s.chain| == 3 then BodyStart else s.chain[|s.chain| - 1];
    s.(startGame := true, gameOver := false, score := 0, apple := AppleStart,
       chain := [HeadStart, BodyStart, tailPose])
  }

  /** The state the `if not self.game_over` test at line 119 sees. */
  function Prelude(s: State, input: Input): (r: State)
    requires |s.chain| >= 3
    ensures |r.chain| == if input.space then 3 else |s.chain|
  {
    var s1 := Decay(s);
    if input.space then Restart(s1) else s1
  }

  /** Lines 122-129: the head's pose after turning (left first, then
      right) and advancing along the new heading. */
  function SteerPose(h: Pose, left: bool, right: bool, advance: real -> Vec): (r: Pose)
    ensures r.angle == h.angle + (if left then TurnStep else 0.0) - (if right then TurnStep else 0.0)
    ensures r.pos == h.pos.Plus(advance(r.angle))
  {
    var a1 := if left then h.angle + TurnStep else h.angle;
    var a2 := if right then a1 - TurnStep else a1;
    Pose(h.pos.Plus(advance(a2)), a2)
  }

  /** Lines 120-129: only once the game has started, the head is steered;
      every other segment stays where it is. */
  function Steer(s: State, left: bool, right: bool, advance: real -> Vec): (r: State)
    requires |s.chain| >= 1
    ensures r == s.(chain := r.chain)
    ensures |r.chain| == |s.chain| && r.chain[1..] == s.chain[1..]
  {
    if !s.startGame then s
    else s.(chain := [SteerPose(s.chain[0], left, right, advance)] + s.chain[1..])
  }

  /** Lines 133-151: a new segment with the last segment's pose goes in
      before the tail, the apple moves, the score goes up, and the highscore
      follows it when it is beaten. */
  function Eaten(s: State, appleX: int, appleY: int): (r: State)
    requires |s.chain| >= 1
    ensures r.startGame == s.startGame && r.gameOver == s.gameOver
    ensures r.screenshake == s.screenshake
    ensures |r.chain| == |s.chain| + 1
    ensures |s.chain| >= 2 ==> r.chain[0] == s.chain[0]
  {
    var last := s.chain[|s.chain| - 1];
    var score := s.score + 1;
    var record := score > s.highscore;
    s.(chain := s.chain[..|s.chain| - 1] + [last] + [last],
       apple := Vec(appleX as real, appleY as real),
       score := score,
       highscore := if record then s.highscore + 1 else s.highscore,
       gotNewScore := s.gotNewScore || record,
       eatenApple := false)
  }

  /** Lines 132-152: eat the apple the head touches, unless the flag says
      it is being eaten. Returns whether the apple was eaten. */
  function Pickup(s: State, appleX: int, appleY: int): (r: (State, bool))
    requires |s.chain| >= 1
    ensures r.0.startGame == s.startGame && r.0.gameOver == s.gameOver
    ensures r.0.screenshake == s.screenshake
    ensures |r.0.chain| == |s.chain| + (if r.1 then 1 else 0)
    ensures |s.chain| >= 2 ==> r.0.chain[0] == s.chain[0]
  {
    if PointCollision(s.chain[0].pos, s.apple, AppleRadius) && !s.eatenApple then
      (Eaten(s, appleX, appleY), true)
    else
      (s, false)
  }

  /** Lines 157-158: some segment from index 2 on lies strictly within the
      collision radius of the head. Index 1 is never compared. */
  ghost predicate SelfHit(chain: seq<Pose>)
    requires |chain| >= 1
  {
    exists j :: 2 <= j < |chain| && PointCollision(chain[0].pos, chain[j].pos, BodyRadius)
  }

  /** Line 163: the arena `Rect(50, 50, 400, 400)`. Whether its far edges
      (x or y equal to 450) count as inside is pygame's business; no
      property below depends on a point on an edge. */
  predicate InArena(p: Vec)
  {
    50.0 <= p.x < 450.0 && 50.0 <= p.y < 450.0
  }

  function Fail(s: State): State
  {
    s.(screenshake := Max(ShakeFrames, s.screenshake), gameOver := true)
  }

  /** Lines 157-167: self collision, then leaving the arena; each ends the
      round and starts the screenshake. Returns whether either happened (the
      failure sound). */
  ghost function Collide(s: State): (r: (State, bool))
    requires |s.chain| >= 1
    ensures r.0 == s.(gameOver := r.0.gameOver, screenshake := r.0.screenshake)
    ensures r.1 ==> r.0.gameOver && r.0.screenshake == Max(ShakeFrames, s.screenshake)
    ensures !r.1 ==> r.0 == s
  {
    var hit := SelfHit(s.chain);
    var out := !InArena(s.chain[0].pos);
    var s1 := if hit then Fail(s) else s;
    var s2 := if out then Fail(s1) else s1;
    (s2, hit || out)
  }

  /** The loop of lines 172-176 from index i on: entry i is constrained to
      entry i - 1, which the previous round has already moved. */
  function FollowFrom(chain: seq<Pose>, i: nat, place: Placement): (r: seq<Pose>)
    requires 1 <= i <= |chain|
    ensures |r| == |chain|
    decreases |chain| - i
  {
    if i == |chain| then chain
    else
      var moved := ConstrainDistance(chain[i].pos, chain[i - 1].pos, LinkDistance, place);
      FollowFrom(chain[i := moved], i + 1, place)
  }

  /** The follow pass, lines 172-176. */
  function FollowPass(chain: seq<Pose>, place: Placement): (r: seq<Pose>)
    requires |chain| >= 1
    ensures |r| == |chain|
  {
    FollowFrom(chain, 1, place)
  }

  /** Line 178: the last segment is turned round. */
  function FlipTail(chain: seq<Pose>): seq<Pose>
    requires |chain| >= 1
  {
    var t := chain[|chain| - 1];
    chain[|chain| - 1 := t.(angle := t.angle + 180.0)]
  }

  function Follow(s: State, place: Placement): (r: State)
    requires |s.chain| >= 1
    ensures r == s.(chain := r.chain) && |r.chain| == |s.chain|
  {
    s.(chain := FlipTail(FollowPass(s.chain, place)))
  }

  /** Lines 187-188: reaching the winning score ends the round. */
  function Win(s: State): (r: State)
    ensures r == s.(gameOver := r.gameOver)
    ensures r.gameOver == (s.gameOver || s.score == WinScore)
  {
    if s.score == WinScore then s.(gameOver := true) else s
  }

  /** The state after steering and eating, which the collision tests see. */
  function Grown(s: State, input: Input): (r: (State, bool))
    requires |s.chain| >= 1
    ensures |r.0.chain| == |s.chain| + (if r.1 then 1 else 0)
  {
    Pickup(Steer(s, input.left, input.right, input.advance), input.appleX, input.appleY)
  }

  /** The result of one frame and the two sound cues it plays. */
  datatype Outcome = Outcome(state: State, pickup: bool, failure: bool)

  /** Lines 120-178, the body of `if not self.game_over`: steer, eat,
      collide, follow. */
  ghost function Play(s: State, input: Input, place: Placement): (r: Outcome)
    requires |s.chain| >= 1
    ensures |r.state.chain| == |s.chain| + (if r.pickup then 1 else 0)
  {
    var grown := Grown(s, input);
    var collided := Collide(grown.0);
    Outcome(Follow(collided.0, place), grown.1, collided.1)
  }

  /** Lines 119-188: play unless the round is over, then test for the win. */
  ghost function Frame(s: State, input: Input, place: Placement): (r: Outcome)
    requires |s.chain| >= 1
    ensures |r.state.chain| == |s.chain| + (if r.pickup then 1 else 0)
  {
    if s.gameOver then
      Outcome(Win(s), false, false)
    else
      var o := Play(s, input, place);
      o.(state := Win(o.state))
  }

  /** One iteration of `Game.run`, without the drawing. */
  ghost function Next(s: State, input: Input, place: Placement): (r: Outcome)
    requires |s.chain| >= 3
    ensures |r.state.chain| == (if input.space then 3 else |s.chain|) + (if r.pickup then 1 else 0)
  {
    Frame(Prelude(s, input), input, place)
  }

  // ----- The follow pass -----

  lemma {:induction false} FollowFromShape(chain: seq<Pose>, i: nat, place: Placement)
    requires 1 <= i <= |chain|
    ensures var r := FollowFrom(chain, i, place);
      && |r| == |chain|
      && (forall k :: 0 <= k < i ==> r[k] == chain[k])
      && (forall k :: i <= k < |chain| ==>
            r[k] == ConstrainDistance(chain[k].pos, r[k - 1].pos, LinkDistance, place))
    decreases |chain| - i
  {
    if i < |chain| {
      var moved := ConstrainDistance(chain[i].pos, chain[i - 1].pos, LinkDistance, place);
      FollowFromShape(chain[i := moved], i + 1, place);
    }
  }

  /** The follow pass leaves the head alone and moves every other entry, in
      ascending order, from its own old position and the new position of the
      entry before it. */
  lemma FollowPassOrdered(chain: seq<Pose>, place: Placement)
    requires |chain| >= 1
    ensures var r := FollowPass(chain, place);
      && |r| == |chain|
      && r[0] == chain[0]
      && (forall k :: 1 <= k < |chain| ==>
            r[k] == ConstrainDistance(chain[k].pos, r[k - 1].pos, LinkDistance, place))
  {
    FollowFromShape(chain, 1, place);
  }

  /** After the pass and the flip, only the last entry's angle differs from
      what `constrain_distance` gave it, by exactly 180 degrees. */
  lemma FollowFlipsOnlyTail(s: State, place: Placement)
    requires |s.chain| >= 2
    ensures var r := FollowPass(s.chain, place);
      var f := Follow(s, place).chain;
      && |f| == |s.chain|
      && f[..|f| - 1] == r[..|f| - 1]
      && f[|f| - 1] == r[|f| - 1].(angle := r[|f| - 1].angle + 180.0)
  {
    FollowPassOrdered(s.chain, place);
  }

  // ----- Properties of one frame -----

  /** Line 80, 159 and 165: each frame the counter becomes max(0, s - 1), and
      a collision lifts it to at least 8; it is never negative. */
  lemma ScreenshakeStep(s: State, input: Input, place: Placement)
    requires |s.chain| >= 3
    ensures var o := Next(s, input, place);
      var d := Max(0, s.screenshake - 1);
      && o.state.screenshake == (if o.failure then Max(ShakeFrames, d) else d)
      && o.state.screenshake >= 0
  {
  }

  /** Lines 95-108: a space press starts a new round with the initial poses,
      score 0 and the apple back at (350, 250); the tail's pose is reset only
      when the chain had not grown. */
  lemma RestartState(s: State)
    requires |s.chain| >= 3
    ensures var r := Restart(s);
      && r.startGame && !r.gameOver && r.score == 0 && r.apple == AppleStart
      && |r.chain| == 3 && r.chain[0] == HeadStart && r.chain[1] == BodyStart
      && (|s.chain| == 3 ==> r.chain[2] == BodyStart)
      && (|s.chain| > 3 ==> r.chain[2] == s.chain[|s.chain| - 1])
      && r.highscore == s.highscore && r.gotNewScore == s.gotNewScore
      && r.eatenApple == s.eatenApple && r.screenshake == s.screenshake
  {
  }

  /** Lines 119-129: the head turns and moves only when the game has started
      and is not over; left adds 3 degrees and right takes 3 away, so both
      together leave the heading as it was. Nothing later in the frame moves
      the head again. */
  lemma TurningOnlyWhilePlaying(s: State, input: Input, place: Placement)
    requires |s.chain| >= 3
    ensures var p := Prelude(s, input);
      var h := p.chain[0];
      var a := h.angle + (if input.left then TurnStep else 0.0) - (if input.right then TurnStep else 0.0);
      var head := Next(s, input, place).state.chain[0];
      && (p.startGame && !p.gameOver ==> head == Pose(h.pos.Plus(input.advance(a)), a))
      && (!p.startGame || p.gameOver ==> head == h)
      && (p.startGame && !p.gameOver && input.left && input.right ==> head.angle == h.angle)
  {
    OnlySteeringMovesHead(s, input, place);
  }

  /** After the start/reset check, only the steering step moves the head. */
  lemma OnlySteeringMovesHead(s: State, input: Input, place: Placement)
    requires |s.chain| >= 3
    ensures var p := Prelude(s, input);
      Next(s, input, place).state.chain[0] ==
        if p.gameOver then p.chain[0] else Steer(p, input.left, input.right, input.advance).chain[0]
  {
    var p := Prelude(s, input);
    if !p.gameOver {
      var steered := Steer(p, input.left, input.right, input.advance);
      var c := Collide(Pickup(steered, input.appleX, input.appleY).0).0;
      assert c.chain[0] == steered.chain[0];
      FollowKeepsHead(c, place);
    }
  }

  /** The follow pass and the flip leave the head where it is. */
  lemma FollowKeepsHead(s: State, place: Placement)
    requires |s.chain| >= 2
    ensures Follow(s, place).chain[0] == s.chain[0]
  {
    FollowPassOrdered(s.chain, place);
  }

  /** Lines 132-152 on their own: the apple is eaten exactly when the head is
      strictly within 20 of it and the `eaten_apple` flag is down; eating
      inserts a copy of the last pose before the tail, which stays last,
      keeps every earlier entry, puts the new apple in [70,430] x [70,430],
      adds exactly 1 to the score, and lifts the highscore by exactly 1 (and
      sets the new-record flag) only when the score passes it. */
  lemma GrowthOnPickup(s: State, appleX: int, appleY: int)
    requires |s.chain| >= 1
    requires AppleMin <= appleX <= AppleMax && AppleMin <= appleY <= AppleMax
    ensures var (t, ate) := Pickup(s, appleX, appleY);
      var n := |s.chain|;
      && (ate <==> PointCollision(s.chain[0].pos, s.apple, AppleRadius) && !s.eatenApple)
      && (ate ==>
            && |t.chain| == n + 1
            && t.chain[..n - 1] == s.chain[..n - 1]
            && t.chain[n - 1] == s.chain[n - 1]
            && t.chain[n] == s.chain[n - 1]
            && 70.0 <= t.apple.x <= 430.0 && 70.0 <= t.apple.y <= 430.0
            && t.score == s.score + 1
            && (t.score > s.highscore ==> t.highscore == s.highscore + 1 && t.gotNewScore)
            && (t.score <= s.highscore ==> t.highscore == s.highscore && t.gotNewScore == s.gotNewScore)
            && !t.eatenApple)
      && (!ate ==> t == s)
  {
  }

  /** Lines 145-151 over a whole frame: the score goes up by exactly one per
      apple (from 0 after a reset), the highscore never goes down and rises by
      exactly one, setting the new-record flag, only when an apple takes the
      score past it; so a score at most the highscore stays so. */
  lemma ScoreAndHighscore(s: State, input: Input, place: Placement)
    requires |s.chain| >= 3
    ensures var o := Next(s, input, place);
      var p := Prelude(s, input);
      && o.state.score == (if o.pickup then p.score + 1 else p.score)
      && p.score == (if input.space then 0 else s.score)
      && s.highscore <= o.state.highscore <= s.highscore + 1
      && (o.state.highscore == s.highscore + 1 <==> o.pickup && o.state.score > s.highscore)
      && (o.state.highscore == s.highscore + 1 ==> o.state.gotNewScore)
      && (s.gotNewScore ==> o.state.gotNewScore)
      && (0 <= s.score <= s.highscore ==> 0 <= o.state.score <= o.state.highscore)
  {
  }

  /** Lines 132-133 and 152: the flag is raised and lowered inside the same
      block, so it is down whenever the test at line 132 runs and never
      blocks an apple: the apple is eaten exactly when the head touches it
      in a frame that is not over. */
  lemma EatenAppleNeverBlocks(s: State, input: Input, place: Placement)
    requires |s.chain| >= 3
    requires !s.eatenApple
    ensures var o := Next(s, input, place);
      var p := Prelude(s, input);
      var head := Steer(p, input.left, input.right, input.advance).chain[0];
      && !o.state.eatenApple
      && (o.pickup <==> !p.gameOver && PointCollision(head.pos, p.apple, AppleRadius))
  {
  }

  /** Lines 157-167: a hit on any segment from index 2 on, or the head
      leaving the arena, ends the round with a failure and a screenshake of
      at least 8. */
  lemma CollisionEndsRound(s: State, input: Input, place: Placement)
    requires |s.chain| >= 3
    ensures var o := Next(s, input, place);
      var p := Prelude(s, input);
      var g := Grown(p, input).0;
      && (o.failure <==> !p.gameOver && (SelfHit(g.chain) || !InArena(g.chain[0].pos)))
      && (o.failure ==> o.state.gameOver && o.state.screenshake >= ShakeFrames)
  {
  }

  /** Line 157: index 1, the segment right behind the head, is never compared,
      wherever it lies. */
  lemma NeckIsExempt(chain: seq<Pose>, neck: Pose)
    requires |chain| >= 2
    ensures SelfHit(chain[1 := neck]) <==> SelfHit(chain)
  {
    var c := chain[1 := neck];
    if SelfHit(c) {
      var j :| 2 <= j < |c| && PointCollision(c[0].pos, c[j].pos, BodyRadius);
      assert chain[j] == c[j];
    }
    if SelfHit(chain) {
      var j :| 2 <= j < |chain| && PointCollision(chain[0].pos, chain[j].pos, BodyRadius);
      assert chain[j] == c[j];
    }
  }

  /** Lines 163-167: a head that, after steering, lies clearly outside the
      arena's box (beyond any edge convention) ends the round with a failure
      and a screenshake of at least 8. */
  lemma LeavingArenaEndsRound(s: State, input: Input, place: Placement)
    requires |s.chain| >= 3
    requires !Prelude(s, input).gameOver
    requires var head := Grown(Prelude(s, input), input).0.chain[0].pos;
      head.x < 50.0 || head.y < 50.0 || head.x > 450.0 || head.y > 450.0
    ensures var o := Next(s, input, place);
      o.failure && o.state.gameOver && o.state.screenshake >= ShakeFrames
  {
  }

  /** Lines 119 and 187-188: when the round is over and space is not pressed
      the frame moves nothing, eats nothing, tests nothing and only runs the
      screenshake down; the round stays over. Only a space press clears
      `game_over`. */
  lemma GameOverFreezes(s: State, input: Input, place: Placement)
    requires |s.chain| >= 3
    requires s.gameOver && !input.space
    ensures var o := Next(s, input, place);
      && o.state == s.(screenshake := Max(0, s.screenshake - 1))
      && o.state.gameOver && !o.pickup && !o.failure
  {
  }

  /** Lines 119-188 in a frame that is not over at line 119: the round ends
      exactly when something was hit or the score reached 40; a score of 40
      ends it whatever else happened in the frame. */
  lemma GameOverCause(s: State, input: Input, place: Placement)
    requires |s.chain| >= 3
    ensures var o := Next(s, input, place);
      && (o.state.score == WinScore ==> o.state.gameOver)
      && (!Prelude(s, input).gameOver ==>
            (o.state.gameOver <==> o.failure || o.state.score == WinScore))
      && (!input.space && s.gameOver ==> o.state.gameOver)
  {
  }

  /** The invariant holds at start-up and every frame keeps it. */
  lemma InitialInv(stored: int)
    ensures Inv(Initial(stored))
    ensures stored >= 0 ==> 0 <= Initial(stored).score <= Initial(stored).highscore
  {
  }

  lemma InvPreserved(s: State, input: Input, place: Placement)
    requires Inv(s)
    ensures Inv(Next(s, input, place).state)
  {
  }
}
