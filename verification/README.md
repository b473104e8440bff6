# Procedural Snake: the per-frame game step, verified

A model of the game logic of one iteration of `Game.run` in
Procedural_Snake.py, together with its two geometric helpers
`point_collision` and `constrain_distance`. The snake is a chain of
segments, head first and tail last. Each frame:

1. the screenshake counter runs down;
2. a space press starts or restarts the round;
3. while the round is on, the head turns and advances;
4. touching the apple grows the chain and adds to the score and highscore;
5. self collisions and leaving the arena end the round;
6. the follow pass drags every segment after its predecessor, and the tail
   is turned round;
7. a score of 40 ends the round (the win).

The project has four files:

- `geometry.dfy` (module `Geometry`): real-valued vectors and poses.
  - `PointCollision` is `point_collision` (lines 9-10) stated as squared
    distance below radius squared, so no square root is needed.
    `PointCollisionIsDistance` proves this agrees with comparing the true
    distance to the radius.
  - `ConstrainDistance` is `constrain_distance` (lines 12-23). Its degenerate
    branch is exact. The other branch is a `Placement`: any total function
    of point, anchor and distance.
- `segment.dfy` (module `Segments`): `Segment` is a heap class with `pos` and
  `angle`, as in segment.py.
  - `PosesOf` reads the poses of a list of segments.
  - A proof-only `id` on each segment lets the game state that its list
    never holds the same segment twice.
- `rules.dfy` (module `Rules`): the frame as pure functions on a value
  `State`, from `Decay` and `Restart` through `Steer`, `Pickup`, `Collide`,
  `Follow` and `Win` to `Next`, plus the lemmas that state what the game
  promises about them.
- `game.dfy` (module `Snake`): the class `Game`, with the fields the frame
  updates in place and one method per phase.
  - `Step` is one frame. Each method's postcondition ties the new state
    (`Snap()`) to the matching `Rules` function of the old one, so the
    lemmas of `Rules` are facts about `Game`.
  - `self.head`, `self.body` and `self.tail` are the same objects as the
    list entries. So the turn writes through `segments[0]` and then reads
    the angle through `head`. The reset writes the poses of
    `segments[0..2]` and then rebinds the list to `[head, body, tail]`.
    After growth, the tail keeps its pose across a reset.

There is no phase field: the phase is `startGame`, `gameOver` and
`score == 40`, as in the code.

The behaviour follows the code wherever a description of the game might
differ from it:

- `constrain_distance` with point equal to anchor returns angle 0, not the
  segment's old angle (lines 16-17 and 176).
- A reset re-uses the segment objects rather than building a new chain.
- `got_new_score` is never cleared.
- `eaten_apple` is raised and lowered in the same block.
- The self-collision and bounds tests and the follow pass run before the
  game has started; only turning and advancing wait for `start_game`.

## Model

| member | source | states |
|---|---|---|
| Geometry.PointCollisionIsDistance | Procedural_Snake.py:9-10 | for the true distance d between the points (d >= 0 with d squared the squared distance), `PointCollision` holds exactly when d < radius, the strict `distance_to` test |
| Geometry.ConstrainDistance | Procedural_Snake.py:12-23 | when point equals anchor the result is the point itself with angle 0; otherwise it is the placement of point at distance from anchor |
| Segments.Segment.constructor | segment.py:4-7 | a new segment has exactly the given position and angle |
| Rules.SteerPose | Procedural_Snake.py:122-129 | the new heading is the old plus 3 for left minus 3 for right, and the head moves by the displacement for the new heading |
| Rules.Steer | Procedural_Snake.py:120-129 | steering changes nothing but the head's pose, and never the length or any later entry |
| Rules.Eaten | Procedural_Snake.py:133-152 | eating keeps the round flags and the screenshake, lengthens the chain by exactly one and keeps the head |
| Rules.Pickup | Procedural_Snake.py:132-152 | the pickup changes neither the round flags nor the screenshake; the chain grows by one exactly when the apple is eaten, and the head stays |
| Rules.Collide | Procedural_Snake.py:157-167 | only `game_over` and the screenshake can change; a failure ends the round with the screenshake at max(8, s); no failure changes nothing |
| Rules.FollowFrom | Procedural_Snake.py:172-176 | the rest of the follow pass keeps the chain's length |
| Rules.Follow | Procedural_Snake.py:172-178 | the follow pass changes only the chain, and keeps its length |
| Rules.Win | Procedural_Snake.py:187-188 | only `game_over` can change, and afterwards it holds exactly when it held before or the score is 40 |
| Rules.Grown | Procedural_Snake.py:120-152 | after steering and eating, the chain is one longer exactly when the apple was eaten |
| Rules.Play | Procedural_Snake.py:120-178 | one frame of play lengthens the chain by one exactly when it reports a pickup |
| Rules.Frame | Procedural_Snake.py:119-188 | the chain grows by one exactly when the frame reports a pickup |
| Rules.Prelude | Procedural_Snake.py:80-108 | after the countdown and the space test the chain has length 3 if space was pressed, and is unchanged otherwise |
| Rules.Next | Procedural_Snake.py:79-188 | after a frame the chain has length 3 or the old length, plus one on a pickup |
| Rules.FollowFromShape | Procedural_Snake.py:172-176 | the pass from index i keeps the entries before i; each later entry is constrained to the already-moved entry before it |
| Rules.FollowPassOrdered | Procedural_Snake.py:172-176 | the pass never touches the head, and constrains indices 1 to len-1 in ascending order, each to its predecessor's new position |
| Rules.FollowFlipsOnlyTail | Procedural_Snake.py:172-178 | after the pass only the last entry changes again, by exactly +180 degrees |
| Rules.ScreenshakeStep | Procedural_Snake.py:80-167 | each frame the counter becomes max(0, s-1), or max(8, max(0, s-1)) on a failure, and it is never negative |
| Rules.RestartState | Procedural_Snake.py:95-108 | a restart starts the round with score 0, the apple at (350, 250) and the chain head (150, 250), body (0, 250); the tail's pose is reset only when the chain had not grown |
| Rules.TurningOnlyWhilePlaying | Procedural_Snake.py:119-129 | after a frame the head has turned and advanced exactly when the game is started and not over; left and right together leave the heading unchanged |
| Rules.OnlySteeringMovesHead | Procedural_Snake.py:119-178 | apart from steering, nothing in a frame moves the head |
| Rules.FollowKeepsHead | Procedural_Snake.py:172-178 | the follow pass and the tail flip leave the head where it is |
| Rules.GrowthOnPickup | Procedural_Snake.py:132-152 | the apple is eaten exactly when the head is strictly within 20 of it and the flag is down. On eating: a copy of the last pose goes in before the tail and earlier entries stay; the new apple lies in [70,430] x [70,430]; the score rises by 1; the highscore rises by 1 and sets the new-record flag only when beaten. Otherwise nothing changes |
| Rules.ScoreAndHighscore | Procedural_Snake.py:145-151 | per frame the score rises by exactly one per pickup, from 0 after a reset. The highscore never falls and rises by one exactly when a pickup takes the score past it, which sets the flag. A score between 0 and the highscore stays so |
| Rules.EatenAppleNeverBlocks | Procedural_Snake.py:132-152 | the `eaten_apple` flag is down after every frame, so the apple is eaten exactly when the steered head touches it in a frame that is not over |
| Rules.CollisionEndsRound | Procedural_Snake.py:157-167 | a frame fails exactly when it is being played and the head hits a segment from index 2 on or leaves the arena; a failure ends the round with a screenshake of at least 8 |
| Rules.NeckIsExempt | Procedural_Snake.py:157-158 | wherever the segment at index 1 lies, the self-collision test has the same outcome |
| Rules.LeavingArenaEndsRound | Procedural_Snake.py:163-167 | a head outside the arena's box after steering ends the round with a failure and a screenshake of at least 8 |
| Rules.GameOverFreezes | Procedural_Snake.py:119-188 | while the round is over and space is not pressed, a frame only runs the screenshake down: nothing moves, nothing is eaten, nothing fails |
| Rules.GameOverCause | Procedural_Snake.py:119-188 | a score of 40 at the end of a frame means the round is over; in a played frame, the round ends exactly on a failure or a score of 40; only a space press clears `game_over` |
| Rules.InitialInv | Procedural_Snake.py:58-75 | the start-up state meets the frame invariant, and has score at most the highscore when the stored highscore is not negative |
| Rules.InvPreserved | Procedural_Snake.py:77-188 | every frame keeps the invariant: at least three segments, a score from 0 to 40 with 40 meaning game over, the flag down, the screenshake not negative |
| Snake.Game.constructor | Procedural_Snake.py:58-75 | the new game is in the start-up state `Initial`, with head, body and tail fresh and first, second and last in the list |
| Snake.Game.Reset | Procedural_Snake.py:95-108 | the list is exactly `[head, body, tail]`, and the state is `Restart` of the old one |
| Snake.Game.PlaceAtStart | Procedural_Snake.py:101-107 | entries 0, 1 and 2 of the list get the start poses, and no later entry moves |
| Snake.Game.Turn | Procedural_Snake.py:120-129 | the state becomes `Steer` of the old one |
| Snake.Game.MoveHead | Procedural_Snake.py:121-129 | the head object's new pose is `SteerPose` of its old one; the heading read at line 126 is the turned one |
| Snake.Game.Grow | Procedural_Snake.py:133-139 | the flag goes up. The list keeps all entries but the last and gains one fresh segment, then the tail. The poses are the old ones with the last pose repeated. No segment appears twice |
| Snake.Game.AddPoint | Procedural_Snake.py:141-152 | the apple moves to the drawn point and the score rises by 1. A higher score raises the highscore by exactly 1, sets the flag and writes the file once. The `eaten_apple` flag goes down |
| Snake.Game.EatApple | Procedural_Snake.py:132-152 | the state and the pickup flag are `Pickup` of the old state; every segment is old or fresh; each file write matches a highscore point |
| Snake.Game.Eat | Procedural_Snake.py:133-152 | the state becomes `Eaten` of the old one |
| Snake.Game.CheckSelfCollision | Procedural_Snake.py:157-161 | the loop over indices 2 to len-1 reports a hit exactly when `SelfHit` holds; on a hit the state is `Fail` of the old one, otherwise unchanged |
| Snake.Game.CheckBounds | Procedural_Snake.py:163-167 | reports exactly a head outside the arena; the state then is `Fail` of the old one, otherwise unchanged |
| Snake.Game.Collisions | Procedural_Snake.py:157-167 | the state and the failure cue are `Collide` of the old state |
| Snake.Game.FollowChain | Procedural_Snake.py:172-178 | the loop leaves the game's fields alone and the chain becomes `Follow` of the old one: the ordered pass, then the tail flip |
| Snake.Game.ConstrainTo | Procedural_Snake.py:172-176 | segment i takes `constrain_distance` of its own position against segment i-1, and no other segment moves |
| Snake.Game.Play | Procedural_Snake.py:120-178 | the new state and both sound cues are `Rules.Play` of the old state |
| Snake.Game.Frame | Procedural_Snake.py:119-188 | the new state and both sound cues are `Rules.Frame` of the old state |
| Snake.Game.Step | Procedural_Snake.py:79-188 | the new state and both cues are `Rules.Next` of the old state and the inputs; every segment is old or fresh; the file is written once per highscore point |

## Left out

- Window, clock, assets, fonts, all drawing, the screenshake's random draw
  offset and the QUIT event (lines 27-56, 84-92, 111-117, 169-170, 179-211)
  are user interface.
  - `Segment.update` and `Segment.render` are drawing only.
  - The head image chosen at lines 179, 182 and 189 is drawing only.
- Sound playback (lines 142, 160, 166) is a call into pygame. `Step` returns
  a pickup cue and a failure cue instead.
  - `Snake.Game.Collisions` reports one failure cue per frame. The code plays
    the failure sound once per hit segment and once more on leaving the
    arena.
- Highscore file I/O (lines 74-75, 149-150). The stored highscore is a
  constructor argument. Each write is counted by the proof-only `saves`
  counter.
- The head's displacement is an input, `advance`, which maps the new
  heading to the displacement for this frame. It stands for the speed, the
  frame time `dt` (line 79) and cos/sin of the heading in radians
  (lines 126-129).
- The non-degenerate branch of `constrain_distance` (lines 19-23) is a
  `Placement` parameter of the game, so nothing is proved about where it
  puts a segment. It uses normalisation and atan2 on floating point.
- Floating point in general: positions and angles are reals. Rounding,
  and angles that grow without bound, are not modelled.
- The two `random.randint(70, 430)` draws (line 141) are the inputs
  `appleX` and `appleY`. `Rules.GrowthOnPickup` assumes they lie in range.
- Rules.InArena: the arena's far edges (x or y equal to 450) are treated as
  outside, as pygame's `Rect.collidepoint` is documented to do. The library
  is not part of this model. So `Rules.Collide`, `Rules.CollisionEndsRound`
  and `Snake.Game.CheckBounds` fix this edge convention: they state a
  failure for a head on those edges. `Rules.LeavingArenaEndsRound` states
  the bounds failure for heads strictly outside the box, and does not
  depend on the edge convention.
- Snake.Game.AddPoint and Snake.Game.MoveHead group consecutive statements
  of the frame into methods of their own, keeping the code's order of
  writes.
- Snake.Game.PlaceAtStart groups the position writes of lines 101-103 and
  the angle writes of lines 105-107. `Snake.Game.Reset` moves the apple
  (line 104) before them rather than between them. The apple and the
  segments share no object, so the final state is the same, but the order
  of the writes is not the code's.
- segment.py beyond `pos` and `angle` (image, rotated sprite, rect) is
  drawing state.
