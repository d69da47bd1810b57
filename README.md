# Pong: a verified model of the simulation step

This project models the game logic of a small single-file Pong game, `pong.py`. Two bats and a ball move on a 200 × 400 court. The player's bat follows the left and right arrow keys. The AI's bat chases the ball while it is within three quarters of the court height from the AI's end. A ball that leaves the court over the top or the bottom scores a point and is served again from the centre.

The model has four modules, one per file:

- `geometry.dfy` (`Geometry`): integer rectangles and the three rectangle tests the game uses.
  - Closed containment.
  - Half-open point hit.
  - Half-open overlap.
- `motion.dfy` (`Motion`): the ball's heading and its per-frame step.
  - Every heading the ball can have is an odd multiple of π/4, so a heading is the integer `k` with angle `k·π/4`.
  - A side-wall bounce maps `k` to `4 − k`; a bat bounce maps `k` to `−k`.
  - `k` is never reduced modulo 8, just as the source never normalises its angle.
  - The signs of the cosine and sine are read off `k mod 8`.
  - The per-frame step `±8·cos(π/4)` truncated toward zero is an exact integer table, proved to agree with truncation for every offset strictly between 5 and 6.
- `rules.dfy` (`Rules`): the rules of one frame, as pure functions of a state value, and the properties of the game, proved about those functions:
  - the bats stay in the court;
  - key presses and releases cancel;
  - the AI's velocity choice;
  - the speed and diagonal heading are kept;
  - the wall and bat branches of a ball move and the bounce latch;
  - scoring;
  - an invariant kept over any run of frames.
- `game.dfy` (`PongGame`): the source's objects as classes whose fields are updated in place.
  - `Bat` (player's and AI's), `Ball` and `Game`.
  - Every method is proved to leave the object in the state the matching `Rules` function computes from the old state.
  - The frame step is `Game.Tick`; the main loop is `Game.Play`, over a finite sequence of frames.

The random choice of the serve direction (`random.randint(1, 4)`) is a parameter `i` in 1..4, a `Draw` in a `Frame`. The key events polled in a frame are an input sequence of `KeyDown`/`KeyUp` edges.

Details of the code that the model keeps as written:

- **The bounce latch.** The first bat that does not bounce the ball clears `hit`, whether or not it overlaps the ball (pong.py:159-175). So a latched ball cannot bounce off the player's bat but can bounce off the AI's bat in the same move (`Rules.LatchSparesOnlyFirstBat`). The snap leaves the ball overlapping the bat it bounced off (`Rules.SnapKeepsOverlap`), but the next step always carries the ball clear of that bat before the next overlap test (`Rules.ClearAtNextTest`). With no bats the loop does not run and `hit` is kept.
- **Exit test.** A ball is out over the top when both top corners of its box lie outside the half-open court, and out over the bottom when both bottom corners do (pong.py:141-151). The rest of the box may still be inside.
- **Snap after a bounce.** `y` becomes the bat's top plus the radius when the new heading goes down, and the bat's bottom minus the radius when it goes up (pong.py:163-168).
- **Screen direction.** The y axis points down (pong.py:163-168), so a positive sine moves the ball down the screen. A heading of π/4 reflected off the right wall therefore moves down-left.

## Model

| member | source | states |
|---|---|---|
| Geometry.Rect.Move | pong.py:67 | the shifted rectangle keeps its size, and each edge moves by exactly the displacement |
| Geometry.Rect.Contains | pong.py:69 | a contained rectangle is no wider and no taller than the rectangle containing it |
| Geometry.Rect.CollidePoint | pong.py:141-144 | only a rectangle of positive width and height has points; a point hits exactly when its unit pixel is contained |
| Geometry.Rect.CollideRect | pong.py:160 | two non-empty rectangles overlap exactly when the point at the larger of their lefts and the larger of their tops hits both |
| Rules.BatRect | pong.py:55-60 | a bat rectangle has the bat's size and is centred on the given point |
| Rules.Moved | pong.py:66-70 | a bat move keeps the row and size; the result is the old rectangle or the old one shifted by exactly the velocity, the latter only if it lies in the court; a bat in the court stays in it; velocity 0 changes nothing |
| PongGame.Bat.constructor | pong.py:49-64 | a new bat is centred on the given point, at rest, and that rectangle is its start rectangle |
| PongGame.Bat.Move | pong.py:66-70 | the new rectangle is `Moved` of the old one by the velocity; the bat stays valid |
| PongGame.Bat.Reset | pong.py:75-77 | the rectangle is back to the start rectangle; the velocity is untouched (not in the modifies frame) |
| PongGame.Bat.Update | pong.py:79-81 | the same as `Move`; a bat at rest does not move |
| Rules.DownDelta | pong.py:88-92 | pressing Left lowers the velocity, pressing Right raises it, by one step; any other key changes nothing |
| Rules.UpDelta | pong.py:94-98 | releasing a key undoes pressing it |
| PongGame.Bat.KeyDown | pong.py:88-92 | the velocity changes by `DownDelta` of the key |
| PongGame.Bat.KeyUp | pong.py:94-98 | the velocity changes by `UpDelta` of the key |
| Rules.NetDelta | pong.py:238-249 | a batch of n key edges changes the velocity by at most n bat steps either way |
| Rules.NetDeltaAppend | pong.py:238-249 | key edges act additively: a batch changes the velocity by the sum of what its parts do |
| Rules.NetDeltaWholeSteps | pong.py:88-98 | any sequence of key edges changes the velocity by a whole number of bat steps |
| Rules.PressReleaseRestores | pong.py:88-98 | pressing and then releasing the same key restores the velocity, whatever came before |
| Rules.AiVelocity | pong.py:105-112 | the AI's velocity is one of −4, 0, 4; it is 0 exactly when the ball is beyond the attention band (y > 300); it is +4 exactly when the ball is within the band and right of the bat's centre |
| PongGame.Bat.AiUpdate | pong.py:105-114 | the velocity is `AiVelocity` of the bat's position and the ball's position, then the bat moves by it |
| Motion.Heading | pong.py:129-131 | draw i gives the diagonal (2i−1)·π/4: draws 1 and 2 move down, draws 1 and 4 move right |
| PongGame.Ball.SetDirection | pong.py:129-131 | the vector is the heading of the draw at the fixed speed |
| PongGame.Ball.constructor | pong.py:122-127 | a new ball remembers its start point and court and is served from the start point |
| Rules.Served | pong.py:182-189 | a served ball is at the start point with the latch and exit code cleared and a diagonal heading at the fixed speed |
| PongGame.Ball.Setup | pong.py:182-189 | the ball's state is `Served` from its start point with the draw |
| Motion.Advance | pong.py:191-196 | one coordinate step moves 5 or 6 units in the direction of travel |
| Motion.AdvanceTruncates | pong.py:193-196 | the step table equals v ± c truncated toward zero for every offset c strictly between 5 and 6, which includes 8·cos(π/4) |
| Rules.StepForward | pong.py:191-196 | a position step changes only x and y, each by 5 or 6 units in the direction of the heading's cosine and sine |
| PongGame.Ball.NewPos | pong.py:191-196 | the ball's state becomes `StepForward` of the old one |
| Rules.BallBox | pong.py:137 | the ball's box is 8 × 8 and centred on the ball |
| Motion.ReflectSide | pong.py:153-154 | π − angle keeps a diagonal heading diagonal, flips the sign of its cosine and keeps the sign of its sine |
| Motion.ReflectBat | pong.py:161-163 | −angle keeps a diagonal heading diagonal, flips the sign of its sine, keeps the sign of its cosine, and differs from the old heading unless the heading is 0 |
| Rules.Scan | pong.py:158-175 | the bat scan bounces at most once; a bounce reflects the heading and sets the latch; without one the heading and y are kept; after at least one bat the latch is set exactly when the scan bounced |
| Rules.ScanBouncesIffEligible | pong.py:159-172 | the scan bounces exactly when some bat overlaps the box and is not the first bat with the latch set on entry |
| Rules.ScanFirstEligibleBounces | pong.py:159-172 | the first such bat is the one that bounces the ball, and y snaps to that bat |
| Rules.LatchSparesOnlyFirstBat | pong.py:159-175 | with the latch set, the player's bat cannot bounce the ball; the latch is cleared at once, and the AI's bat bounces the ball if it overlaps it |
| Rules.BallMove | pong.py:133-177 | a ball move keeps the speed and a diagonal heading, and never adjusts x after the step |
| Rules.WallBranch | pong.py:140-154 | with the box not in the court, the latch and y are those of the step; both top corners outside give an exit over the top, otherwise both bottom corners an exit over the bottom, otherwise the exit code is kept; the heading is reflected off a side wall exactly when both left or both right corners are outside |
| Rules.TopOutRows | pong.py:141-148 | for a box within the court's columns, both top corners are outside exactly when the top edge is outside the court's rows; a non-empty box out over the top is not contained |
| Rules.BottomOutRows | pong.py:143-151 | for a box within the court's columns, both bottom corners are outside exactly when the bottom edge is outside the court's rows |
| Rules.SideOutColumns | pong.py:141-154 | for a box within the court's rows, both left or both right corners are outside exactly when the left or the right edge is outside the court's columns |
| Rules.ExitAndSideBounceTogether | pong.py:146-154 | a ball leaving over the top flush with the right wall is both marked out and reflected in the same move |
| Rules.BatBranch | pong.py:157-175 | with the box in the court, the exit code is kept; the heading changes, at most once and only by a bat reflection, exactly when some bat is eligible; the latch is then set exactly when a reflection happened in this move; without a bounce y is that of the step |
| Rules.SnapY | pong.py:163-168 | for a bat as tall as the ball's radius, the ball's centre lands on the bat's edge in its new direction of travel |
| Rules.SnapKeepsOverlap | pong.py:160-168 | a ball that overlapped a bat of the game's height still overlaps it after the snap, whichever way it now moves |
| Rules.ClearAtNextTest | pong.py:136-168 | after a snap onto a bat of the game's height, the next step's ball box does not overlap that bat, whatever the diagonal heading |
| Rules.BallMoveSnapsToBat | pong.py:160-172 | a bounce off the first eligible bat sets the latch and puts y at that bat's top plus the radius (ball now moving down) or its bottom minus the radius (moving up) |
| PongGame.Ball.Move | pong.py:133-177 | the ball's state becomes `BallMove` of the old one against its court and the bats' rectangles in order; it stays valid |
| Rules.PlayerMoved | pong.py:238-251 | the key edges and the player's move change only the player's bat and keep its start rectangle |
| Rules.AiMoved | pong.py:254 | the AI's move changes only the AI's bat and keeps its start rectangle |
| Rules.BatsMoved | pong.py:238-254 | moving the bats leaves the ball, the scores and the start rectangles as they were |
| Rules.BallMoved | pong.py:257 | moving the ball changes only the ball and keeps a diagonal heading at the fixed speed |
| Rules.Scored | pong.py:260-267 | with the ball in play nothing changes; an exit over the bottom scores one for the AI, one over the top one for the player, and nothing else scores; after either, the ball is served from the centre and both bats are back at their start rectangles with their velocities kept; the ball is always in play afterwards |
| Rules.Initial | pong.py:217-223 | the first state satisfies the game invariant with both scores 0 |
| Rules.TickSpec | pong.py:238-267 | a frame keeps a diagonal heading at the fixed speed |
| Rules.TickRules | pong.py:238-267 | after a frame the ball is in play; scores never decrease and rise by at most one in all; the player's velocity changed only by the key edges; the AI's velocity is chosen from the ball's position before the move; after a point the ball is served and both bats are at their start rectangles |
| Rules.TickKeepsInvariant | pong.py:238-267 | a frame from a reachable state reaches one: bats in the court on their rows, the player's velocity a whole number of steps, the AI's one of three values, the heading diagonal at the fixed speed, the ball in play, scores non-negative |
| Rules.Run | pong.py:232-267 | any run of frames keeps a diagonal heading at the fixed speed |
| Rules.RunKeepsInvariant | pong.py:232-267 | over any run from a reachable state the invariant holds, the scores never decrease, and at most one point is scored per frame |
| PongGame.Game.constructor | pong.py:217-223 | a new game is in the state `Initial` of the first serve's draw |
| PongGame.Game.HandleEvents | pong.py:238-249 | the player's velocity changes by the net effect of the frame's key edges, in order |
| PongGame.Game.MovePlayer | pong.py:238-251 | the game's state becomes `PlayerMoved` of the old one |
| PongGame.Game.MoveAi | pong.py:254 | the game's state becomes `AiMoved` of the old one |
| PongGame.Game.MoveBall | pong.py:257 | the game's state becomes `BallMoved` of the old one |
| PongGame.Game.Score | pong.py:260-267 | the game's state becomes `Scored` of the old one |
| PongGame.Game.Tick | pong.py:238-267 | one frame takes the game to `TickSpec` of the old state and keeps the objects valid |
| PongGame.Game.Play | pong.py:232-270 | a run of frames takes the game to `Run` of the old state |

## Left out

- Drawing, the window, fonts, the score text, `pygame.display.update` and the frame clock: presentation with no game logic.
- The event polling itself: each frame's key edges are an input sequence of presses and releases.
  - The K_d debug print changes no game state; it is treated like any key that is neither Left nor Right.
  - Quitting, by the window's close event or by Escape, ends the loop. It is not modelled: `Game.Play` runs a finite sequence of frames instead of the endless loop.
- Floating-point trigonometry: headings are octants, and each position step is the exact integer table proved equal to truncation toward zero. The floating-point drift of repeated `π − a` and `−a` is not modelled. Each heading is taken to stay close enough to an odd multiple of π/4 that the signs of its sine and cosine and the truncated step are exact.
- `random.randint`: the serve draw is a parameter.
- The import guard with `sys.exit`, and the colour, font, title and version constants.
- The pygame `Sprite` base class and `Rect` objects: rectangles are values, and only `move`, `contains`, `collidepoint` and `colliderect` are modelled, as integer predicates.
- The two bat subclasses are one class `Bat`: the player's methods (`KeyDown`, `KeyUp`) and the AI's (`AiUpdate`) sit side by side.
- PongGame.Ball.Move: receives the rectangles of the bats rather than the bat objects. It reads nothing else of them, and it changes neither bat.
- Geometry.Rect.Contains, Geometry.Rect.CollideRect: agree with the library's tests only for rectangles of positive width and height, the only ones the game tests.
