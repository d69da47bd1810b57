/** The game's objects, updated in place frame by frame: two bats, the
    ball and the game that owns them and keeps the scores. Each method is
    proved to compute the corresponding function of module Rules. */
module PongGame {
  import opened Geometry
  import opened Motion
  import opened Rules

  /** A bat: a rectangle on a fixed row moved sideways by its velocity. The
      player's bat is driven by key edges, the AI's bat by AiUpdate. */
  class Bat {
    var rect: Rect
    var xVelocity: int
    const startRect: Rect

    /** The bat keeps its row and size, and is either where it started or
        inside the court. */
    ghost predicate Valid()
      reads this
    {
      rect.top == startRect.top && rect.width == startRect.width &&
      rect.height == startRect.height &&
      (rect == startRect || Screen.Contains(rect))
    }

    function State(): BatState
      reads this
    {
      BatState(rect, xVelocity, startRect)
    }

    /** A stationary bat centred at (cx, cy). */
    constructor (cx: int, cy: int)
      ensures Valid()
      ensures startRect == BatRect(cx, cy) && rect == startRect && xVelocity == 0
    {
      startRect := BatRect(cx, cy);
      rect := BatRect(cx, cy);
      xVelocity := 0;
    }

    /** Shift by the velocity if the shifted bat lies in the court. */
    method Move()
      requires Valid()
      modifies this`rect
      ensures Valid()
      ensures rect == Moved(old(rect), xVelocity)
    {
      var newPos := rect.Move(xVelocity, 0);
      if Screen.Contains(newPos) {
        rect := newPos;
      }
    }

    /** Back to the start rectangle; the velocity is kept. */
    method Reset()
      modifies this`rect
      ensures Valid()
      ensures rect == startRect
    {
      rect := startRect;
    }

    /** Move, unless the bat is stationary. */
    method Update()
      requires Valid()
      modifies this`rect
      ensures Valid()
      ensures rect == Moved(old(rect), xVelocity)
    {
      if xVelocity != 0 {
        Move();
      }
    }

    method KeyDown(key: Key)
      modifies this`xVelocity
      ensures xVelocity == old(xVelocity) + DownDelta(key)
    {
      if key == Left {
        xVelocity := xVelocity - BatSpeed;
      } else if key == Right {
        xVelocity := xVelocity + BatSpeed;
      }
    }

    method KeyUp(key: Key)
      modifies this`xVelocity
      ensures xVelocity == old(xVelocity) + UpDelta(key)
    {
      if key == Left {
        xVelocity := xVelocity + BatSpeed;
      } else if key == Right {
        xVelocity := xVelocity - BatSpeed;
      }
    }

    /** The AI's update: pick a velocity from where the ball is now, then
        move. */
    method AiUpdate(ball: Ball)
      requires Valid()
      modifies this
      ensures Valid()
      ensures xVelocity == AiVelocity(old(rect).left, ball.x, ball.y)
      ensures rect == Moved(old(rect), xVelocity)
    {
      if ball.y <= AiAttention {
        if rect.left + BatWidth / 2 < ball.x {
          xVelocity := BatSpeed;
        } else {
          xVelocity := -BatSpeed;
        }
      } else if xVelocity != 0 {
        xVelocity := 0;
      }
      Update();
    }
  }

  /** The ball: an integer position, a heading and speed, the latch that
      suppresses a second bounce right after one, and the exit code. */
  class Ball {
    var x: int
    var y: int
    var vector: Vector
    var hit: bool
    var offcourt: Court
    const startX: int
    const startY: int
    const boundary: Rect

    ghost predicate Valid()
      reads this
    {
      ValidVector(vector)
    }

    function State(): BallState
      reads this
    {
      BallState(x, y, vector, hit, offcourt)
    }

    /** A ball at (x0, y0) in the court boundary0, served with draw i. */
    constructor (x0: int, y0: int, boundary0: Rect, i: int)
      requires 1 <= i <= 4
      ensures Valid()
      ensures startX == x0 && startY == y0 && boundary == boundary0
      ensures State() == Served(x0, y0, i)
    {
      startX, startY, boundary := x0, y0, boundary0;
      x, y, hit, offcourt := x0, y0, false, Normal;
      vector := Vector(Heading(i), BallSpeed);
    }

    /** A fresh diagonal heading at the fixed speed, from draw i. */
    method SetDirection(i: int)
      requires 1 <= i <= 4
      modifies this`vector
      ensures Valid()
      ensures vector == Vector(Heading(i), BallSpeed)
    {
      var angle := Heading(i);
      vector := Vector(angle, BallSpeed);
    }

    /** Back to the start, latch and exit cleared, served with draw i. */
    method Setup(i: int)
      requires 1 <= i <= 4
      modifies this
      ensures Valid()
      ensures State() == Served(startX, startY, i)
    {
      x := startX;
      y := startY;
      hit := false;
      offcourt := Normal;
      SetDirection(i);
    }

    /** One step along the heading, truncated toward zero. */
    method NewPos()
      requires Valid()
      modifies this`x, this`y
      ensures Valid()
      ensures State() == StepForward(old(State()))
    {
      x := Advance(x, CosPositive(vector.angle));
      y := Advance(y, SinPositive(vector.angle));
    }

    /** Step, then either react to the walls or scan the bats in order. */
    method Move(bats: seq<Rect>)
      requires Valid()
      modifies this
      ensures Valid()
      ensures State() == BallMove(old(State()), boundary, bats)
    {
      ghost var s0 := State();
      var angle, dist := vector.angle, vector.dist;
      NewPos();
      var newPos := BallBox(x, y);
      assert newPos == BoxAfter(s0);

      if !boundary.Contains(newPos) {
        var topLeft := !boundary.CollidePoint(newPos.left, newPos.top);
        var topRight := !boundary.CollidePoint(newPos.Right(), newPos.top);
        var botLeft := !boundary.CollidePoint(newPos.left, newPos.Bottom());
        var botRight := !boundary.CollidePoint(newPos.Right(), newPos.Bottom());

        if topLeft && topRight {
          offcourt := OutsideTop;
        } else if botLeft && botRight {
          offcourt := OutsideBottom;
        }
        if (botLeft && topLeft) || (botRight && topRight) {
          angle := ReflectSide(angle);
        }
        assert topLeft && topRight <==> TopOut(boundary, newPos);
        assert botLeft && botRight <==> BottomOut(boundary, newPos);
      } else {
        ghost var scan := Scan(newPos, bats, angle, y, hit);
        var bounced := false;
        var i := 0;
        while i < |bats|
          invariant 0 <= i <= |bats| && !bounced
          invariant scan == Scan(newPos, bats[i..], angle, y, hit)
          invariant x == StepForward(s0).x && vector == s0.vector && offcourt == s0.offcourt
        {
          var bat := bats[i];
          assert bats[i..][0] == bat && bats[i..][1..] == bats[i + 1..];
          if newPos.CollideRect(bat) && !hit {
            angle := ReflectBat(angle);
            if SinPositive(angle) {
              y := bat.top + BallRadius;
            } else {
              y := bat.Bottom() - BallRadius;
            }
            hit := true;
            bounced := true;
            assert scan == ScanResult(angle, y, hit, true);
            break;
          }
          if hit && !bounced {
            hit := false;
          }
          i := i + 1;
        }
        assert scan == ScanResult(angle, y, hit, scan.bounced);
      }

      vector := Vector(angle, dist);
    }
  }

  /** The game: both bats, the ball and the two scores. */
  class Game {
    const playerBat: Bat
    const aiBat: Bat
    const ball: Ball
    var playerScore: int
    var aiScore: int

    ghost predicate Valid()
      reads this, playerBat, aiBat, ball
    {
      playerBat != aiBat &&
      playerBat.Valid() && aiBat.Valid() && ball.Valid() &&
      playerBat.startRect == PlayerStart && aiBat.startRect == AiStart &&
      ball.startX == BallStartX && ball.startY == BallStartY && ball.boundary == Screen
    }

    function State(): GameState
      reads this, playerBat, aiBat, ball
    {
      GameState(playerBat.State(), aiBat.State(), ball.State(), playerScore, aiScore)
    }

    /** The objects of a new game; i is the first serve's draw. */
    constructor (i: int)
      requires 1 <= i <= 4
      ensures Valid()
      ensures State() == Initial(i)
    {
      ball := new Ball(ScreenWidth / 2, ScreenHeight / 2, Screen, i);
      playerBat := new Bat(ScreenWidth / 2, ScreenHeight - 30);
      aiBat := new Bat(ScreenWidth / 2, 30);
      playerScore := 0;
      aiScore := 0;
      new;
      assert playerBat.State() == BatState(PlayerStart, 0, PlayerStart);
      assert aiBat.State() == BatState(AiStart, 0, AiStart);
      assert ball.State() == Served(BallStartX, BallStartY, i);
      assert State() == GameState(BatState(PlayerStart, 0, PlayerStart), BatState(AiStart, 0, AiStart),
                                  Served(BallStartX, BallStartY, i), 0, 0);
    }

    /** Hand each key edge of this frame to the player's bat, in order. */
    method HandleEvents(events: seq<KeyEvent>)
      requires Valid()
      modifies playerBat`xVelocity
      ensures Valid()
      ensures playerBat.xVelocity == old(playerBat.xVelocity) + NetDelta(events)
    {
      for i := 0 to |events|
        invariant Valid()
        invariant playerBat.xVelocity == old(playerBat.xVelocity) + NetDelta(events[..i])
      {
        assert events[..i + 1][..i] == events[..i];
        match events[i]
        case KeyDown(k) => playerBat.KeyDown(k);
        case KeyUp(k) => playerBat.KeyUp(k);
      }
      assert events[..|events|] == events;
    }

    /** Key edges, then the player's bat. */
    method MovePlayer(events: seq<KeyEvent>)
      requires Valid()
      modifies playerBat
      ensures Valid()
      ensures State() == PlayerMoved(old(State()), events)
    {
      ghost var g := State();
      HandleEvents(events);
      assert State() == g.(player := g.player.(velocity := g.player.velocity + NetDelta(events)));
      playerBat.Update();
    }

    /** The AI's bat, steered by where the ball is now. */
    method MoveAi()
      requires Valid()
      modifies aiBat
      ensures Valid()
      ensures State() == AiMoved(old(State()))
    {
      aiBat.AiUpdate(ball);
    }

    /** The ball's half of a frame, against the player's bat first. */
    method MoveBall()
      requires Valid()
      modifies ball
      ensures Valid()
      ensures State() == BallMoved(old(State()))
    {
      ball.Move([playerBat.rect, aiBat.rect]);
    }

    /** After a ball has left the court: the point, a fresh serve with draw
        i and both bats back at their start rectangles. */
    method Score(i: int)
      requires Valid() && 1 <= i <= 4
      modifies this, playerBat, aiBat, ball
      ensures Valid()
      ensures State() == Scored(old(State()), i)
    {
      if ball.offcourt != Normal {
        if ball.offcourt == OutsideBottom {
          aiScore := aiScore + 1;
        } else if ball.offcourt == OutsideTop {
          playerScore := playerScore + 1;
        }
        ball.Setup(i);
        playerBat.Reset();
        aiBat.Reset();
      }
    }

    /** One frame: key edges, the player's bat, the AI's bat, the ball, and
        scoring with a fresh serve (draw i) after a point. */
    method Tick(events: seq<KeyEvent>, i: int)
      requires Valid() && 1 <= i <= 4
      modifies this, playerBat, aiBat, ball
      ensures Valid()
      ensures State() == TickSpec(old(State()), events, i)
    {
      MovePlayer(events);
      MoveAi();
      MoveBall();
      Score(i);
    }

    /** The main loop over a finite sequence of frames. */
    method Play(frames: seq<Frame>)
      requires Valid()
      modifies this, playerBat, aiBat, ball
      ensures Valid()
      ensures State() == Run(old(State()), frames)
    {
      ghost var g0 := State();
      assert ValidVector(g0.ball.vector);
      for k := 0 to |frames|
        invariant Valid()
        invariant State() == Run(g0, frames[..k])
      {
        assert frames[..k + 1][..k] == frames[..k];
        Tick(frames[k].events, frames[k].serve);
      }
      assert frames[..|frames|] == frames;
    }
  }
}
