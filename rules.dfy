/** The rules of one frame of the game, written as functions of the state.
    The Bat, Ball and Game classes are proved to compute exactly these
    functions; the properties of the game are proved about the functions. */
module Rules {
  import opened Geometry
  import opened Motion

  const ScreenWidth := 200
  const ScreenHeight := 400
  const BallRadius := 8
  const BallSpeed := 8
  const BatWidth := 40
  const BatHeight := 8
  const BatSpeed := 4

  /** The court is the whole screen. */
  const Screen := Rect(0, 0, ScreenWidth, ScreenHeight)

  /** The AI bat chases the ball only while the ball's y is at most this:
      three quarters of the court height, measured from the AI's edge. */
  const AiAttention := ScreenHeight / 4 * 3

  const BallStartX := ScreenWidth / 2
  const BallStartY := ScreenHeight / 2

  // ---------------------------------------------------------------- bats

  /** The rectangle of a bat whose centre is (cx, cy). */
  function BatRect(cx: int, cy: int): (r: Rect)
    ensures r.width == BatWidth && r.height == BatHeight
    ensures r.left + r.width / 2 == cx && r.top + r.height / 2 == cy
  {
    Rect(cx - BatWidth / 2, cy - BatHeight / 2, BatWidth, BatHeight)
  }

  const PlayerStart := BatRect(ScreenWidth / 2, ScreenHeight - 30)
  const AiStart := BatRect(ScreenWidth / 2, 30)

  /** Where a bat at r ends up after one move with velocity v: the move is
      committed only when the shifted rectangle lies in the court, and is
      otherwise rejected outright (no clamping to the wall). */
  function Moved(r: Rect, v: int): (s: Rect)
    ensures s.top == r.top && s.width == r.width && s.height == r.height
    ensures s == r || (s == r.Move(v, 0) && Screen.Contains(s))
    ensures Screen.Contains(r.Move(v, 0)) ==> s.left == r.left + v
    ensures Screen.Contains(r) ==> Screen.Contains(s)
    ensures v == 0 ==> s == r
  {
    var shifted := r.Move(v, 0);
    if Screen.Contains(shifted) then shifted else r
  }

  /** The velocity the AI bat at batLeft chooses when the ball is at
      (ballX, ballY): chase the ball while it is within the attention band,
      stop dead once it is beyond. A ball exactly at the bat's centre sends
      the bat left. */
  function AiVelocity(batLeft: int, ballX: int, ballY: int): (v: int)
    ensures v in {-BatSpeed, 0, BatSpeed}
    ensures v == 0 <==> ballY > AiAttention
    ensures v == BatSpeed <==> ballY <= AiAttention && batLeft + BatWidth / 2 < ballX
  {
    if ballY <= AiAttention then
      (if batLeft + BatWidth / 2 < ballX then BatSpeed else -BatSpeed)
    else 0
  }

  // ---------------------------------------------------------------- keys

  datatype Key = Left | Right | Other
  datatype KeyEvent = KeyDown(key: Key) | KeyUp(key: Key)

  /** Change of the player bat's velocity on pressing k. */
  function DownDelta(k: Key): (d: int)
    ensures d in {-BatSpeed, 0, BatSpeed}
    ensures d < 0 <==> k == Left
    ensures d > 0 <==> k == Right
  {
    match k
    case Left => -BatSpeed
    case Right => BatSpeed
    case Other => 0
  }

  /** Change of the player bat's velocity on releasing k: it undoes the
      press of the same key. */
  function UpDelta(k: Key): (d: int)
    ensures d + DownDelta(k) == 0
  {
    match k
    case Left => BatSpeed
    case Right => -BatSpeed
    case Other => 0
  }

  function EventDelta(e: KeyEvent): int
  {
    match e
    case KeyDown(k) => DownDelta(k)
    case KeyUp(k) => UpDelta(k)
  }

  /** Total change of the player bat's velocity over a sequence of key
      edges, applied in order. */
  function NetDelta(events: seq<KeyEvent>): (d: int)
    // each edge changes the velocity by at most one step
    ensures -BatSpeed * |events| <= d <= BatSpeed * |events|
    decreases |events|
  {
    if events == [] then 0
    else NetDelta(events[..|events| - 1]) + EventDelta(events[|events| - 1])
  }

  /** Key edges act additively: a batch of edges changes the velocity by the
      sum of what its parts do. */
  lemma {:induction false} NetDeltaAppend(a: seq<KeyEvent>, b: seq<KeyEvent>)
    ensures NetDelta(a + b) == NetDelta(a) + NetDelta(b)
    decreases |b|
  {
    if b == [] {
      assert a + b == a;
    } else {
      var b' := b[..|b| - 1];
      assert (a + b)[..|a + b| - 1] == a + b';
      assert (a + b)[|a + b| - 1] == b[|b| - 1];
      NetDeltaAppend(a, b');
    }
  }

  /** The player bat's velocity only ever moves in whole steps of BatSpeed. */
  lemma {:induction false} NetDeltaWholeSteps(events: seq<KeyEvent>)
    ensures NetDelta(events) % BatSpeed == 0
    decreases |events|
  {
    if events != [] {
      NetDeltaWholeSteps(events[..|events| - 1]);
    }
  }

  /** Pressing and then releasing the same key leaves the velocity where it
      was, whatever came before. */
  lemma PressReleaseRestores(events: seq<KeyEvent>, k: Key)
    ensures NetDelta(events + [KeyDown(k), KeyUp(k)]) == NetDelta(events)
  {
    var pair := [KeyDown(k), KeyUp(k)];
    NetDeltaAppend(events, pair);
    assert pair[..1] == [KeyDown(k)];
    assert [KeyDown(k)][..0] == [];
    assert NetDelta([KeyDown(k)]) == DownDelta(k);
    assert NetDelta(pair) == NetDelta([KeyDown(k)]) + UpDelta(k);
  }

  // ---------------------------------------------------------------- ball

  /** Where the ball stands with respect to the court's goal lines. */
  datatype Court = Normal | OutsideTop | OutsideBottom

  /** The ball's velocity in polar form: heading k (angle k*pi/4) and the
      distance covered per frame. */
  datatype Vector = Vector(angle: int, dist: int)

  datatype BallState = BallState(x: int, y: int, vector: Vector, hit: bool, offcourt: Court)

  /** The ball's velocity is always a diagonal at the fixed speed. */
  predicate ValidVector(v: Vector)
  {
    Diagonal(v.angle) && v.dist == BallSpeed
  }

  /** The ball put back at (x0, y0) with the latch and the exit code
      cleared and the heading of serve draw i. */
  function Served(x0: int, y0: int, i: int): (b: BallState)
    requires 1 <= i <= 4
    ensures b.x == x0 && b.y == y0 && !b.hit && b.offcourt == Normal
    ensures ValidVector(b.vector) && 0 < b.vector.angle < 8
  {
    BallState(x0, y0, Vector(Heading(i), BallSpeed), false, Normal)
  }

  /** The ball one frame further along its heading; nothing else changes. */
  function StepForward(b: BallState): (r: BallState)
    requires ValidVector(b.vector)
    ensures r == b.(x := r.x, y := r.y)
    ensures CosPositive(b.vector.angle) ==> 5 <= r.x - b.x <= 6
    ensures !CosPositive(b.vector.angle) ==> 5 <= b.x - r.x <= 6
    ensures SinPositive(b.vector.angle) ==> 5 <= r.y - b.y <= 6
    ensures !SinPositive(b.vector.angle) ==> 5 <= b.y - r.y <= 6
  {
    b.(x := Advance(b.x, CosPositive(b.vector.angle)),
       y := Advance(b.y, SinPositive(b.vector.angle)))
  }

  /** The square box, BallRadius on a side, centred on the ball. */
  function BallBox(x: int, y: int): (r: Rect)
    ensures r.width == BallRadius && r.height == BallRadius
    ensures r.left + r.width / 2 == x && r.top + r.height / 2 == y
  {
    Rect(x - BallRadius / 2, y - BallRadius / 2, BallRadius, BallRadius)
  }

  /** The box of the ball after its next position step. */
  function BoxAfter(b: BallState): Rect
    requires ValidVector(b.vector)
  {
    BallBox(StepForward(b).x, StepForward(b).y)
  }

  /** The point lies outside the court; the court's right and bottom edges
      themselves count as outside. */
  predicate Outside(boundary: Rect, px: int, py: int)
  {
    !boundary.CollidePoint(px, py)
  }

  /** Both top corners of the box lie outside the court. */
  predicate TopOut(boundary: Rect, box: Rect)
  {
    Outside(boundary, box.left, box.top) && Outside(boundary, box.Right(), box.top)
  }

  /** Both bottom corners of the box lie outside the court. Since the
      court's bottom edge is not part of it, a box flush with the bottom
      edge is bottom-out while still contained. */
  predicate BottomOut(boundary: Rect, box: Rect)
  {
    Outside(boundary, box.left, box.Bottom()) && Outside(boundary, box.Right(), box.Bottom())
  }

  /** Both left corners, or both right corners, of the box lie outside. */
  predicate SideOut(boundary: Rect, box: Rect)
  {
    (Outside(boundary, box.left, box.Bottom()) && Outside(boundary, box.left, box.top)) ||
    (Outside(boundary, box.Right(), box.Bottom()) && Outside(boundary, box.Right(), box.top))
  }

  /** A box whose corners are within the court's columns is out over the
      top exactly when its top edge is outside the court's rows; a
      non-empty box that is out over the top is not in the court. */
  lemma TopOutRows(boundary: Rect, box: Rect)
    ensures 0 <= box.width && boundary.left <= box.left && box.Right() < boundary.Right() ==>
      (TopOut(boundary, box) <==> !(boundary.top <= box.top < boundary.Bottom()))
    ensures TopOut(boundary, box) && 0 < box.width && 0 < box.height ==> !boundary.Contains(box)
  { }

  /** A box whose corners are within the court's columns is out over the
      bottom exactly when its bottom edge is outside the court's rows. */
  lemma BottomOutRows(boundary: Rect, box: Rect)
    ensures 0 <= box.width && boundary.left <= box.left && box.Right() < boundary.Right() ==>
      (BottomOut(boundary, box) <==> !(boundary.top <= box.Bottom() < boundary.Bottom()))
  { }

  /** A box whose corners are within the court's rows is out at a side
      exactly when its left or its right edge is outside the court's
      columns. */
  lemma SideOutColumns(boundary: Rect, box: Rect)
    ensures 0 <= box.height && boundary.top <= box.top && box.Bottom() < boundary.Bottom() ==>
      (SideOut(boundary, box) <==> !(boundary.left <= box.left < boundary.Right()) ||
                                   !(boundary.left <= box.Right() < boundary.Right()))
  { }

  /** The y the ball is moved to after bouncing off bat with new heading k:
      the bat's top plus BallRadius when the ball now moves down, the bat's
      bottom minus BallRadius when it moves up. */
  function SnapY(k: int, bat: Rect): (y: int)
    // for a bat as tall as the ball's radius, the ball's centre lands on the
    // bat's edge in the ball's new direction of travel
    ensures bat.height == BallRadius ==>
      y == (if SinPositive(k) then bat.Bottom() else bat.top)
  {
    if SinPositive(k) then bat.top + BallRadius else bat.Bottom() - BallRadius
  }

  /** The snap does not separate the ball from the bat: a ball whose box
      overlapped a bat of the game's height still overlaps it after the
      snap, in either direction. */
  lemma SnapKeepsOverlap(x: int, y: int, k: int, bat: Rect)
    requires bat.height == BatHeight && 0 < bat.width
    requires BallBox(x, y).CollideRect(bat)
    ensures BallBox(x, SnapY(k, bat)).CollideRect(bat)
  {
  }

  /** The overlap left by the snap is never tested: the next step carries
      the ball 5 or 6 rows on in its new vertical direction, which takes its
      box clear of the bat it bounced off before the next overlap test. */
  lemma ClearAtNextTest(x: int, k: int, bat: Rect, hit: bool, off: Court)
    requires Diagonal(k) && bat.height == BatHeight
    ensures !BoxAfter(BallState(x, SnapY(k, bat), Vector(k, BallSpeed), hit, off)).CollideRect(bat)
  {
  }

  /** Outcome of scanning the bats: the new heading, y and latch, and
      whether a bounce happened. */
  datatype ScanResult = ScanResult(angle: int, y: int, hit: bool, bounced: bool)

  /** The scan over the bats, in order, as the loop performs it: the first
      bat that overlaps the box while the latch is clear reflects the ball
      and ends the scan; a bat that does not clears the latch. */
  function Scan(box: Rect, bats: seq<Rect>, angle: int, y: int, hit: bool): (r: ScanResult)
    ensures r.bounced ==> r.angle == ReflectBat(angle) && r.hit
    ensures !r.bounced ==> r.angle == angle && r.y == y
    ensures bats != [] ==> r.hit == r.bounced
    ensures bats == [] ==> r.hit == hit
    decreases |bats|
  {
    if bats == [] then ScanResult(angle, y, hit, false)
    else if box.CollideRect(bats[0]) && !hit then
      ScanResult(ReflectBat(angle), SnapY(ReflectBat(angle), bats[0]), true, true)
    else Scan(box, bats[1..], angle, y, false)
  }

  /** Bat i can bounce the ball: it overlaps the box, and it is not the
      first bat while the latch is set on entry. */
  predicate Eligible(box: Rect, bats: seq<Rect>, hit: bool, i: int)
  {
    0 <= i < |bats| && box.CollideRect(bats[i]) && !(hit && i == 0)
  }

  predicate SomeEligible(box: Rect, bats: seq<Rect>, hit: bool)
  {
    exists i | 0 <= i < |bats| :: Eligible(box, bats, hit, i)
  }

  /** The scan bounces exactly when some bat is eligible. */
  lemma {:induction false} ScanBouncesIffEligible(box: Rect, bats: seq<Rect>, angle: int, y: int, hit: bool)
    ensures Scan(box, bats, angle, y, hit).bounced <==> SomeEligible(box, bats, hit)
    decreases |bats|
  {
    if bats == [] {
    } else if box.CollideRect(bats[0]) && !hit {
      assert Eligible(box, bats, hit, 0);
    } else {
      var rest := bats[1..];
      ScanBouncesIffEligible(box, rest, angle, y, false);
      if SomeEligible(box, bats, hit) {
        var i :| 0 <= i < |bats| && Eligible(box, bats, hit, i);
        assert i != 0 && rest[i - 1] == bats[i];
        assert Eligible(box, rest, false, i - 1);
      }
      if SomeEligible(box, rest, false) {
        var i :| 0 <= i < |rest| && Eligible(box, rest, false, i);
        assert rest[i] == bats[i + 1];
        assert Eligible(box, bats, hit, i + 1);
      }
    }
  }

  /** When bat i is the first eligible bat, it is the one that bounces the
      ball, and the ball is snapped to that bat. */
  lemma {:induction false} ScanFirstEligibleBounces(box: Rect, bats: seq<Rect>, angle: int, y: int, hit: bool, i: int)
    requires Eligible(box, bats, hit, i)
    requires forall j :: 0 <= j < i ==> !Eligible(box, bats, hit, j)
    ensures Scan(box, bats, angle, y, hit) ==
            ScanResult(ReflectBat(angle), SnapY(ReflectBat(angle), bats[i]), true, true)
    decreases i
  {
    if i > 0 {
      assert !Eligible(box, bats, hit, 0);
      var rest := bats[1..];
      forall j | 0 <= j < i - 1
        ensures !Eligible(box, rest, false, j)
      {
        assert !Eligible(box, bats, hit, j + 1);
      }
      assert Eligible(box, rest, false, i - 1);
      ScanFirstEligibleBounces(box, rest, angle, y, false, i - 1);
    }
  }

  /** With the latch set, the first bat cannot bounce the ball, but the
      latch is cleared at once and the second bat still can. */
  lemma LatchSparesOnlyFirstBat(box: Rect, player: Rect, ai: Rect, angle: int, y: int)
    ensures Scan(box, [player, ai], angle, y, true) ==
            if box.CollideRect(ai) then ScanResult(ReflectBat(angle), SnapY(ReflectBat(angle), ai), true, true)
            else ScanResult(angle, y, false, false)
  {
    assert [player, ai][1..] == [ai];
    assert [ai][1..] == [];
  }

  /** One move of the ball against the court (boundary) and the bats, in
      order. Wall branch when the box at the new position is not inside the
      court; bat branch otherwise. */
  function BallMove(s: BallState, boundary: Rect, bats: seq<Rect>): (r: BallState)
    requires ValidVector(s.vector)
    // the speed is kept and the heading stays diagonal
    ensures ValidVector(r.vector) && r.vector.dist == s.vector.dist
    // x is never adjusted after the step
    ensures r.x == StepForward(s).x
  {
    var p := StepForward(s);
    var box := BoxAfter(s);
    var a := s.vector.angle;
    if !boundary.Contains(box) then
      var exit := if TopOut(boundary, box) then OutsideTop
                  else if BottomOut(boundary, box) then OutsideBottom
                  else s.offcourt;
      var a' := if SideOut(boundary, box) then ReflectSide(a) else a;
      BallState(p.x, p.y, Vector(a', s.vector.dist), s.hit, exit)
    else
      var sc := Scan(box, bats, a, p.y, s.hit);
      BallState(p.x, sc.y, Vector(sc.angle, s.vector.dist), sc.hit, s.offcourt)
  }

  /** Wall branch: the latch is kept; both top corners outside mark an
      exit over the top, otherwise both bottom corners outside an exit over
      the bottom, otherwise the exit code is kept; independently of that,
      the ball is reflected off a side wall exactly when both its left or
      both its right corners are outside. */
  lemma WallBranch(s: BallState, boundary: Rect, bats: seq<Rect>)
    requires ValidVector(s.vector)
    requires !boundary.Contains(BoxAfter(s))
    ensures var r := BallMove(s, boundary, bats);
      r.y == StepForward(s).y && r.hit == s.hit &&
      (TopOut(boundary, BoxAfter(s)) ==> r.offcourt == OutsideTop) &&
      (!TopOut(boundary, BoxAfter(s)) && BottomOut(boundary, BoxAfter(s)) ==> r.offcourt == OutsideBottom) &&
      (!TopOut(boundary, BoxAfter(s)) && !BottomOut(boundary, BoxAfter(s)) ==> r.offcourt == s.offcourt) &&
      (r.vector.angle != s.vector.angle <==> SideOut(boundary, BoxAfter(s))) &&
      (r.vector.angle == s.vector.angle || r.vector.angle == ReflectSide(s.vector.angle))
  {
  }

  /** Bat branch: the exit code is kept; the ball is reflected off a bat,
      at most once, exactly when some bat is eligible; after a scan over at
      least one bat the latch is set exactly when the ball was reflected in
      this move; without a reflection y is left where the step put it. */
  lemma BatBranch(s: BallState, boundary: Rect, bats: seq<Rect>)
    requires ValidVector(s.vector)
    requires boundary.Contains(BoxAfter(s))
    ensures var r := BallMove(s, boundary, bats);
      r.offcourt == s.offcourt &&
      (r.vector.angle != s.vector.angle <==> SomeEligible(BoxAfter(s), bats, s.hit)) &&
      (r.vector.angle == s.vector.angle || r.vector.angle == ReflectBat(s.vector.angle)) &&
      (bats != [] ==> (r.hit <==> r.vector.angle != s.vector.angle)) &&
      (!SomeEligible(BoxAfter(s), bats, s.hit) ==> r.y == StepForward(s).y)
  {
    ScanBouncesIffEligible(BoxAfter(s), bats, s.vector.angle, StepForward(s).y, s.hit);
  }

  /** A bounce off the first eligible bat snaps the ball to that bat and
      sets the latch. */
  lemma BallMoveSnapsToBat(s: BallState, boundary: Rect, bats: seq<Rect>, i: int)
    requires ValidVector(s.vector)
    requires boundary.Contains(BoxAfter(s))
    requires Eligible(BoxAfter(s), bats, s.hit, i)
    requires forall j :: 0 <= j < i ==> !Eligible(BoxAfter(s), bats, s.hit, j)
    ensures BallMove(s, boundary, bats).y == SnapY(ReflectBat(s.vector.angle), bats[i])
    ensures BallMove(s, boundary, bats).hit
  {
    ScanFirstEligibleBounces(BoxAfter(s), bats, s.vector.angle, StepForward(s).y, s.hit, i);
  }

  /** The exit test and the side-wall test are independent: a ball that
      leaves over the top while flush with the right wall is both marked out
      and reflected in the same move. */
  lemma ExitAndSideBounceTogether()
    ensures BallMove(BallState(191, 8, Vector(7, BallSpeed), false, Normal), Screen, []) ==
            BallState(196, 2, Vector(ReflectSide(7), BallSpeed), false, OutsideTop)
  {
    assert BoxAfter(BallState(191, 8, Vector(7, BallSpeed), false, Normal)) == Rect(192, -2, 8, 8);
  }

  // ---------------------------------------------------------------- game

  datatype BatState = BatState(rect: Rect, velocity: int, start: Rect)

  datatype GameState = GameState(player: BatState, ai: BatState, ball: BallState,
                                 playerScore: int, aiScore: int)

  /** Key edges, then the player's bat moves by the new velocity. */
  function PlayerMoved(g: GameState, events: seq<KeyEvent>): (m: GameState)
    ensures m == g.(player := m.player) && m.player.start == g.player.start
  {
    var pv := g.player.velocity + NetDelta(events);
    g.(player := BatState(Moved(g.player.rect, pv), pv, g.player.start))
  }

  /** The AI's bat picks its velocity from the ball's position, then moves. */
  function AiMoved(g: GameState): (m: GameState)
    ensures m == g.(ai := m.ai) && m.ai.start == g.ai.start
  {
    var av := AiVelocity(g.ai.rect.left, g.ball.x, g.ball.y);
    g.(ai := BatState(Moved(g.ai.rect, av), av, g.ai.start))
  }

  /** Key edges, then the player's bat, then the AI's bat, which decides
      from the ball's position before the ball moves. */
  function BatsMoved(g: GameState, events: seq<KeyEvent>): (m: GameState)
    ensures m.ball == g.ball && m.playerScore == g.playerScore && m.aiScore == g.aiScore
    ensures m.player.start == g.player.start && m.ai.start == g.ai.start
  {
    AiMoved(PlayerMoved(g, events))
  }

  /** The ball moved against the court and both bats, the player's first. */
  function BallMoved(g: GameState): (m: GameState)
    requires ValidVector(g.ball.vector)
    ensures m == g.(ball := m.ball) && ValidVector(m.ball.vector)
  {
    g.(ball := BallMove(g.ball, Screen, [g.player.rect, g.ai.rect]))
  }

  /** Scoring after the ball has moved: a ball out over the bottom is a
      point for the AI, one out over the top a point for the player; after
      either, the ball is served again from the centre with draw i and both
      bats go back to their start rectangles, keeping their velocities. */
  function Scored(m: GameState, i: int): (r: GameState)
    requires 1 <= i <= 4
    ensures m.ball.offcourt == Normal ==> r == m
    ensures m.ball.offcourt == OutsideBottom ==>
      r.aiScore == m.aiScore + 1 && r.playerScore == m.playerScore
    ensures m.ball.offcourt == OutsideTop ==>
      r.playerScore == m.playerScore + 1 && r.aiScore == m.aiScore
    ensures m.ball.offcourt != Normal ==>
      r.ball == Served(BallStartX, BallStartY, i) &&
      r.player == m.player.(rect := m.player.start) &&
      r.ai == m.ai.(rect := m.ai.start)
    ensures r.ball.offcourt == Normal
  {
    if m.ball.offcourt == Normal then m
    else
      var player := if m.ball.offcourt == OutsideTop then m.playerScore + 1 else m.playerScore;
      var ai := if m.ball.offcourt == OutsideBottom then m.aiScore + 1 else m.aiScore;
      GameState(m.player.(rect := m.player.start), m.ai.(rect := m.ai.start),
                Served(BallStartX, BallStartY, i), player, ai)
  }

  /** A bat sits in the court, on its own row, with its own size. */
  predicate BatInCourt(b: BatState)
  {
    b.rect.top == b.start.top && b.rect.width == b.start.width &&
    b.rect.height == b.start.height && Screen.Contains(b.rect)
  }

  /** What holds of every state the game reaches. */
  predicate Inv(g: GameState)
  {
    g.player.start == PlayerStart && g.ai.start == AiStart &&
    BatInCourt(g.player) && BatInCourt(g.ai) &&
    g.player.velocity % BatSpeed == 0 && g.ai.velocity in {-BatSpeed, 0, BatSpeed} &&
    ValidVector(g.ball.vector) && g.ball.offcourt == Normal &&
    g.playerScore >= 0 && g.aiScore >= 0
  }

  /** The state before the first frame. */
  function Initial(i: int): (g: GameState)
    requires 1 <= i <= 4
    ensures Inv(g) && g.playerScore == 0 && g.aiScore == 0
  {
    var player := BatState(PlayerStart, 0, PlayerStart);
    var ai := BatState(AiStart, 0, AiStart);
    var ball := Served(BallStartX, BallStartY, i);
    assert BatInCourt(player) && BatInCourt(ai) && ValidVector(ball.vector);
    GameState(player, ai, ball, 0, 0)
  }

  /** One frame: key edges, bats, ball, scoring; i is the serve draw used
      if a point is scored. */
  function TickSpec(g: GameState, events: seq<KeyEvent>, i: int): (r: GameState)
    requires ValidVector(g.ball.vector) && 1 <= i <= 4
    ensures ValidVector(r.ball.vector)
  {
    Scored(BallMoved(BatsMoved(g, events)), i)
  }

  /** What a frame does to the scores and the velocities: scores never
      decrease and rise by at most one point in all; the ball is in play at
      the end of every frame; the player's velocity changes only by the key
      edges, the AI's is chosen from the ball's position before the move;
      after a point the ball is served again and both bats are back at
      their start rectangles. */
  lemma TickRules(g: GameState, events: seq<KeyEvent>, i: int)
    requires ValidVector(g.ball.vector) && 1 <= i <= 4
    ensures var r := TickSpec(g, events, i);
      r.ball.offcourt == Normal &&
      r.playerScore >= g.playerScore && r.aiScore >= g.aiScore &&
      r.playerScore + r.aiScore <= g.playerScore + g.aiScore + 1 &&
      r.player.velocity == g.player.velocity + NetDelta(events) &&
      r.ai.velocity == AiVelocity(g.ai.rect.left, g.ball.x, g.ball.y) &&
      r.player.start == g.player.start && r.ai.start == g.ai.start &&
      (r.playerScore + r.aiScore != g.playerScore + g.aiScore ==>
        r.ball == Served(BallStartX, BallStartY, i) &&
        r.player.rect == g.player.start && r.ai.rect == g.ai.start)
  {
  }

  /** A frame taken from a reachable state reaches a reachable state: the
      bats stay in the court on their rows, the player's velocity stays a
      whole number of steps, the AI's is one of three values, the ball keeps
      a diagonal heading at the fixed speed and is back in play. */
  lemma TickKeepsInvariant(g: GameState, events: seq<KeyEvent>, i: int)
    requires Inv(g) && 1 <= i <= 4
    ensures Inv(TickSpec(g, events, i))
  {
    NetDeltaWholeSteps(events);
    var m := BatsMoved(g, events);
    assert BatInCourt(m.player) && BatInCourt(m.ai);
    var b := BallMoved(m);
    assert b.player == m.player && b.ai == m.ai;
    assert b.playerScore == g.playerScore && b.aiScore == g.aiScore;
  }

  /** A draw of the serve direction: the random choice among four. */
  type Draw = i: int | 1 <= i <= 4 witness 1

  /** What one frame brings: the key edges polled, and the draw used if a
      point is scored in it. */
  datatype Frame = Frame(events: seq<KeyEvent>, serve: Draw)

  /** The game after a sequence of frames. */
  function Run(g: GameState, frames: seq<Frame>): (r: GameState)
    requires ValidVector(g.ball.vector)
    ensures ValidVector(r.ball.vector)
    decreases |frames|
  {
    if frames == [] then g
    else
      var last := frames[|frames| - 1];
      TickSpec(Run(g, frames[..|frames| - 1]), last.events, last.serve)
  }

  /** Over any run from a reachable state the invariant is kept, the scores
      never decrease, and at most one point is scored per frame. */
  lemma {:induction false} RunKeepsInvariant(g: GameState, frames: seq<Frame>)
    requires ValidVector(g.ball.vector)
    requires Inv(g)
    ensures Inv(Run(g, frames))
    ensures Run(g, frames).playerScore >= g.playerScore
    ensures Run(g, frames).aiScore >= g.aiScore
    ensures Run(g, frames).playerScore + Run(g, frames).aiScore <= g.playerScore + g.aiScore + |frames|
    decreases |frames|
  {
    if frames != [] {
      var before := frames[..|frames| - 1];
      var last := frames[|frames| - 1];
      RunKeepsInvariant(g, before);
      TickKeepsInvariant(Run(g, before), last.events, last.serve);
    }
  }
}
