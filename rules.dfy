/**
 * The game rules of `js/main.js` on values: what `Plane`, `Projectile` and
 * `Level` do to their fields, written as functions from the old fields to the
 * new ones. The classes in module World hold the same fields, and each of
 * their methods that models one of these is proved to change them exactly as
 * the function here says;
 * the lemmas below state what the game promises about these functions.
 */
module Rules {
  import opened Geometry

  /** `PlaneType`: which side a plane, and every shot it fires, is on. */
  datatype PlaneType = Player | Enemy

  // Fields the constructors set and nothing ever reassigns.
  /** `Plane.size`. */
  const PlaneSize: real := 20.0
  /** `Plane.shootCooldownMax`. */
  const ShootCooldownMax: nat := 10
  /** `Plane.aiMoveInterval`. */
  const AiMoveInterval: nat := 20
  /** `Projectile.size`. */
  const ProjectileSize: real := 3.0

  /*************************************************************************
   * Projectiles
   *************************************************************************/

  /** The fields of one `Projectile`. */
  datatype ProjectileState = ProjectileState(
    x: real, y: real, rotation: real, speed: real, kind: PlaneType, alive: bool)

  /** `Projectile.die()`. */
  function Kill(p: ProjectileState): (r: ProjectileState)
    ensures !r.alive
    ensures r.(alive := p.alive) == p
  {
    p.(alive := false)
  }

  /** Killing a projectile twice is the same as killing it once. */
  lemma KillIdempotent(p: ProjectileState)
    ensures Kill(Kill(p)) == Kill(p)
  {
  }

  /** `Projectile.sizePx`. */
  function ProjectileSizePx(h: Host): real {
    ProjectileSize * ScaleFactor(h)
  }

  /** Outside the canvas by more than the projectile's own size, on some axis. */
  predicate BeyondMargin(h: Host, x: real, y: real) {
    var m := ProjectileSizePx(h);
    x < -m || y < -m || x > h.width + m || y > h.height + m
  }

  /** `Projectile.update()`: one step forward, then death past the margin. */
  function ProjectileUpdate(p: ProjectileState, h: Host): (r: ProjectileState)
    ensures (r.x, r.y) == UpdatePosition(h, p.x, p.y, p.rotation, p.speed)
    ensures r.alive <==> p.alive && !BeyondMargin(h, r.x, r.y)
    ensures r.rotation == p.rotation && r.speed == p.speed && r.kind == p.kind
  {
    var (nx, ny) := UpdatePosition(h, p.x, p.y, p.rotation, p.speed);
    var moved := p.(x := nx, y := ny);
    if BeyondMargin(h, nx, ny) then Kill(moved) else moved
  }

  /** `n` frames of `Projectile.update()`. */
  function ProjectileSteps(p: ProjectileState, h: Host, n: nat): ProjectileState
    decreases n
  {
    if n == 0 then p else ProjectileUpdate(ProjectileSteps(p, h, n - 1), h)
  }

  /**
   * Over any number of frames a projectile keeps its heading, speed and side,
   * and a dead projectile stays dead: once it has left the margin it never
   * comes back to life.
   */
  lemma {:induction false} ProjectileStepsKeep(p: ProjectileState, h: Host, n: nat)
    ensures ProjectileSteps(p, h, n).rotation == p.rotation
    ensures ProjectileSteps(p, h, n).speed == p.speed
    ensures ProjectileSteps(p, h, n).kind == p.kind
    ensures ProjectileSteps(p, h, n).alive ==> p.alive
    decreases n
  {
    if n > 0 {
      ProjectileStepsKeep(p, h, n - 1);
    }
  }

  /** Once a step ends past the margin, the projectile is dead at every later frame. */
  lemma {:induction false} DeadProjectileStaysDead(p: ProjectileState, h: Host, k: nat, n: nat)
    requires k <= n
    requires !ProjectileSteps(p, h, k).alive
    ensures !ProjectileSteps(p, h, n).alive
    decreases n
  {
    if n > k {
      DeadProjectileStaysDead(p, h, k, n - 1);
    }
  }

  /*************************************************************************
   * Planes
   *************************************************************************/

  /** The fields of one `Plane` that change while the game runs. */
  datatype PlaneState = PlaneState(
    x: real, y: real, rotation: real, kind: PlaneType,
    speed: real, turnSpeed: real, projectileSpeed: real,
    alive: bool,
    aiTurnSpeed: real, aiMoveCount: nat,
    shootCooldown: nat, shootCount: nat, shootChance: real,
    spawnImmunityCount: nat, lives: int)

  /** `new Plane(type)`: the defaults of the constructor. */
  function NewPlane(kind: PlaneType): PlaneState {
    PlaneState(
      x := 0.0, y := 0.0, rotation := 0.0, kind := kind,
      speed := 0.8, turnSpeed := 0.05, projectileSpeed := 2.0,
      alive := true,
      aiTurnSpeed := 0.0, aiMoveCount := 0,
      shootCooldown := 200, shootCount := 0, shootChance := 0.05,
      spawnImmunityCount := 200, lives := 10)
  }

  /** A dead plane has no lives left. */
  predicate Inv(s: PlaneState) {
    !s.alive ==> s.lives == 0
  }

  /** `Plane.spawnImmune`. */
  predicate SpawnImmune(s: PlaneState) {
    s.spawnImmunityCount > 0
  }

  /** `Plane.sizePx`. */
  function SizePx(h: Host): real {
    PlaneSize * ScaleFactor(h)
  }

  /** `Plane.hitbox`: the square of side `sizePx` centred on the plane. */
  function HitBox(s: PlaneState, h: Host): Box {
    CentredSquare(s.x, s.y, SizePx(h))
  }

  /** `Plane.hitTest(px, py)`. */
  predicate HitTest(s: PlaneState, h: Host, px: real, py: real) {
    StrictlyInside(HitBox(s, h), px, py)
  }

  /** `hitTest` accepts exactly the points less than half a side away from the centre on both axes. */
  lemma HitTestIsOpenSquare(s: PlaneState, h: Host, px: real, py: real)
    ensures HitTest(s, h, px, py)
        <==> Abs(px - s.x) < SizePx(h) / 2.0 && Abs(py - s.y) < SizePx(h) / 2.0
  {
    CentredSquareInside(s.x, s.y, SizePx(h), px, py);
  }

  /** `Plane.die()`: audio aside, only the alive flag changes. */
  function Die(s: PlaneState): PlaneState {
    s.(alive := false)
  }

  /** `Plane.hit()`. */
  function Hit(s: PlaneState): (r: PlaneState)
    ensures s.lives > 1 ==> r.lives == s.lives - 1 && r.alive == s.alive
    ensures s.lives <= 1 ==> r.lives == 0 && !r.alive
    ensures r.alive ==> s.alive
    ensures Inv(s) ==> Inv(r)
    ensures r.(lives := s.lives, alive := s.alive) == s
  {
    if s.lives > 1 then s.(lives := s.lives - 1) else Die(s.(lives := 0))
  }

  /** `n` calls of `hit()` in a row. */
  function HitN(s: PlaneState, n: nat): PlaneState
    decreases n
  {
    if n == 0 then s else Hit(HitN(s, n - 1))
  }

  /**
   * `n` hits take `n` lives, down to zero, and leave the plane alive exactly
   * when it was alive and had more than `n` lives; nothing but `lives` and
   * `alive` changes.
   */
  lemma {:induction false} HitNCounts(s: PlaneState, n: nat)
    ensures n == 0 ==> HitN(s, n) == s
    ensures n > 0 ==> HitN(s, n).lives == (if s.lives > n then s.lives - n else 0)
    ensures n > 0 ==> (HitN(s, n).alive <==> s.alive && s.lives > n)
    ensures HitN(s, n).(lives := s.lives, alive := s.alive) == s
    decreases n
  {
    if n > 1 {
      HitNCounts(s, n - 1);
    }
  }

  /** `turnLeft()`: dead planes do not turn. */
  function TurnLeft(s: PlaneState): PlaneState {
    if !s.alive then s else s.(rotation := s.rotation - s.turnSpeed)
  }

  /** `turnRight()`: dead planes do not turn. */
  function TurnRight(s: PlaneState): PlaneState {
    if !s.alive then s else s.(rotation := s.rotation + s.turnSpeed)
  }

  /**
   * The steering part of `handleInputs()`: the left key wins when both are
   * held, and neither key does anything to a dead plane.
   */
  function SteerByKeys(s: PlaneState, left: bool, right: bool): (r: PlaneState)
    ensures s.alive && left ==> r == s.(rotation := s.rotation - s.turnSpeed)
    ensures s.alive && !left && right ==> r == s.(rotation := s.rotation + s.turnSpeed)
    ensures !s.alive || (!left && !right) ==> r == s
  {
    if left then TurnLeft(s) else if right then TurnRight(s) else s
  }

  /**
   * The in-game branch of `handleInputs()` on the player: steer by the arrow
   * keys, then shoot when the space bar is down.
   */
  function Controls(s: PlaneState, h: Host, left: bool, right: bool, fire: bool, ps: seq<ProjectileState>)
    : (PlaneState, seq<ProjectileState>)
  {
    var steered := SteerByKeys(s, left, right);
    if fire then Shoot(steered, h, ps) else (steered, ps)
  }

  /**
   * The keys never move the plane, cost or give a life, or kill or revive
   * it; they add at most the one projectile a shot makes; and they do
   * nothing at all to a dead plane.
   */
  lemma ControlsKeepInvariant(s: PlaneState, h: Host, left: bool, right: bool, fire: bool, ps: seq<ProjectileState>)
    ensures var r := Controls(s, h, left, right, fire, ps);
      && r.0.x == s.x && r.0.y == s.y && r.0.lives == s.lives && r.0.alive == s.alive
      && r.0.kind == s.kind && r.0.spawnImmunityCount == s.spawnImmunityCount
    ensures Inv(s) ==> Inv(Controls(s, h, left, right, fire, ps).0)
    ensures var r := Controls(s, h, left, right, fire, ps).1;
      r == ps || (fire && |r| == |ps| + 1 && r[..|ps|] == ps && r[|ps|].kind == s.kind)
    ensures !s.alive ==> Controls(s, h, left, right, fire, ps) == (s, ps)
  {
  }

  /**
   * The player `startGame()` creates: centred, heading `2 * PI * roll`, with
   * ten lives, no spawn immunity and no cooldown, so it can be hit and can
   * shoot from the first frame.
   */
  function StartingPlayer(h: Host, roll: real): (s: PlaneState)
    ensures s.kind == Player && s.alive && s.lives == 10 && Inv(s)
    ensures CanShoot(s) && !SpawnImmune(s)
    ensures s.x == h.width / 2.0 && s.y == h.height / 2.0
  {
    NewPlane(Player).(x := h.width / 2.0, y := h.height / 2.0, rotation := Pi * 2.0 * roll,
                      spawnImmunityCount := 0, shootCooldown := 0, lives := 10)
  }

  /** The two guards of `shoot()`: alive and the cooldown at zero. */
  predicate CanShoot(s: PlaneState) {
    s.alive && s.shootCooldown == 0
  }

  /** `projectileOffset`: 1 radian left of the heading on even shots, right on odd ones. */
  function ProjectileOffset(s: PlaneState, h: Host): (real, real) {
    var rotation := if s.shootCount % 2 == 0 then -1.0 + s.rotation else 1.0 + s.rotation;
    (h.cos(rotation) * SizePx(h) * 0.3, h.sin(rotation) * SizePx(h) * 0.3)
  }

  /** The projectile a successful `shoot()` creates. */
  function Fired(s: PlaneState, h: Host): (p: ProjectileState)
    ensures p.alive && p.kind == s.kind && p.rotation == s.rotation
    ensures p.speed == s.speed + s.projectileSpeed
  {
    var (ox, oy) := ProjectileOffset(s, h);
    ProjectileState(s.x + ox, s.y + oy, s.rotation, s.speed + s.projectileSpeed, s.kind, true)
  }

  /** `shoot()`: the shooter's new fields and the new contents of `projectiles`. */
  function Shoot(s: PlaneState, h: Host, ps: seq<ProjectileState>): (PlaneState, seq<ProjectileState>) {
    if !CanShoot(s) then (s, ps)
    else (s.(shootCooldown := ShootCooldownMax, shootCount := s.shootCount + 1), ps + [Fired(s, h)])
  }

  /**
   * A plane that cannot shoot changes nothing; one that can appends the
   * projectile it fires to the list and starts its cooldown. Nothing else
   * about the plane changes.
   */
  lemma ShootSpec(s: PlaneState, h: Host, ps: seq<ProjectileState>)
    ensures var r := Shoot(s, h, ps);
      && (!CanShoot(s) ==> r == (s, ps))
      && (CanShoot(s) ==> |r.1| == |ps| + 1 && r.1[..|ps|] == ps && r.1[|ps|] == Fired(s, h))
      && (CanShoot(s) ==> r.0.shootCooldown == ShootCooldownMax && r.0.shootCount == s.shootCount + 1)
      && r.0.(shootCooldown := s.shootCooldown, shootCount := s.shootCount) == s
  {
    if CanShoot(s) {
      assert (ps + [Fired(s, h)])[..|ps|] == ps;
    }
  }

  /** The decrement `if (n > 0) n--` of `update()`. */
  function CountDown(n: nat): nat {
    if n > 0 then n - 1 else 0
  }

  /**
   * The heading after the edge test of `update()`: unchanged on the canvas;
   * off it, half a turn for the player and towards the player at
   * `(px, py)` for an enemy.
   */
  function Heading(s: PlaneState, h: Host, px: real, py: real): (r: real)
    ensures !OutsideCanvas(h, s.x, s.y) ==> r == s.rotation
    ensures OutsideCanvas(h, s.x, s.y) && s.kind == Player ==> r == s.rotation + Pi
  {
    if !OutsideCanvas(h, s.x, s.y) then s.rotation
    else if s.kind == Player then s.rotation + Pi
    else h.atan2(s.y - py, s.x - px) + Pi
  }

  /**
   * `update()` up to the collision pass, on a live plane: both counters count
   * down, the heading is turned back at the canvas edge (the player by half a
   * turn, an enemy to point towards the player, via `atan2`), and the plane
   * takes one step.
   */
  function Advance(s: PlaneState, h: Host, px: real, py: real): (r: PlaneState)
    ensures r.spawnImmunityCount == CountDown(s.spawnImmunityCount)
    ensures r.shootCooldown == CountDown(s.shootCooldown)
    ensures r.rotation == Heading(s, h, px, py)
    ensures (r.x, r.y) == UpdatePosition(h, s.x, s.y, r.rotation, s.speed)
    ensures r.(x := s.x, y := s.y, rotation := s.rotation,
               spawnImmunityCount := s.spawnImmunityCount, shootCooldown := s.shootCooldown) == s
  {
    var rotation := Heading(s, h, px, py);
    var (nx, ny) := UpdatePosition(h, s.x, s.y, rotation, s.speed);
    s.(spawnImmunityCount := CountDown(s.spawnImmunityCount),
       rotation := rotation,
       shootCooldown := CountDown(s.shootCooldown),
       x := nx, y := ny)
  }

  /** The three skip conditions of the collision loop, negated. */
  predicate Targets(s: PlaneState, p: ProjectileState) {
    p.alive && p.kind != s.kind && !SpawnImmune(s)
  }

  /** A projectile the collision loop kills, with one `hit()` for the plane. */
  predicate Struck(s: PlaneState, h: Host, p: ProjectileState) {
    Targets(s, p) && HitTest(s, h, p.x, p.y)
  }

  /** One turn of the collision loop. */
  function CollideOne(s: PlaneState, h: Host, p: ProjectileState): (PlaneState, ProjectileState) {
    if Struck(s, h, p) then (Hit(s), Kill(p)) else (s, p)
  }

  /** The collision loop of `update()` over `projectiles`, in array order. */
  function Collide(s: PlaneState, h: Host, ps: seq<ProjectileState>): (PlaneState, seq<ProjectileState>)
    decreases |ps|
  {
    if |ps| == 0 then (s, [])
    else
      var (s1, done) := Collide(s, h, ps[..|ps| - 1]);
      var (s2, p) := CollideOne(s1, h, ps[|ps| - 1]);
      (s2, done + [p])
  }

  /** How many of `ps` the plane is struck by. */
  function Strikes(s: PlaneState, h: Host, ps: seq<ProjectileState>): nat
    decreases |ps|
  {
    if |ps| == 0 then 0
    else Strikes(s, h, ps[..|ps| - 1]) + if Struck(s, h, ps[|ps| - 1]) then 1 else 0
  }

  /** `hit()` moves neither the plane nor its immunity, so it never changes which shots strike. */
  lemma HitKeepsStruck(s: PlaneState, h: Host, n: nat, p: ProjectileState)
    ensures Struck(HitN(s, n), h, p) == Struck(s, h, p)
  {
    HitNCounts(s, n);
  }

  /**
   * The collision pass kills exactly the live, opposing projectiles strictly
   * inside the hitbox of a plane that is not spawn-immune, leaves every other
   * projectile as it was, and hits the plane once per projectile it kills.
   */
  lemma {:induction false} CollideSpec(s: PlaneState, h: Host, ps: seq<ProjectileState>)
    ensures |Collide(s, h, ps).1| == |ps|
    ensures forall i :: 0 <= i < |ps| ==>
      Collide(s, h, ps).1[i] == if Struck(s, h, ps[i]) then Kill(ps[i]) else ps[i]
    ensures Collide(s, h, ps).0 == HitN(s, Strikes(s, h, ps))
    decreases |ps|
  {
    if |ps| > 0 {
      var init := ps[..|ps| - 1];
      CollideSpec(s, h, init);
      HitKeepsStruck(s, h, Strikes(s, h, init), ps[|ps| - 1]);
    }
  }

  /** While spawn-immune a plane is struck by nothing and every projectile is left alone. */
  lemma {:induction false} ImmuneIgnoresAll(s: PlaneState, h: Host, ps: seq<ProjectileState>)
    requires SpawnImmune(s)
    ensures Collide(s, h, ps) == (s, ps)
    decreases |ps|
  {
    if |ps| > 0 {
      ImmuneIgnoresAll(s, h, ps[..|ps| - 1]);
      assert ps[..|ps| - 1] + [ps[|ps| - 1]] == ps;
    }
  }

  /** `update()`: nothing on a dead plane; otherwise `Advance` and then the collision pass. */
  function PlaneUpdate(s: PlaneState, h: Host, px: real, py: real, ps: seq<ProjectileState>)
    : (PlaneState, seq<ProjectileState>)
  {
    if !s.alive then (s, ps) else Collide(Advance(s, h, px, py), h, ps)
  }

  /**
   * One `update()` keeps `Inv`, never gives a life back or takes lives below
   * zero, and keeps the list of projectiles the same length.
   */
  lemma UpdateKeepsInvariant(s: PlaneState, h: Host, px: real, py: real, ps: seq<ProjectileState>)
    ensures Inv(s) ==> Inv(PlaneUpdate(s, h, px, py, ps).0)
    ensures s.lives >= 0 ==> 0 <= PlaneUpdate(s, h, px, py, ps).0.lives <= s.lives
    ensures PlaneUpdate(s, h, px, py, ps).0.alive ==> s.alive
    ensures PlaneUpdate(s, h, px, py, ps).0.kind == s.kind
    ensures PlaneUpdate(s, h, px, py, ps).0.spawnImmunityCount <= s.spawnImmunityCount
    ensures |PlaneUpdate(s, h, px, py, ps).1| == |ps|
  {
    if s.alive {
      var moved := Advance(s, h, px, py);
      CollideSpec(moved, h, ps);
      HitNCounts(moved, Strikes(moved, h, ps));
    }
  }

  /**
   * `update()` changes nothing on a dead plane. On a live one both counters
   * count down and stop at zero, the plane moves by `Advance`, and only
   * `lives` and `alive` are left to the collision pass.
   */
  lemma UpdateSpec(s: PlaneState, h: Host, px: real, py: real, ps: seq<ProjectileState>)
    ensures !s.alive ==> PlaneUpdate(s, h, px, py, ps) == (s, ps)
    ensures s.alive ==>
      var r := PlaneUpdate(s, h, px, py, ps).0;
      var moved := Advance(s, h, px, py);
      && r.spawnImmunityCount == (if s.spawnImmunityCount > 0 then s.spawnImmunityCount - 1 else 0)
      && r.shootCooldown == (if s.shootCooldown > 0 then s.shootCooldown - 1 else 0)
      && r.(lives := moved.lives, alive := moved.alive) == moved
  {
    if s.alive {
      var moved := Advance(s, h, px, py);
      CollideSpec(moved, h, ps);
      HitNCounts(moved, Strikes(moved, h, ps));
    }
  }

  /** The turn biases `moveAI` chooses from, in the order it tries them. */
  function Candidates(s: PlaneState): seq<real> {
    [-s.turnSpeed, 0.0, s.turnSpeed]
  }

  /** Distance to the player after one step with heading `rotation + option`. */
  function Score(s: PlaneState, h: Host, px: real, py: real, option: real): real {
    var (nx, ny) := UpdatePosition(h, s.x, s.y, s.rotation + option, s.speed);
    h.sqrt((nx - px) * (nx - px) + (ny - py) * (ny - py))
  }

  /** The scores of the three candidates, in candidate order. */
  function Scores(s: PlaneState, h: Host, px: real, py: real): (r: seq<real>)
    ensures |r| == |Candidates(s)|
    ensures forall i :: 0 <= i < |r| ==> r[i] == Score(s, h, px, py, Candidates(s)[i])
  {
    var c := Candidates(s);
    [Score(s, h, px, py, c[0]), Score(s, h, px, py, c[1]), Score(s, h, px, py, c[2])]
  }

  /** `k` is the first index of a minimal score: no score is lower, none before it is as low. */
  predicate IsFirstMin(scores: seq<real>, k: int) {
    && 0 <= k < |scores|
    && (forall j :: 0 <= j < |scores| ==> scores[k] <= scores[j])
    && (forall j :: 0 <= j < k ==> scores[k] < scores[j])
  }

  /** The index a left-to-right scan with a strict `<` ends on. */
  function FirstMin(scores: seq<real>): (k: nat)
    requires |scores| > 0
    ensures IsFirstMin(scores, k)
    decreases |scores|
  {
    if |scores| == 1 then 0
    else
      var k := FirstMin(scores[..|scores| - 1]);
      if scores[|scores| - 1] < scores[k] then |scores| - 1 else k
  }

  /** Only one index is the first minimum. */
  lemma FirstMinUnique(scores: seq<real>, k: int)
    requires IsFirstMin(scores, k)
    ensures k == FirstMin(scores)
  {
  }

  /** `moveAI()` before its decision: turn by the held bias and count the call. */
  function Turned(s: PlaneState): PlaneState {
    s.(rotation := s.rotation + s.aiTurnSpeed, aiMoveCount := s.aiMoveCount + 1)
  }

  /**
   * `moveAI()` after its shoot roll: turn by the held bias, count the call,
   * and on every `aiMoveInterval`-th call pick, as the new bias, the first
   * candidate of least score as seen from the turned plane.
   */
  function Steer(s: PlaneState, h: Host, px: real, py: real): (r: PlaneState)
    ensures r.rotation == s.rotation + s.aiTurnSpeed
    ensures r.aiMoveCount == s.aiMoveCount + 1
    ensures r.(rotation := s.rotation, aiMoveCount := s.aiMoveCount, aiTurnSpeed := s.aiTurnSpeed) == s
  {
    var turned := Turned(s);
    if turned.aiMoveCount % AiMoveInterval != 0 then turned
    else turned.(aiTurnSpeed := Candidates(turned)[FirstMin(Scores(turned, h, px, py))])
  }

  /**
   * The bias `moveAI()` holds: kept between decision calls; on every
   * `aiMoveInterval`-th call the candidate whose step lands closest to the
   * player, the first such on a tie.
   */
  lemma SteerDecision(s: PlaneState, h: Host, px: real, py: real)
    ensures (s.aiMoveCount + 1) % AiMoveInterval != 0 ==> Steer(s, h, px, py).aiTurnSpeed == s.aiTurnSpeed
    ensures (s.aiMoveCount + 1) % AiMoveInterval == 0 ==>
      exists k :: IsFirstMin(Scores(Turned(s), h, px, py), k) && Steer(s, h, px, py).aiTurnSpeed == Candidates(s)[k]
  {
    if (s.aiMoveCount + 1) % AiMoveInterval == 0 {
      var k := FirstMin(Scores(Turned(s), h, px, py));
      assert IsFirstMin(Scores(Turned(s), h, px, py), k);
    }
  }

  /**
   * `moveAI()`: shoot first when the roll is below `shootChance`, then
   * steer; `ps` is `projectiles` before the call.
   */
  function MoveAI(s: PlaneState, h: Host, px: real, py: real, shootRoll: real, ps: seq<ProjectileState>)
    : (PlaneState, seq<ProjectileState>)
  {
    var shot := if shootRoll < s.shootChance then Shoot(s, h, ps) else (s, ps);
    (Steer(shot.0, h, px, py), shot.1)
  }

  /**
   * `moveAI()` never costs or gives a life, never kills or revives, keeps
   * `Inv`, and adds at most one projectile at the end of the list.
   */
  lemma MoveAIKeepsInvariant(s: PlaneState, h: Host, px: real, py: real, shootRoll: real, ps: seq<ProjectileState>)
    ensures MoveAI(s, h, px, py, shootRoll, ps).0.lives == s.lives
    ensures MoveAI(s, h, px, py, shootRoll, ps).0.alive == s.alive
    ensures MoveAI(s, h, px, py, shootRoll, ps).0.kind == s.kind
    ensures Inv(s) ==> Inv(MoveAI(s, h, px, py, shootRoll, ps).0)
    ensures var r := MoveAI(s, h, px, py, shootRoll, ps).1;
      r == ps || (|r| == |ps| + 1 && r[..|ps|] == ps && r[|ps|] == Fired(s, h))
  {
  }

  /** One pass of the enemy loop of `loop()` on one enemy: `moveAI()`, then `update()`. */
  function EnemyStep(s: PlaneState, h: Host, px: real, py: real, shootRoll: real, ps: seq<ProjectileState>)
    : (PlaneState, seq<ProjectileState>)
  {
    var moved := MoveAI(s, h, px, py, shootRoll, ps);
    PlaneUpdate(moved.0, h, px, py, moved.1)
  }

  /**
   * `t` can follow `s` in one plane's life: `Inv` is kept, no life is
   * given back or taken below zero, a dead plane stays dead, and the side
   * does not change.
   */
  predicate Kept(s: PlaneState, t: PlaneState) {
    && (Inv(s) ==> Inv(t))
    && (s.lives >= 0 ==> 0 <= t.lives <= s.lives)
    && (t.alive ==> s.alive)
    && t.kind == s.kind
  }

  /** An enemy's turn is such a step and adds at most one projectile to the list. */
  lemma EnemyStepKeepsInvariant(s: PlaneState, h: Host, px: real, py: real, shootRoll: real, ps: seq<ProjectileState>)
    ensures var r := EnemyStep(s, h, px, py, shootRoll, ps);
      Kept(s, r.0) && |ps| <= |r.1| <= |ps| + 1
  {
    MoveAIKeepsInvariant(s, h, px, py, shootRoll, ps);
    var moved := MoveAI(s, h, px, py, shootRoll, ps);
    UpdateKeepsInvariant(moved.0, h, px, py, moved.1);
  }

  /**
   * The enemy loop of `loop()`: every enemy in order takes its turn, the
   * `i`-th with shoot roll `rolls(i)`, each seeing the projectiles the
   * turns before it left.
   */
  function MoveEnemies(es: seq<PlaneState>, h: Host, px: real, py: real, rolls: nat -> real, ps: seq<ProjectileState>)
    : (r: (seq<PlaneState>, seq<ProjectileState>))
    ensures |r.0| == |es|
    decreases |es|
  {
    if |es| == 0 then ([], ps)
    else
      var before := MoveEnemies(es[..|es| - 1], h, px, py, rolls, ps);
      var last := EnemyStep(es[|es| - 1], h, px, py, rolls(|es| - 1), before.1);
      (before.0 + [last.0], last.1)
  }

  /** The loop over the first `i + 1` enemies is the loop over `i` of them and one more turn. */
  lemma MoveEnemiesStep(es: seq<PlaneState>, i: nat, h: Host, px: real, py: real, rolls: nat -> real, ps: seq<ProjectileState>)
    requires i < |es|
    ensures var before := MoveEnemies(es[..i], h, px, py, rolls, ps);
      var last := EnemyStep(es[i], h, px, py, rolls(i), before.1);
      MoveEnemies(es[..i + 1], h, px, py, rolls, ps) == (before.0 + [last.0], last.1)
  {
    assert es[..i + 1][..i] == es[..i];
  }

  /**
   * After the enemy loop every enemy is in a state that can follow its
   * state before, and there are at most as many new projectiles as
   * enemies.
   */
  lemma {:induction false} MoveEnemiesKeepsInvariant(es: seq<PlaneState>, h: Host, px: real, py: real, rolls: nat -> real, ps: seq<ProjectileState>)
    ensures var r := MoveEnemies(es, h, px, py, rolls, ps);
      && (forall i :: 0 <= i < |es| ==> Kept(es[i], r.0[i]))
      && |ps| <= |r.1| <= |ps| + |es|
    decreases |es|
  {
    if |es| > 0 {
      var n := |es| - 1;
      MoveEnemiesKeepsInvariant(es[..n], h, px, py, rolls, ps);
      var before := MoveEnemies(es[..n], h, px, py, rolls, ps);
      var last := EnemyStep(es[n], h, px, py, rolls(n), before.1);
      EnemyStepKeepsInvariant(es[n], h, px, py, rolls(n), before.1);
      var r := MoveEnemies(es, h, px, py, rolls, ps);
      assert r == (before.0 + [last.0], last.1);
      forall i | 0 <= i < |es|
        ensures Kept(es[i], r.0[i])
      {
        if i < n {
          assert es[..n][i] == es[i];
        }
      }
    }
  }

  /** Successive `moveAI()` steering steps, one target position per call. */
  function SteerAll(s: PlaneState, h: Host, targets: seq<(real, real)>): PlaneState
    decreases |targets|
  {
    if |targets| == 0 then s
    else
      var t := targets[|targets| - 1];
      Steer(SteerAll(s, h, targets[..|targets| - 1]), h, t.0, t.1)
  }

  /** Between two decision calls the bias is held, wherever the player is. */
  lemma {:induction false} BiasHeldBetweenDecisions(s: PlaneState, h: Host, targets: seq<(real, real)>)
    requires s.aiMoveCount % AiMoveInterval + |targets| < AiMoveInterval
    ensures SteerAll(s, h, targets).aiTurnSpeed == s.aiTurnSpeed
    ensures SteerAll(s, h, targets).aiMoveCount == s.aiMoveCount + |targets|
    decreases |targets|
  {
    if |targets| > 0 {
      BiasHeldBetweenDecisions(s, h, targets[..|targets| - 1]);
      NoDecisionYet(s.aiMoveCount, |targets|);
    }
  }

  /** Between two decision calls the heading turns by the same bias every call. */
  lemma {:induction false} HeadingTurnsByBias(s: PlaneState, h: Host, targets: seq<(real, real)>)
    requires s.aiMoveCount % AiMoveInterval + |targets| < AiMoveInterval
    ensures SteerAll(s, h, targets).rotation == s.rotation + Times(|targets|, s.aiTurnSpeed)
    decreases |targets|
  {
    if |targets| > 0 {
      var init := targets[..|targets| - 1];
      HeadingTurnsByBias(s, h, init);
      BiasHeldBetweenDecisions(s, h, init);
      TimesSucc(|init|, s.aiTurnSpeed);
    }
  }

  /** `n * b`. */
  function Times(n: nat, b: real): real {
    (n as real) * b
  }

  lemma NoDecisionYet(count: nat, k: nat)
    requires 0 < k && count % AiMoveInterval + k < AiMoveInterval
    ensures (count + k) % AiMoveInterval != 0
  {
    assert count + k == (count / AiMoveInterval) * AiMoveInterval + (count % AiMoveInterval + k);
  }

  lemma TimesSucc(n: nat, b: real)
    ensures Times(n + 1, b) == Times(n, b) + b
  {
  }

  /** Everything that can happen to a plane once it is in play: for an enemy, after its level's overrides. */
  datatype PlaneEvent =
    | HitEvent
    | TurnLeftEvent
    | TurnRightEvent
    | ShootEvent(shots: seq<ProjectileState>)
    | UpdateEvent(px: real, py: real, shots: seq<ProjectileState>)
    | SteerEvent(px: real, py: real)

  function Apply(s: PlaneState, h: Host, e: PlaneEvent): PlaneState {
    match e
    case HitEvent => Hit(s)
    case TurnLeftEvent => TurnLeft(s)
    case TurnRightEvent => TurnRight(s)
    case ShootEvent(ps) => Shoot(s, h, ps).0
    case UpdateEvent(px, py, ps) => PlaneUpdate(s, h, px, py, ps).0
    case SteerEvent(px, py) => Steer(s, h, px, py)
  }

  function ApplyAll(s: PlaneState, h: Host, es: seq<PlaneEvent>): PlaneState
    decreases |es|
  {
    if |es| == 0 then s else Apply(ApplyAll(s, h, es[..|es| - 1]), h, es[|es| - 1])
  }

  /**
   * Whatever happens to a plane: it keeps its side, its lives never grow and
   * stay at least zero, `Inv` is kept, a plane that was dead is still dead,
   * and the spawn-immunity counter never grows.
   */
  lemma {:induction false} EventsKeepInvariant(s: PlaneState, h: Host, es: seq<PlaneEvent>)
    requires Inv(s) && s.lives >= 0
    ensures Inv(ApplyAll(s, h, es))
    ensures 0 <= ApplyAll(s, h, es).lives <= s.lives
    ensures ApplyAll(s, h, es).alive ==> s.alive
    ensures ApplyAll(s, h, es).kind == s.kind
    ensures ApplyAll(s, h, es).spawnImmunityCount <= s.spawnImmunityCount
    decreases |es|
  {
    if |es| > 0 {
      var before := ApplyAll(s, h, es[..|es| - 1]);
      EventsKeepInvariant(s, h, es[..|es| - 1]);
      match es[|es| - 1]
      case UpdateEvent(px, py, ps) =>
        UpdateKeepsInvariant(before, h, px, py, ps);
      case _ =>
    }
  }

  /**
   * A dead plane stays where it is: no event moves it, revives it or gives it
   * lives back (only `moveAI` still turns it).
   */
  lemma {:induction false} DeadPlaneFrozen(s: PlaneState, h: Host, es: seq<PlaneEvent>)
    requires !s.alive && s.lives == 0
    ensures !ApplyAll(s, h, es).alive && ApplyAll(s, h, es).lives == 0
    ensures ApplyAll(s, h, es).x == s.x && ApplyAll(s, h, es).y == s.y
    decreases |es|
  {
    if |es| > 0 {
      DeadPlaneFrozen(s, h, es[..|es| - 1]);
    }
  }

  /*************************************************************************
   * Levels and spawning
   *************************************************************************/

  /** A JavaScript value that may be `null`. */
  datatype Option<T> = None | Some(value: T) {
    /** `this ?? default`. */
    function OrElse(default: T): (r: T)
      ensures Some? ==> r == value
      ensures None? ==> r == default
    {
      match this
      case Some(v) => v
      case None => default
    }
  }

  /** `Level`: how many enemies to spawn and the stats to give them (`null`: keep the spawned value). */
  datatype Level = Level(
    numEnemies: nat,
    enemyShootChance: Option<real>,
    enemySpeed: Option<real>,
    enemyTurnSpeed: Option<real>,
    enemyLives: Option<int>,
    projectileSpeed: Option<real>)

  /** `levels`, in order. */
  const Levels: seq<Level> := [
    Level(1, Some(0.005), Some(0.5), Some(0.01), Some(1), None),
    Level(2, Some(0.01), Some(2.0), Some(0.0), Some(1), None),
    Level(2, Some(0.01), Some(0.6), Some(0.03), Some(1), None),
    Level(30, Some(0.001), Some(0.2), Some(0.01), Some(1), None),
    Level(1, Some(0.05), Some(1.0), Some(0.01), Some(10), None),
    Level(1, Some(1.0), Some(0.5), Some(0.02), Some(10), Some(0.5)),
    Level(5, Some(0.01), Some(1.0), Some(0.03), Some(1), None),
    Level(3, Some(1.0), Some(0.5), Some(0.01), Some(10), Some(0.5)),
    Level(1, Some(0.5), Some(3.0), Some(0.0), Some(8), None),
    Level(10, Some(0.5), Some(3.0), Some(0.0), Some(1), None)
  ]

  /** Every level of the table sets at least one life, and every stat of it is set except possibly the projectile speed. */
  lemma LevelsSetLives()
    ensures |Levels| == 10
    ensures forall i :: 0 <= i < |Levels| ==> Levels[i].enemyLives.Some? && Levels[i].enemyLives.value >= 1
    ensures forall i :: 0 <= i < |Levels| ==>
      Levels[i].enemySpeed.Some? && Levels[i].enemyShootChance.Some? && Levels[i].enemyTurnSpeed.Some?
  {
  }

  /** The five `??` assignments of `Level.begin()` for one spawned enemy. */
  function Override(l: Level, s: PlaneState): (r: PlaneState)
    ensures r.speed == l.enemySpeed.OrElse(s.speed)
    ensures r.shootChance == l.enemyShootChance.OrElse(s.shootChance)
    ensures r.turnSpeed == l.enemyTurnSpeed.OrElse(s.turnSpeed)
    ensures r.lives == l.enemyLives.OrElse(s.lives)
    ensures r.projectileSpeed == l.projectileSpeed.OrElse(s.projectileSpeed)
    ensures r.(speed := s.speed, shootChance := s.shootChance, turnSpeed := s.turnSpeed,
               lives := s.lives, projectileSpeed := s.projectileSpeed) == s
  {
    s.(speed := l.enemySpeed.OrElse(s.speed),
       shootChance := l.enemyShootChance.OrElse(s.shootChance),
       turnSpeed := l.enemyTurnSpeed.OrElse(s.turnSpeed),
       lives := l.enemyLives.OrElse(s.lives),
       projectileSpeed := l.projectileSpeed.OrElse(s.projectileSpeed))
  }

  /** The four `Math.random()` results `spawnEnemy()` draws, in the order it draws them. */
  datatype SpawnRoll = SpawnRoll(side: real, along: real, speedRoll: real, turnRoll: real)

  /** `spawnEnemy()`'s position: just outside the edge `floor(4 * side)` picks. */
  function SpawnPosition(h: Host, roll: SpawnRoll): (real, real) {
    var sideIndex := (roll.side * 4.0).Floor;
    var sz := SizePx(h);
    if sideIndex == 0 then (roll.along * h.width, -sz)
    else if sideIndex == 1 then (roll.along * h.width, h.height + sz)
    else if sideIndex == 2 then (-sz, roll.along * h.height)
    else if sideIndex == 3 then (h.width + sz, roll.along * h.height)
    else (0.0, 0.0)
  }

  /**
   * The enemy `spawnEnemy()` creates, before any level override: a fresh
   * enemy with scaled-down speed and turn rate, placed off the canvas and
   * headed at the player at `(px, py)`.
   */
  function Spawned(h: Host, roll: SpawnRoll, px: real, py: real): (r: PlaneState)
    ensures r.alive && r.kind == Enemy && Inv(r) && r.lives == 10
    ensures r.spawnImmunityCount == 200 && r.shootCooldown == 200 && r.shootCount == 0
    ensures 0.0 <= roll.speedRoll < 1.0 ==> 0.4 <= r.speed < 0.8
    ensures 0.0 <= roll.turnRoll < 1.0 ==> 0.015 <= r.turnSpeed < 0.04
    ensures 0.0 <= roll.side < 1.0 && h.width > 0.0 && h.height > 0.0 ==> OutsideCanvas(h, r.x, r.y)
  {
    var e := NewPlane(Enemy);
    var (x, y) := SpawnPosition(h, roll);
    e.(x := x, y := y,
       speed := e.speed * (roll.speedRoll * 0.5 + 0.5),
       turnSpeed := e.turnSpeed * (roll.turnRoll * 0.5 + 0.3),
       rotation := h.atan2(y - py, x - px) + Pi)
  }

  /**
   * Every enemy a level of the table spawns starts alive, keeping `Inv`,
   * with the level's own lives (at least one), speed, shoot chance and turn
   * speed in place of the spawned defaults.
   */
  lemma LevelEnemiesStartAlive(i: nat, h: Host, roll: SpawnRoll, px: real, py: real)
    requires i < |Levels|
    ensures var e := Override(Levels[i], Spawned(h, roll, px, py));
      && e.alive && e.kind == Enemy && Inv(e)
      && Levels[i].enemyLives == Some(e.lives) && e.lives >= 1
      && Levels[i].enemySpeed == Some(e.speed)
      && Levels[i].enemyShootChance == Some(e.shootChance)
      && Levels[i].enemyTurnSpeed == Some(e.turnSpeed)
  {
    LevelsSetLives();
  }

  /** The level-advance rule of `loop()`: with no enemies left and levels to go, move on by one. */
  function NextLevelIndex(levelIndex: int, enemiesLeft: nat): (r: int)
    ensures r == levelIndex || (r == levelIndex + 1 && levelIndex < |Levels|)
    ensures r == levelIndex + 1 <==> enemiesLeft == 0 && levelIndex < |Levels|
  {
    if enemiesLeft == 0 && levelIndex < |Levels| then levelIndex + 1 else levelIndex
  }

  /** The level indices over successive frames, one live-enemy count per frame. */
  function LevelIndexAfter(levelIndex: int, counts: seq<nat>): int
    decreases |counts|
  {
    if |counts| == 0 then levelIndex
    else NextLevelIndex(LevelIndexAfter(levelIndex, counts[..|counts| - 1]), counts[|counts| - 1])
  }

  /**
   * From the start index -1 the level index never leaves `[-1, |levels|]`
   * and never goes down, whatever the frames bring; and once it equals the
   * table's length (the game is won) it stays there.
   */
  lemma {:induction false} LevelIndexInRange(levelIndex: int, counts: seq<nat>)
    requires -1 <= levelIndex <= |Levels|
    ensures levelIndex <= LevelIndexAfter(levelIndex, counts) <= |Levels|
    ensures levelIndex == |Levels| ==> LevelIndexAfter(levelIndex, counts) == |Levels|
    decreases |counts|
  {
    if |counts| > 0 {
      LevelIndexInRange(levelIndex, counts[..|counts| - 1]);
    }
  }

  /** From the start, every frame that finds no enemies moves the index on by one until the game is won. */
  lemma {:induction false} ClearedFramesAdvance(levelIndex: int, n: nat)
    requires -1 <= levelIndex && levelIndex + n <= |Levels|
    ensures LevelIndexAfter(levelIndex, seq(n, _ => 0)) == levelIndex + n
    decreases n
  {
    if n > 0 {
      assert seq(n, _ => 0)[..n - 1] == seq(n - 1, _ => 0);
      ClearedFramesAdvance(levelIndex, n - 1);
    }
  }

  /*************************************************************************
   * Pruning with `filter`
   *************************************************************************/

  /** `s.filter(...)`, given what the callback said for each element. */
  function Select<T>(s: seq<T>, keep: seq<bool>): (r: seq<T>)
    requires |keep| == |s|
    ensures |r| <= |s|
    ensures forall x :: x in r ==> x in s
    decreases |s|
  {
    if |s| == 0 then []
    else Select(s[..|s| - 1], keep[..|s| - 1]) + if keep[|s| - 1] then [s[|s| - 1]] else []
  }

  /** No element occurs twice. */
  ghost predicate Distinct<T>(s: seq<T>) {
    forall i, j :: 0 <= i < j < |s| ==> s[i] != s[j]
  }

  /** Appending a new element keeps a sequence free of repeats. */
  lemma DistinctAppend<T>(s: seq<T>, x: T)
    requires Distinct(s) && x !in s
    ensures Distinct(s + [x])
  {
  }

  /** An element survives the filter exactly when some occurrence of it is kept. */
  lemma {:induction false} SelectMembers<T>(s: seq<T>, keep: seq<bool>, x: T)
    requires |keep| == |s|
    ensures x in Select(s, keep) <==> exists i :: 0 <= i < |s| && s[i] == x && keep[i]
    decreases |s|
  {
    if |s| > 0 {
      var n := |s| - 1;
      SelectMembers(s[..n], keep[..n], x);
      if x in Select(s[..n], keep[..n]) {
        var i :| 0 <= i < n && s[..n][i] == x && keep[..n][i];
        assert s[i] == x && keep[i];
      }
      if exists i :: 0 <= i < |s| && s[i] == x && keep[i] {
        var i :| 0 <= i < |s| && s[i] == x && keep[i];
        if i < n {
          assert s[..n][i] == x && keep[..n][i];
        }
      }
    }
  }

  /** Filtering never makes two entries the same object. */
  lemma {:induction false} SelectDistinct<T>(s: seq<T>, keep: seq<bool>)
    requires |keep| == |s| && Distinct(s)
    ensures Distinct(Select(s, keep))
    decreases |s|
  {
    if |s| > 0 {
      var n := |s| - 1;
      assert Distinct(s[..n]);
      SelectDistinct(s[..n], keep[..n]);
      assert s[n] !in s[..n];
    }
  }

  /** Filtering a concatenation filters each part and keeps them in order. */
  lemma {:induction false} SelectConcat<T>(a: seq<T>, ka: seq<bool>, b: seq<T>, kb: seq<bool>)
    requires |ka| == |a| && |kb| == |b|
    ensures Select(a + b, ka + kb) == Select(a, ka) + Select(b, kb)
    decreases |b|
  {
    if |b| > 0 {
      var n := |b| - 1;
      assert (a + b)[..|a + b| - 1] == a + b[..n];
      assert (ka + kb)[..|a + b| - 1] == ka + kb[..n];
      SelectConcat(a, ka, b[..n], kb[..n]);
    } else {
      assert a + b == a && ka + kb == ka;
    }
  }

  /**
   * Filtering keeps the order: what survives of the first `i` entries is a
   * prefix of what survives of all of them.
   */
  lemma SelectPrefix<T>(s: seq<T>, keep: seq<bool>, i: nat)
    requires |keep| == |s| && i <= |s|
    ensures Select(s[..i], keep[..i]) <= Select(s, keep)
  {
    assert s[..i] + s[i..] == s;
    assert keep[..i] + keep[i..] == keep;
    SelectConcat(s[..i], keep[..i], s[i..], keep[i..]);
  }

  /** Filtering with every flag set keeps the sequence as it is. */
  lemma {:induction false} SelectAll<T>(s: seq<T>, keep: seq<bool>)
    requires |keep| == |s| && forall i :: 0 <= i < |keep| ==> keep[i]
    ensures Select(s, keep) == s
    decreases |s|
  {
    if |s| > 0 {
      SelectAll(s[..|s| - 1], keep[..|s| - 1]);
    }
  }
}
