/**
 * The objects of `js/main.js` and the module-level state around them:
 * `Projectile` and `Plane` as classes whose methods update their fields in
 * place, and `Game` holding the globals `playerPlane`, `projectiles`,
 * `enemies`, `gameStarted` and `levelIndex`. Every method that models one
 * method or one loop of the source is proved to change the fields exactly as
 * the matching function of module Rules says; the methods that chain several
 * steps of `loop()` compose those contracts.
 */
module World {
  import opened Geometry
  import opened Rules

  /** The fields of every projectile in `ps`, in order. */
  ghost function Snap(ps: seq<Projectile>): (r: seq<ProjectileState>)
    reads ps
    ensures |r| == |ps|
    decreases |ps|
  {
    if |ps| == 0 then [] else Snap(ps[..|ps| - 1]) + [ps[|ps| - 1].State()]
  }

  /** The fields of every plane in `es`, in order. */
  ghost function States(es: seq<Plane>): (r: seq<PlaneState>)
    reads es
    ensures |r| == |es|
    decreases |es|
  {
    if |es| == 0 then [] else States(es[..|es| - 1]) + [es[|es| - 1].State()]
  }

  /** The `i`-th entry of `Snap(ps)` is the fields of `ps[i]`. */
  lemma {:induction false} SnapIndex(ps: seq<Projectile>)
    ensures forall i :: 0 <= i < |ps| ==> Snap(ps)[i] == ps[i].State()
    decreases |ps|
  {
    if |ps| > 0 {
      SnapIndex(ps[..|ps| - 1]);
    }
  }

  /** The `i`-th entry of `States(es)` is the fields of `es[i]`. */
  lemma {:induction false} StatesIndex(es: seq<Plane>)
    ensures forall i :: 0 <= i < |es| ==> States(es)[i] == es[i].State()
    decreases |es|
  {
    if |es| > 0 {
      StatesIndex(es[..|es| - 1]);
    }
  }

  /**
   * The planes of `es` before index `i` have the fields `done` gives them,
   * the others still those of `before`.
   */
  ghost predicate TurnsTaken(es: seq<Plane>, i: nat, done: seq<PlaneState>, before: seq<PlaneState>)
    reads es
  {
    && i <= |es| && |done| == i && |before| == |es|
    && (forall j :: 0 <= j < i ==> es[j].State() == done[j])
    && (forall j :: i <= j < |es| ==> es[j].State() == before[j])
  }

  /**
   * The projectiles of `ps` before index `i` have the fields `done` gives
   * them, the others still those of `before`.
   */
  ghost predicate Passed(ps: seq<Projectile>, i: nat, done: seq<ProjectileState>, before: seq<ProjectileState>)
    reads ps
  {
    && i <= |ps| && |done| == i && |before| == |ps|
    && (forall j :: 0 <= j < i ==> ps[j].State() == done[j])
    && (forall j :: i <= j < |ps| ==> ps[j].State() == before[j])
  }

  /** No plane of `es` is dead with lives left. */
  ghost predicate AllInv(es: seq<Plane>)
    reads es
  {
    forall e :: e in es ==> !e.alive ==> e.lives == 0
  }

  /** `AllInv` of the planes gives `Inv` of each of their fields ... */
  lemma AllInvStates(es: seq<Plane>)
    requires AllInv(es)
    ensures forall j :: 0 <= j < |es| ==> Inv(States(es)[j])
  {
    StatesIndex(es);
    forall j | 0 <= j < |es|
      ensures Inv(States(es)[j])
    {
      assert es[j] in es;
    }
  }

  /** ... and back. */
  lemma StatesAllInv(es: seq<Plane>)
    requires forall j :: 0 <= j < |es| ==> Inv(States(es)[j])
    ensures AllInv(es)
  {
    StatesIndex(es);
    forall e | e in es
      ensures !e.alive ==> e.lives == 0
    {
      var j :| 0 <= j < |es| && es[j] == e;
      assert Inv(States(es)[j]);
    }
  }

  /** `after` is `before` with one new projectile pushed on the end. */
  twostate predicate Appended(before: seq<Projectile>, new after: seq<Projectile>) {
    && |after| == |before| + 1
    && after == before + [after[|before|]]
    && fresh(after[|before|])
  }

  /** Pushing a new projectile keeps `projectiles` free of repeats. */
  twostate lemma AppendedDistinct(before: seq<Projectile>, new after: seq<Projectile>)
    requires Distinct(before) && Appended(before, after)
    ensures Distinct(after)
  {
    assert after[|before|] !in before;
    DistinctAppend(before, after[|before|]);
  }

  /** Appending a projectile appends its fields. */
  lemma SnapAppend(ps: seq<Projectile>, p: Projectile)
    ensures Snap(ps + [p]) == Snap(ps) + [p.State()]
  {
    assert (ps + [p])[..|ps|] == ps;
  }

  /** `p.alive` for every projectile, the callback of `projectiles.filter(p => p.alive)`. */
  function ProjectileFlags(ps: seq<Projectile>): (r: seq<bool>)
    reads ps
    ensures |r| == |ps|
    ensures forall i :: 0 <= i < |ps| ==> r[i] == ps[i].alive
    decreases |ps|
  {
    if |ps| == 0 then [] else ProjectileFlags(ps[..|ps| - 1]) + [ps[|ps| - 1].alive]
  }

  /** `e.alive` for every plane, the callback of `enemies.filter(e => e.alive)`. */
  function PlaneFlags(es: seq<Plane>): (r: seq<bool>)
    reads es
    ensures |r| == |es|
    ensures forall i :: 0 <= i < |es| ==> r[i] == es[i].alive
    decreases |es|
  {
    if |es| == 0 then [] else PlaneFlags(es[..|es| - 1]) + [es[|es| - 1].alive]
  }

  /** `after` holds exactly the live projectiles of `before`. */
  ghost predicate LiveProjectiles(after: seq<Projectile>, before: seq<Projectile>)
    reads before
  {
    && (forall p :: p in after ==> p in before && p.alive)
    && (forall p :: p in before && p.alive ==> p in after)
  }

  /** `after` holds exactly the live planes of `before`. */
  ghost predicate LivePlanes(after: seq<Plane>, before: seq<Plane>)
    reads before
  {
    && (forall e :: e in after ==> e in before && e.alive)
    && (forall e :: e in before && e.alive ==> e in after)
  }

  /** No plane of `es` is alive. */
  ghost predicate NoneAlive(es: seq<Plane>)
    reads es
  {
    forall e :: e in es ==> !e.alive
  }

  /** `projectiles.filter(p => p.alive)` keeps exactly the live projectiles, without repeats. */
  lemma FilterProjectiles(ps: seq<Projectile>)
    requires Distinct(ps)
    ensures Distinct(Select(ps, ProjectileFlags(ps)))
    ensures LiveProjectiles(Select(ps, ProjectileFlags(ps)), ps)
  {
    var keep := ProjectileFlags(ps);
    SelectDistinct(ps, keep);
    forall p | true
      ensures p in Select(ps, keep) <==> p in ps && p.alive
    {
      SelectMembers(ps, keep, p);
    }
  }

  /** `enemies.filter(e => e.alive)` keeps exactly the live planes, without repeats. */
  lemma FilterPlanes(es: seq<Plane>)
    requires Distinct(es)
    ensures Distinct(Select(es, PlaneFlags(es)))
    ensures LivePlanes(Select(es, PlaneFlags(es)), es)
    ensures AllInv(Select(es, PlaneFlags(es)))
    ensures |Select(es, PlaneFlags(es))| == 0 <==> NoneAlive(es)
  {
    var keep := PlaneFlags(es);
    SelectDistinct(es, keep);
    forall e | true
      ensures e in Select(es, keep) <==> e in es && e.alive
    {
      SelectMembers(es, keep, e);
    }
    if |Select(es, keep)| > 0 {
      assert Select(es, keep)[0] in Select(es, keep);
    }
  }

  class Projectile {
    var x: real
    var y: real
    const rotation: real
    const speed: real
    const kind: PlaneType
    var alive: bool

    function State(): ProjectileState
      reads this
    {
      ProjectileState(x, y, rotation, speed, kind, alive)
    }

    /** `new Projectile(x, y, rotation, type, speed)`. */
    constructor (x: real, y: real, rotation: real, kind: PlaneType, speed: real)
      ensures State() == ProjectileState(x, y, rotation, speed, kind, true)
    {
      this.x := x;
      this.y := y;
      this.rotation := rotation;
      this.speed := speed;
      this.kind := kind;
      this.alive := true;
    }

    /** `die()`. */
    method Die()
      modifies this
      ensures State() == Kill(old(State()))
    {
      alive := false;
    }

    /** `update()`. */
    method Update(h: Host)
      modifies this
      ensures State() == ProjectileUpdate(old(State()), h)
    {
      var (newX, newY) := UpdatePosition(h, x, y, rotation, speed);
      x := newX;
      y := newY;
      var m := ProjectileSizePx(h);
      if x < -m || y < -m || x > h.width + m || y > h.height + m {
        Die();
      }
    }
  }

  class Plane {
    var x: real
    var y: real
    var rotation: real
    const kind: PlaneType
    var speed: real
    var turnSpeed: real
    var projectileSpeed: real
    var alive: bool
    var aiTurnSpeed: real
    var aiMoveCount: nat
    var shootCooldown: nat
    var shootCount: nat
    var shootChance: real
    var spawnImmunityCount: nat
    var lives: int

    function State(): PlaneState
      reads this
    {
      PlaneState(x, y, rotation, kind, speed, turnSpeed, projectileSpeed, alive,
                 aiTurnSpeed, aiMoveCount, shootCooldown, shootCount, shootChance,
                 spawnImmunityCount, lives)
    }

    /** `new Plane(type)`. */
    constructor (kind: PlaneType)
      ensures State() == NewPlane(kind)
    {
      x, y, rotation := 0.0, 0.0, 0.0;
      this.kind := kind;
      speed, turnSpeed, projectileSpeed := 0.8, 0.05, 2.0;
      alive := true;
      aiTurnSpeed, aiMoveCount := 0.0, 0;
      shootCooldown, shootCount, shootChance := 200, 0, 0.05;
      spawnImmunityCount := 200;
      lives := 10;
    }

    /** `setPosition(x, y)`. */
    method SetPosition(x: real, y: real)
      modifies this
      ensures State() == old(State()).(x := x, y := y)
    {
      this.x := x;
      this.y := y;
    }

    /** `die()`; its sounds are not modelled. */
    method Die()
      modifies this
      ensures State() == Rules.Die(old(State()))
    {
      alive := false;
    }

    /** `hit()`; its sound is not modelled. */
    method Hit()
      modifies this
      ensures State() == Rules.Hit(old(State()))
    {
      if lives > 1 {
        lives := lives - 1;
      } else {
        lives := 0;
        Die();
      }
    }

    /** `turnLeft()`. */
    method TurnLeft()
      modifies this
      ensures State() == Rules.TurnLeft(old(State()))
    {
      if !alive {
        return;
      }
      rotation := rotation - turnSpeed;
    }

    /** `turnRight()`. */
    method TurnRight()
      modifies this
      ensures State() == Rules.TurnRight(old(State()))
    {
      if !alive {
        return;
      }
      rotation := rotation + turnSpeed;
    }

    /** The arrow-key part of `handleInputs()`: left wins over right. */
    method SteerByKeys(left: bool, right: bool)
      modifies this
      ensures State() == Rules.SteerByKeys(old(State()), left, right)
    {
      if left {
        TurnLeft();
      } else if right {
        TurnRight();
      }
    }

    /**
     * The in-game branch of `handleInputs()` on this plane: steer by the
     * arrow keys; on the space bar, ask for a reload when the plane is
     * dead, then shoot.
     */
    method Controls(game: Game, h: Host, left: bool, right: bool, fire: bool) returns (reload: bool)
      modifies this, game`projectiles
      ensures (State(), Snap(game.projectiles))
           == Rules.Controls(old(State()), h, left, right, fire, old(Snap(game.projectiles)))
      ensures reload <==> fire && !old(alive)
      ensures game.projectiles == old(game.projectiles) || Appended(old(game.projectiles), game.projectiles)
    {
      ghost var snap := Snap(game.projectiles);
      SteerByKeys(left, right);
      assert Snap(game.projectiles) == snap;
      reload := false;
      if fire {
        reload := !alive;
        Shoot(game, h);
      }
    }

    /**
     * `shoot()`: on a live plane with no cooldown, push one new projectile
     * onto `projectiles` and start the cooldown; otherwise do nothing.
     */
    method Shoot(game: Game, h: Host)
      modifies this, game`projectiles
      ensures (State(), Snap(game.projectiles))
           == Rules.Shoot(old(State()), h, old(Snap(game.projectiles)))
      ensures !CanShoot(old(State())) ==> game.projectiles == old(game.projectiles)
      ensures CanShoot(old(State())) ==> Appended(old(game.projectiles), game.projectiles)
    {
      if !alive {
        return;
      }
      if shootCooldown != 0 {
        return;
      }
      ghost var start := State();
      ghost var snap := Snap(game.projectiles);
      var (ox, oy) := ProjectileOffset(State(), h);
      var p := new Projectile(x + ox, y + oy, rotation, kind, speed + projectileSpeed);
      assert p.State() == Fired(start, h);
      SnapAppend(game.projectiles, p);
      ghost var shot := snap + [p.State()];
      game.projectiles := game.projectiles + [p];
      assert Snap(game.projectiles) == shot;
      shootCooldown := ShootCooldownMax;
      shootCount := shootCount + 1;
    }

    /**
     * `update()`: nothing on a dead plane; otherwise count down, turn back at
     * the edges, step, and run the collision pass over `projectiles`.
     */
    method Update(game: Game, h: Host)
      requires Distinct(game.projectiles)
      modifies this, set p | p in game.projectiles
      ensures (State(), Snap(game.projectiles))
           == PlaneUpdate(old(State()), h, old(game.player.x), old(game.player.y), old(Snap(game.projectiles)))
    {
      if !alive {
        return;
      }
      var px, py := game.player.x, game.player.y;
      ghost var before := Snap(game.projectiles);
      Move(h, px, py);
      assert Snap(game.projectiles) == before;
      CollidePass(game.projectiles, h);
    }

    /**
     * `update()` up to the collision pass: count down immunity and cooldown,
     * turn back at the canvas edge (towards the player at `(px, py)` for an
     * enemy), and take one step.
     */
    method Move(h: Host, px: real, py: real)
      modifies this
      ensures State() == Advance(old(State()), h, px, py)
    {
      ghost var start := State();
      if spawnImmunityCount > 0 {
        spawnImmunityCount := spawnImmunityCount - 1;
      }
      if OutsideCanvas(h, x, y) {
        if kind == Player {
          rotation := rotation + Pi;
        } else {
          rotation := h.atan2(y - py, x - px) + Pi;
        }
      }
      assert rotation == Heading(start, h, px, py);
      if shootCooldown > 0 {
        shootCooldown := shootCooldown - 1;
      }
      var (newX, newY) := UpdatePosition(h, x, y, rotation, speed);
      x := newX;
      y := newY;
    }

    /**
     * The collision loop of `update()` over `projectiles`: every live projectile of
     * the other side strictly inside the hitbox of a plane that is not
     * spawn-immune costs the plane a life and dies.
     */
    method CollidePass(ps: seq<Projectile>, h: Host)
      requires Distinct(ps)
      modifies this, set p | p in ps
      ensures (State(), Snap(ps)) == Collide(old(State()), h, old(Snap(ps)))
    {
      ghost var before := Snap(ps);
      SnapIndex(ps);
      // the plane and the projectiles so far, as `Collide` has them
      ghost var done: seq<ProjectileState> := [];
      for i := 0 to |ps|
        invariant (State(), done) == Collide(old(State()), h, before[..i])
        invariant Passed(ps, i, done, before)
      {
        assert before[..i + 1][..i] == before[..i];
        CollideAt(ps, i, h, done, before);
        done := done + [ps[i].State()];
      }
      assert before[..|ps|] == before;
      SnapIndex(ps);
      assert Snap(ps) == done;
    }

    /** Turn `i` of the collision loop over `ps`: only this plane and `ps[i]` change. */
    method CollideAt(ps: seq<Projectile>, i: nat, h: Host, ghost done: seq<ProjectileState>, ghost before: seq<ProjectileState>)
      requires i < |ps| && Distinct(ps) && Passed(ps, i, done, before)
      modifies this, ps[i]
      ensures Passed(ps, i + 1, done + [ps[i].State()], before)
      ensures (State(), ps[i].State()) == CollideOne(old(State()), h, before[i])
    {
      CollideWith(ps[i], h);
      assert forall j :: 0 <= j < |ps| && j != i ==> ps[j].State() == old(ps[j].State());
    }

    /**
     * One turn of the collision loop of `update()`: skip dead
     * projectiles, projectiles of the own side, and all of them while
     * spawn-immune; otherwise a hit costs a life and kills the projectile.
     */
    method CollideWith(p: Projectile, h: Host)
      modifies this, p
      ensures (State(), p.State()) == CollideOne(old(State()), h, old(p.State()))
    {
      if !p.alive || p.kind == kind || spawnImmunityCount > 0 {
        return;
      }
      if Rules.HitTest(State(), h, p.x, p.y) {
        Hit();
        p.Die();
      }
    }

    /**
     * The decision loop of `moveAI()`: score the three candidate biases and
     * keep the first of least score (`lowestScore` starts at `Infinity`,
     * here `None`).
     */
    method BestMove(h: Host, px: real, py: real) returns (bestMove: real, bestMoveIndex: nat)
      ensures IsFirstMin(Scores(State(), h, px, py), bestMoveIndex)
      ensures bestMoveIndex < 3 && bestMove == Candidates(State())[bestMoveIndex]
    {
      var possibleMoves := [-turnSpeed, 0.0, turnSpeed];
      ghost var scores := Scores(State(), h, px, py);
      bestMove := 0.0;
      bestMoveIndex := 1;
      var lowestScore: Option<real> := None;
      for i := 0 to |possibleMoves|
        invariant i == 0 <==> lowestScore.None?
        invariant i > 0 ==> bestMoveIndex < i && IsFirstMin(scores[..i], bestMoveIndex)
        invariant i > 0 ==> lowestScore == Some(scores[bestMoveIndex])
        invariant i > 0 ==> bestMove == possibleMoves[bestMoveIndex]
      {
        var option := possibleMoves[i];
        // one step with heading `rotation + option`, then the distance to the player
        var distance := Score(State(), h, px, py, option);
        if lowestScore.None? || distance < lowestScore.value {
          lowestScore := Some(distance);
          bestMove := option;
          bestMoveIndex := i;
        }
      }
      assert scores[..3] == scores;
    }

    /** The five `??` assignments `Level.begin()` makes to each enemy it spawns. */
    method TakeLevelStats(level: Level)
      modifies this
      ensures State() == Override(level, old(State()))
    {
      speed := level.enemySpeed.OrElse(speed);
      shootChance := level.enemyShootChance.OrElse(shootChance);
      turnSpeed := level.enemyTurnSpeed.OrElse(turnSpeed);
      lives := level.enemyLives.OrElse(lives);
      projectileSpeed := level.projectileSpeed.OrElse(projectileSpeed);
    }

    /**
     * `moveAI()` after its shoot roll: turn by the held bias and, every
     * `aiMoveInterval`-th call, choose a new one towards `(px, py)`.
     */
    method Steer(h: Host, px: real, py: real)
      modifies this
      ensures State() == Rules.Steer(old(State()), h, px, py)
    {
      rotation := rotation + aiTurnSpeed;
      aiMoveCount := aiMoveCount + 1;
      ghost var turned := State();
      assert turned == Turned(old(State()));
      if aiMoveCount % AiMoveInterval != 0 {
        return;
      }
      Decide(h, px, py);
    }

    /** The decision call of `moveAI()`: the bias becomes the first candidate of least score. */
    method Decide(h: Host, px: real, py: real)
      modifies this
      ensures State() == old(State()).(aiTurnSpeed := Candidates(old(State()))[FirstMin(Scores(old(State()), h, px, py))])
    {
      var bestMove, bestMoveIndex := BestMove(h, px, py);
      FirstMinUnique(Scores(State(), h, px, py), bestMoveIndex);
      aiTurnSpeed := bestMove;
    }

    /** `moveAI()`: shoot when the roll is below `shootChance`, then steer. */
    method MoveAI(game: Game, h: Host, shootRoll: real)
      modifies this, game`projectiles
      ensures (State(), Snap(game.projectiles))
           == Rules.MoveAI(old(State()), h, old(game.player.x), old(game.player.y), shootRoll, old(Snap(game.projectiles)))
      ensures game.projectiles == old(game.projectiles) || Appended(old(game.projectiles), game.projectiles)
    {
      ghost var start, snap := State(), Snap(game.projectiles);
      var px, py := game.player.x, game.player.y;
      if shootRoll < shootChance {
        Shoot(game, h);
      }
      ghost var shot := (State(), Snap(game.projectiles));
      assert shot == if shootRoll < start.shootChance then Rules.Shoot(start, h, snap) else (start, snap);
      Steer(h, px, py);
      assert Snap(game.projectiles) == shot.1;
    }
  }

  /** What `loop()` shows: the title, the lost or won message, or the level number. */
  datatype Mode = Title | Lost | Won | Playing(level: int)

  /** The module-level state of the game. */
  class Game {
    var player: Plane
    var projectiles: seq<Projectile>
    var enemies: seq<Plane>
    var gameStarted: bool
    var levelIndex: int

    /**
     * The index stays in `[-1, levels.length]`, no projectile is listed
     * twice, the player is not an enemy, and no plane is dead with lives left.
     */
    ghost predicate Valid()
      reads this, player, set e | e in enemies
    {
      && -1 <= levelIndex <= |Levels|
      && Distinct(projectiles)
      && Distinct(enemies)
      && player !in enemies
      && Inv(player.State()) && player.lives >= 0
      && AllInv(enemies)
    }

    /** The state the script starts in. */
    constructor ()
      ensures Valid() && !gameStarted && levelIndex == -1
      ensures player.State() == NewPlane(Player) && projectiles == [] && enemies == []
    {
      player := new Plane(Player);
      projectiles := [];
      enemies := [];
      gameStarted := false;
      levelIndex := -1;
    }

    /** The status `loop()` draws. */
    function Status(): (m: Mode)
      reads this, player
      ensures m == Won <==> gameStarted && player.alive && levelIndex == |Levels|
      ensures m == Lost <==> gameStarted && !player.alive
    {
      if !gameStarted then Title
      else if !player.alive then Lost
      else if levelIndex == |Levels| then Won
      else Playing(levelIndex + 1)
    }

    /** `startGame()`: a fresh player, no enemies or projectiles, level index -1. */
    method StartGame(h: Host, rotationRoll: real)
      modifies this
      ensures Valid() && gameStarted && levelIndex == -1
      ensures fresh(player) && player.State() == StartingPlayer(h, rotationRoll)
      ensures enemies == [] && projectiles == []
    {
      levelIndex := -1;
      gameStarted := true;
      player := NewStartingPlayer(h, rotationRoll);
      enemies := [];
      projectiles := [];
    }

    /** The player `startGame()` builds: centred, turned by the roll, vulnerable and ready to shoot. */
    static method NewStartingPlayer(h: Host, rotationRoll: real) returns (plane: Plane)
      ensures fresh(plane) && plane.State() == StartingPlayer(h, rotationRoll)
    {
      plane := new Plane(Player);
      plane.SetPosition(h.width / 2.0, h.height / 2.0);
      plane.rotation := Pi * 2.0 * rotationRoll;
      plane.spawnImmunityCount := 0;
      plane.shootCooldown := 0;
      plane.lives := 10;
    }

    /** `spawnEnemy()`: create an enemy off one edge of the canvas and push it onto `enemies`. */
    method SpawnEnemy(h: Host, roll: SpawnRoll) returns (enemy: Plane)
      requires Valid()
      modifies this`enemies
      ensures Valid()
      ensures fresh(enemy) && enemies == old(enemies) + [enemy]
      ensures enemy.State() == Spawned(h, roll, player.x, player.y)
    {
      var px, py := player.x, player.y;
      enemy := new Plane(Enemy);
      // the side `floor(4 * roll.side)` and the place along it
      var (x, y) := SpawnPosition(h, roll);
      enemy.SetPosition(x, y);
      enemy.speed := enemy.speed * (roll.speedRoll * 0.5 + 0.5);
      enemy.turnSpeed := enemy.turnSpeed * (roll.turnRoll * 0.5 + 0.3);
      enemy.rotation := h.atan2(enemy.y - py, enemy.x - px) + Pi;
      assert enemy.State() == Spawned(h, roll, px, py);
      DistinctAppend(enemies, enemy);
      enemies := enemies + [enemy];
    }

    /**
     * `Level.begin()`: spawn `numEnemies` enemies, the `i`-th with roll
     * `rolls(i)`, and give each the level's stats where the level sets them.
     */
    method BeginLevel(level: Level, h: Host, rolls: nat -> SpawnRoll)
      requires Valid()
      modifies this`enemies
      ensures Valid()
      ensures |enemies| == |old(enemies)| + level.numEnemies
      ensures enemies[..|old(enemies)|] == old(enemies)
      ensures forall i :: |old(enemies)| <= i < |enemies| ==>
        && fresh(enemies[i])
        && enemies[i].State() == Override(level, Spawned(h, rolls(i - |old(enemies)|), player.x, player.y))
    {
      for i := 0 to level.numEnemies
        invariant Valid()
        invariant |enemies| == |old(enemies)| + i
        invariant enemies[..|old(enemies)|] == old(enemies)
        invariant forall j :: |old(enemies)| <= j < |enemies| ==>
          && fresh(enemies[j])
          && enemies[j].State() == Override(level, Spawned(h, rolls(j - |old(enemies)|), player.x, player.y))
      {
        var enemy := SpawnEnemy(h, rolls(i));
        enemy.TakeLevelStats(level);
      }
    }

    /**
     * The in-game branch of `handleInputs()`: the player's controls, on a
     * valid game.
     */
    method PlayerControls(h: Host, left: bool, right: bool, fire: bool) returns (reload: bool)
      requires Valid()
      modifies player, this`projectiles
      ensures Valid()
      ensures (player.State(), Snap(projectiles))
           == Controls(old(player.State()), h, left, right, fire, old(Snap(projectiles)))
      ensures reload <==> fire && !old(player.alive)
      ensures projectiles == old(projectiles) || Appended(old(projectiles), projectiles)
    {
      ghost var es, s, snap := enemies, player.State(), Snap(projectiles);
      reload := player.Controls(this, h, left, right, fire);
      ControlsKeepInvariant(s, h, left, right, fire, snap);
      if projectiles != old(projectiles) {
        AppendedDistinct(old(projectiles), projectiles);
      }
      assert AllInv(es);
    }

    /**
     * `handleInputs()`: before the game, the space bar starts it; during
     * it, the player's controls. The space bar is consumed either way
     * (`keysAfter`), and `reload` is the call to `location.reload()`.
     */
    method HandleInputs(h: Host, keys: set<string>, startRoll: real) returns (keysAfter: set<string>, reload: bool)
      requires Valid()
      modifies this, player
      ensures Valid()
      ensures keysAfter == keys - {" "}
      ensures !old(gameStarted) ==> !reload && (gameStarted <==> " " in keys)
      ensures !old(gameStarted) && " " in keys ==>
        && fresh(player) && player.State() == StartingPlayer(h, startRoll)
        && levelIndex == -1 && enemies == [] && projectiles == []
      ensures !old(gameStarted) && " " !in keys ==>
        && player == old(player) && player.State() == old(player.State())
        && levelIndex == old(levelIndex) && enemies == old(enemies) && projectiles == old(projectiles)
      ensures old(gameStarted) ==>
        && gameStarted && player == old(player) && levelIndex == old(levelIndex) && enemies == old(enemies)
        && (reload <==> " " in keys && !old(player.alive))
        && (player.State(), Snap(projectiles))
           == Controls(old(player.State()), h, "ArrowLeft" in keys, "ArrowRight" in keys, " " in keys, old(Snap(projectiles)))
        && (projectiles == old(projectiles) || Appended(old(projectiles), projectiles))
    {
      keysAfter := keys - {" "};
      reload := false;
      if !gameStarted {
        if " " in keys {
          StartGame(h, startRoll);
        }
      } else {
        reload := PlayerControls(h, "ArrowLeft" in keys, "ArrowRight" in keys, " " in keys);
      }
    }

    /**
     * `playerPlane.update()` in the game: the player's step and collision
     * pass on a valid game, which keeps it valid.
     */
    method PlayerUpdate(h: Host)
      requires Valid()
      modifies player, set p | p in projectiles
      ensures Valid()
      ensures (player.State(), Snap(projectiles))
           == PlaneUpdate(old(player.State()), h, old(player.x), old(player.y), old(Snap(projectiles)))
    {
      ghost var es, s, px, py, snap := enemies, player.State(), player.x, player.y, Snap(projectiles);
      player.Update(this, h);
      UpdateKeepsInvariant(s, h, px, py, snap);
      assert AllInv(es);
    }

    /**
     * `projectiles = projectiles.filter(p => p.alive)`: the live entries
     * stay, in their order, and nothing else does.
     */
    method PruneProjectiles()
      requires Valid()
      modifies this`projectiles
      ensures Valid()
      ensures projectiles == old(Select(projectiles, ProjectileFlags(projectiles)))
      ensures LiveProjectiles(projectiles, old(projectiles))
    {
      FilterProjectiles(projectiles);
      projectiles := Select(projectiles, ProjectileFlags(projectiles));
    }

    /**
     * `enemies = enemies.filter(e => e.alive)`: the live entries stay, in
     * their order, and nothing else does.
     */
    method PruneEnemies()
      requires Valid()
      modifies this`enemies
      ensures Valid()
      ensures enemies == old(Select(enemies, PlaneFlags(enemies)))
      ensures LivePlanes(enemies, old(enemies))
      ensures |enemies| == 0 <==> NoneAlive(old(enemies))
    {
      FilterPlanes(enemies);
      enemies := Select(enemies, PlaneFlags(enemies));
    }

    /**
     * The end of `loop()`: with no enemies left and levels to go, move to
     * the next level and begin it if the table has one, spawning its enemies
     * with rolls `rolls(0)`, `rolls(1)`, ...
     */
    method AdvanceLevel(h: Host, rolls: nat -> SpawnRoll)
      requires Valid()
      modifies this`levelIndex, this`enemies
      ensures Valid()
      ensures levelIndex == NextLevelIndex(old(levelIndex), |old(enemies)|)
      ensures levelIndex == old(levelIndex) || levelIndex == |Levels| ==> enemies == old(enemies)
      ensures levelIndex == old(levelIndex) + 1 && levelIndex < |Levels| ==> old(enemies) == []
      ensures levelIndex == old(levelIndex) + 1 && levelIndex < |Levels| ==>
        && |enemies| == Levels[levelIndex].numEnemies
        && forall i :: 0 <= i < |enemies| ==>
          && fresh(enemies[i])
          && enemies[i].State() == Override(Levels[levelIndex], Spawned(h, rolls(i - |old(enemies)|), player.x, player.y))
    {
      if |enemies| == 0 && levelIndex < |Levels| {
        levelIndex := levelIndex + 1;
        if levelIndex < |Levels| {
          BeginLevel(Levels[levelIndex], h, rolls);
        }
      }
    }

    /**
     * `handleInputs()` and then `playerPlane.update()` once the game has
     * started: the player's keys, then its step and collision pass. The
     * enemy list and the level index are not reassigned; a shot reassigns
     * `projectiles` to the old list with the new projectile appended.
     */
    method PlayerTurn(h: Host, keys: set<string>, startRoll: real)
      returns (keysAfter: set<string>, reload: bool)
      requires Valid() && gameStarted
      modifies this, player, set p | p in projectiles
      ensures Valid() && gameStarted
      ensures player == old(player) && enemies == old(enemies) && levelIndex == old(levelIndex)
      ensures forall p :: p in projectiles ==> p in old(projectiles) || fresh(p)
      ensures keysAfter == keys - {" "}
      ensures reload <==> " " in keys && !old(player.alive)
      ensures !old(player.alive) ==> player.State() == old(player.State())
      ensures player.lives <= old(player.lives) && (player.alive ==> old(player.alive))
      ensures var c := Controls(old(player.State()), h, "ArrowLeft" in keys, "ArrowRight" in keys, " " in keys, old(Snap(projectiles)));
        (player.State(), Snap(projectiles)) == PlaneUpdate(c.0, h, c.0.x, c.0.y, c.1)
    {
      ghost var s0, snap0 := player.State(), Snap(projectiles);
      keysAfter, reload := HandleInputs(h, keys, startRoll);
      ghost var s1 := player.State();
      ControlsKeepInvariant(s0, h, "ArrowLeft" in keys, "ArrowRight" in keys, " " in keys, snap0);
      assert s1.lives == s0.lives && s1.alive == s0.alive && (!s0.alive ==> s1 == s0);
      ghost var px, py, snap1 := player.x, player.y, Snap(projectiles);
      PlayerUpdate(h);
      UpdateKeepsInvariant(s1, h, px, py, snap1);
    }

    /**
     * The first half of `loop()` once the game has started: the player's
     * turn, the enemies' turns and the projectiles' steps. The enemy list and
     * the level index are not reassigned; every shot appends to `projectiles`.
     */
    method Play(h: Host, keys: set<string>, startRoll: real, shootRolls: nat -> real)
      returns (keysAfter: set<string>, reload: bool)
      requires Valid() && gameStarted
      modifies this, player, set e | e in enemies, set p | p in projectiles
      ensures Valid() && gameStarted
      ensures player == old(player) && enemies == old(enemies) && levelIndex == old(levelIndex)
      ensures keysAfter == keys - {" "}
      ensures reload <==> " " in keys && !old(player.alive)
      ensures !old(player.alive) ==> player.State() == old(player.State())
      ensures player.lives <= old(player.lives) && (player.alive ==> old(player.alive))
      ensures var c := Controls(old(player.State()), h, "ArrowLeft" in keys, "ArrowRight" in keys, " " in keys, old(Snap(projectiles)));
        var u := PlaneUpdate(c.0, h, c.0.x, c.0.y, c.1);
        var m := Rules.MoveEnemies(old(States(enemies)), h, u.0.x, u.0.y, shootRolls, u.1);
        && player.State() == u.0
        && States(enemies) == m.0
        && |projectiles| == |m.1|
        && forall i :: 0 <= i < |projectiles| ==> projectiles[i].State() == ProjectileUpdate(m.1[i], h)
    {
      ghost var es := States(enemies);
      keysAfter, reload := PlayerTurn(h, keys, startRoll);
      assert States(enemies) == es;
      OthersTurn(h, shootRolls);
    }

    /**
     * The two loops of `loop()` after the player's turn: every enemy's
     * `moveAI()` and `update()` in list order, then every projectile's
     * `update()`, the ones the enemies fired included.
     */
    method OthersTurn(h: Host, shootRolls: nat -> real)
      requires Valid()
      modifies set e | e in enemies, this`projectiles, set p | p in projectiles
      ensures Valid()
      ensures player.State() == old(player.State()) && enemies == old(enemies)
      ensures var m := Rules.MoveEnemies(old(States(enemies)), h, old(player.x), old(player.y), shootRolls, old(Snap(projectiles)));
        && States(enemies) == m.0
        && |projectiles| == |m.1|
        && forall i :: 0 <= i < |projectiles| ==> projectiles[i].State() == ProjectileUpdate(m.1[i], h)
    {
      ghost var s := player.State();
      MoveEnemies(h, shootRolls);
      SnapIndex(projectiles);
      UpdateProjectiles(h);
      assert player.State() == s;
    }

    /**
     * The second half of `loop()`: the two filters, then the level advance
     * on what is left. The level moves on exactly when no enemy is alive
     * and levels remain; otherwise the live enemies are the ones kept.
     */
    method Tidy(h: Host, spawnRolls: nat -> SpawnRoll)
      requires Valid()
      modifies this`projectiles, this`enemies, this`levelIndex
      ensures Valid()
      ensures LiveProjectiles(projectiles, old(projectiles))
      ensures levelIndex == old(levelIndex) || levelIndex == old(levelIndex) + 1
      ensures levelIndex == old(levelIndex) + 1 <==> old(levelIndex) < |Levels| && NoneAlive(old(enemies))
      ensures levelIndex == old(levelIndex) ==> LivePlanes(enemies, old(enemies))
      ensures projectiles == old(Select(projectiles, ProjectileFlags(projectiles)))
      ensures levelIndex == old(levelIndex) || levelIndex == |Levels| ==>
        enemies == old(Select(enemies, PlaneFlags(enemies)))
    {
      PruneProjectiles();
      NextWave(h, spawnRolls);
    }

    /**
     * `enemies = enemies.filter(e => e.alive)` and then the level advance:
     * the level moves on exactly when no enemy was alive and levels remain.
     */
    method NextWave(h: Host, spawnRolls: nat -> SpawnRoll)
      requires Valid()
      modifies this`enemies, this`levelIndex
      ensures Valid()
      ensures levelIndex == old(levelIndex) || levelIndex == old(levelIndex) + 1
      ensures levelIndex == old(levelIndex) + 1 <==> old(levelIndex) < |Levels| && NoneAlive(old(enemies))
      ensures levelIndex == old(levelIndex) ==> LivePlanes(enemies, old(enemies))
      ensures levelIndex == old(levelIndex) || levelIndex == |Levels| ==>
        enemies == old(Select(enemies, PlaneFlags(enemies)))
    {
      PruneEnemies();
      AdvanceLevel(h, spawnRolls);
    }

    /**
     * One call of `loop()` once the game has started, drawing and audio
     * aside: `Play` and then `Tidy`.
     */
    method Frame(h: Host, keys: set<string>, startRoll: real, shootRolls: nat -> real, spawnRolls: nat -> SpawnRoll)
      returns (keysAfter: set<string>, reload: bool)
      requires Valid() && gameStarted
      modifies this, player, set e | e in enemies, set p | p in projectiles
      ensures Valid() && gameStarted && player == old(player)
      ensures keysAfter == keys - {" "}
      ensures reload <==> " " in keys && !old(player.alive)
      ensures !old(player.alive) ==> player.State() == old(player.State())
      ensures player.lives <= old(player.lives) && (player.alive ==> old(player.alive))
      ensures forall p :: p in projectiles ==> p.alive
      ensures levelIndex == old(levelIndex) || levelIndex == old(levelIndex) + 1
      ensures levelIndex == old(levelIndex) + 1 <==> old(levelIndex) < |Levels| && NoneAlive(old(enemies))
      ensures levelIndex == old(levelIndex) ==> LivePlanes(enemies, old(enemies))
      ensures var c := Controls(old(player.State()), h, "ArrowLeft" in keys, "ArrowRight" in keys, " " in keys, old(Snap(projectiles)));
        player.State() == PlaneUpdate(c.0, h, c.0.x, c.0.y, c.1).0
    {
      keysAfter, reload := Play(h, keys, startRoll, shootRolls);
      Tidy(h, spawnRolls);
    }

    /** `projectile.update()` for every entry of `projectiles`, in order. */
    method UpdateProjectiles(h: Host)
      requires Valid()
      modifies set p | p in projectiles
      ensures Valid()
      ensures States(enemies) == old(States(enemies))
      ensures forall i :: 0 <= i < |projectiles| ==>
        projectiles[i].State() == ProjectileUpdate(old(projectiles[i].State()), h)
    {
      var ps := projectiles;
      for i := 0 to |ps|
        invariant forall j :: 0 <= j < i ==> ps[j].State() == ProjectileUpdate(old(ps[j].State()), h)
        invariant forall j :: i <= j < |ps| ==> ps[j].State() == old(ps[j].State())
      {
        ps[i].Update(h);
      }
    }

    /**
     * One pass of the enemy loop of `loop()`: `e.moveAI()`, then
     * `e.update()`, for `e` the `i`-th of `es`. The other planes of `es`
     * and the player are not touched.
     */
    method EnemyTurn(es: seq<Plane>, i: nat, h: Host, shootRoll: real, ghost done: seq<PlaneState>, ghost before: seq<PlaneState>)
      requires i < |es| && Distinct(es) && Distinct(projectiles) && es[i] != player
      requires TurnsTaken(es, i, done, before)
      modifies es[i], this`projectiles, set p | p in projectiles
      ensures Distinct(projectiles)
      ensures forall p :: p in projectiles ==> p in old(projectiles) || fresh(p)
      ensures player.State() == old(player.State())
      ensures TurnsTaken(es, i + 1, done + [es[i].State()], before)
      ensures (es[i].State(), Snap(projectiles))
           == EnemyStep(old(es[i].State()), h, old(player.x), old(player.y), shootRoll, old(Snap(projectiles)))
    {
      var e := es[i];
      ghost var px, py := player.x, player.y;
      e.MoveAI(this, h, shootRoll);
      if projectiles != old(projectiles) {
        AppendedDistinct(old(projectiles), projectiles);
      }
      assert player.x == px && player.y == py;
      e.Update(this, h);
      assert forall j :: 0 <= j < |es| && j != i ==> es[j].State() == old(es[j].State());
    }

    /**
     * The enemy loop of `loop()`: every entry of `enemies` takes its turn in
     * order, the `i`-th with shoot roll `shootRolls(i)`. The player is not
     * touched.
     */
    method MoveEnemies(h: Host, shootRolls: nat -> real)
      requires Valid()
      modifies set e | e in enemies, this`projectiles, set p | p in projectiles
      ensures Valid()
      ensures player.State() == old(player.State())
      ensures forall p :: p in projectiles ==> p in old(projectiles) || fresh(p)
      ensures (States(enemies), Snap(projectiles))
           == Rules.MoveEnemies(old(States(enemies)), h, old(player.x), old(player.y), shootRolls, old(Snap(projectiles)))
    {
      ghost var before, snap, s := States(enemies), Snap(projectiles), player.State();
      AllInvStates(enemies);
      EnemyLoop(enemies, h, shootRolls);
      MoveEnemiesKeepsInvariant(before, h, old(player.x), old(player.y), shootRolls, snap);
      StatesAllInv(enemies);
      assert player.State() == s && Inv(s) && player.lives == s.lives;
    }

    /** The loop of `MoveEnemies` over the planes `es`. */
    method EnemyLoop(es: seq<Plane>, h: Host, shootRolls: nat -> real)
      requires Distinct(es) && Distinct(projectiles) && player !in es
      modifies set e | e in es, this`projectiles, set p | p in projectiles
      ensures Distinct(projectiles)
      ensures forall p :: p in projectiles ==> p in old(projectiles) || fresh(p)
      ensures player.State() == old(player.State())
      ensures (States(es), Snap(projectiles))
           == Rules.MoveEnemies(old(States(es)), h, old(player.x), old(player.y), shootRolls, old(Snap(projectiles)))
    {
      ghost var before := States(es);
      StatesIndex(es);
      ghost var px, py := player.x, player.y;
      // the enemies so far and the projectiles, as `Rules.MoveEnemies` has them
      ghost var done: seq<PlaneState> := [];
      for i := 0 to |es|
        invariant Distinct(projectiles)
        invariant forall p :: p in projectiles ==> p in old(projectiles) || fresh(p)
        invariant player.State() == old(player.State())
        invariant done == Rules.MoveEnemies(before[..i], h, px, py, shootRolls, old(Snap(projectiles))).0
        invariant Snap(projectiles) == Rules.MoveEnemies(before[..i], h, px, py, shootRolls, old(Snap(projectiles))).1
        invariant TurnsTaken(es, i, done, before)
      {
        MoveEnemiesStep(before, i, h, px, py, shootRolls, old(Snap(projectiles)));
        ghost var last := EnemyStep(before[i], h, px, py, shootRolls(i), Snap(projectiles));
        EnemyTurn(es, i, h, shootRolls(i), done, before);
        assert es[i].State() == last.0 && Snap(projectiles) == last.1;
        done := done + [es[i].State()];
      }
      assert before[..|es|] == before;
      StatesIndex(es);
      assert States(es) == done;
    }
  }
}
