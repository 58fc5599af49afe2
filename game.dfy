/**
 * The game session: the dino, the ordered list of obstacles, the score, the
 * game-over latch and the ground-scroll offset, advanced one tick at a time.
 */
module Game {
  import opened Screen
  import opened Geometry
  import opened DinoPhysics
  import opened Obstacles

  const ScrollStep := 5

  /** The whole state of a session as a value. */
  datatype World = World(dino: DinoState, obstacles: seq<Obstacle>, score: nat, gameOver: bool, groundPosX: int)

  /** A new session. */
  function Fresh(): (w: World)
    ensures w.dino == Start() && w.obstacles == [] && w.score == 0 && !w.gameOver && w.groundPosX == 0
  {
    World(Start(), [], 0, false, 0)
  }

  /** One step of the ground texture: left by 5, back to 0 at one screen width. */
  function Scroll(g: int): (r: int)
    ensures GroundInRange(g) ==> GroundInRange(r)
  {
    if g - ScrollStep <= -ScreenWidth then 0 else g - ScrollStep
  }

  /** The offsets the ground scroll can take: multiples of 5 from -795 to 0. */
  predicate GroundInRange(g: int) {
    -ScreenWidth < g <= 0 && g % ScrollStep == 0
  }

  function ScrollN(g: int, n: nat): int {
    if n == 0 then g else Scroll(ScrollN(g, n - 1))
  }

  /** After n ticks from 0 the ground has scrolled 5n pixels, modulo the screen width. */
  lemma {:induction false} ScrollFromZero(n: nat)
    ensures ScrollN(0, n) == -(ScrollStep * (n % 160))
  {
    if n > 0 {
      ScrollFromZero(n - 1);
      ModStep(n - 1);
    }
  }

  /** Counting modulo 160 one step further. */
  lemma ModStep(m: nat)
    ensures (m + 1) % 160 == if m % 160 == 159 then 0 else m % 160 + 1
  {
    var q, r := m / 160, m % 160;
    assert m + 1 == 160 * q + (r + 1);
    if r == 159 {
      assert m + 1 == 160 * (q + 1) + 0;
    }
  }

  /** Some obstacle's box overlaps the dino's box. */
  predicate AnyCollision(box: Rect, obs: seq<Obstacle>) {
    exists i :: 0 <= i < |obs| && box.CollidesWith(obs[i].box)
  }

  /** `DinoGame.update`: nothing once the game is over; otherwise dino physics,
      ground scroll, the obstacle sweep with its score, a tower spawn check,
      a bird spawn check and the collision test, in that order. */
  function Tick(w: World, toPixels: int -> int, r1: int, r2: int): (r: World)
    requires MinSpacing <= r1 <= MaxSpacing && MinSpacing <= r2 <= MaxSpacing
    ensures w.gameOver ==> r == w
    ensures !w.gameOver ==>
      r.dino == AfterUpdate(w.dino, toPixels) &&
      r.groundPosX == Scroll(w.groundPosX) &&
      r.score == w.score + Retired(w.obstacles) &&
      |Survivors(w.obstacles)| <= |r.obstacles| <= |Survivors(w.obstacles)| + 1 &&
      r.obstacles[..|Survivors(w.obstacles)|] == Survivors(w.obstacles) &&
      (r.gameOver <==> exists i :: 0 <= i < |r.obstacles| && r.dino.rect.CollidesWith(r.obstacles[i].box))
  {
    if w.gameOver then w
    else
      var dino := AfterUpdate(w.dino, toPixels);
      var kept := Survivors(w.obstacles);
      var withTower := SpawnIfRoom(kept, Tower, r1);
      var withBird := SpawnIfRoom(withTower, Bird, r2);
      World(dino, withBird, w.score + Retired(w.obstacles),
            w.gameOver || AnyCollision(dino.rect, withBird), Scroll(w.groundPosX))
  }

  /** At most one obstacle is added per tick: a tower when there is room for
      one, a bird only when there is room for a bird but not for a tower, and
      always a tower when the list is empty.  The new one enters at the right
      edge on the ground. */
  lemma TickSpawnsAtMostOne(w: World, toPixels: int -> int, r1: int, r2: int)
    requires MinSpacing <= r1 <= MaxSpacing && MinSpacing <= r2 <= MaxSpacing
    requires !w.gameOver
    ensures var kept, r := Survivors(w.obstacles), Tick(w, toPixels, r1, r2);
      (r.obstacles == kept + [Spawned(Tower)] <==> HasRoom(kept, r1)) &&
      (r.obstacles == kept + [Spawned(Bird)] <==> !HasRoom(kept, r1) && HasRoom(kept, r2)) &&
      (r.obstacles == kept <==> !HasRoom(kept, r1) && !HasRoom(kept, r2)) &&
      (kept == [] ==> r.obstacles == [Spawned(Tower)])
  {
  }

  /** The score grows by one for every obstacle the sweep removed and by
      nothing else. */
  lemma TickScore(w: World, toPixels: int -> int, r1: int, r2: int)
    requires MinSpacing <= r1 <= MaxSpacing && MinSpacing <= r2 <= MaxSpacing
    requires !w.gameOver
    ensures Tick(w, toPixels, r1, r2).score == w.score + (|w.obstacles| - |Survivors(w.obstacles)|)
  {
    SweepCounts(w.obstacles);
  }

  /** The invariant of a session between ticks. */
  ghost predicate WorldValid(w: World) {
    DinoPhysics.Valid(w.dino) && GroundInRange(w.groundPosX) && Spaced(w.obstacles)
  }

  lemma FreshValid()
    ensures WorldValid(Fresh())
  {
  }

  /** A tick keeps the session invariant. */
  lemma TickValid(w: World, toPixels: int -> int, r1: int, r2: int)
    requires MinSpacing <= r1 <= MaxSpacing && MinSpacing <= r2 <= MaxSpacing
    requires WorldValid(w)
    ensures WorldValid(Tick(w, toPixels, r1, r2))
  {
    if !w.gameOver {
      ValidUnderUpdate(w.dino, toPixels);
      var kept := Survivors(w.obstacles);
      SweepSpaced(w.obstacles);
      SpawnSpaced(kept, Tower, r1);
      SpawnSpaced(SpawnIfRoom(kept, Tower, r1), Bird, r2);
    }
  }

  /** The session invariant survives drawing, which settles the birds. */
  lemma SettleValid(w: World)
    requires WorldValid(w)
    ensures WorldValid(w.(obstacles := SettleAll(w.obstacles)))
  {
  }

  /** A dino crouching on the ground passes under every bird that has been drawn. */
  lemma CrouchClearsSettledBirds(d: DinoState, o: Obstacle)
    requires DinoPhysics.Valid(d) && d.isCrouching && d.rect.Bottom() == GroundHeight
    requires WellFormed(o) && o.kind == Bird && o.box.y == BirdFlightY
    ensures !d.rect.CollidesWith(o.box)
  {
  }

  /** The session as an object: `update` changes its fields and the list in place. */
  class DinoGame {
    const dino: Dino
    var obstacles: seq<Obstacle>
    var score: nat
    var gameOver: bool
    var groundPosX: int

    function State(): World
      reads this, dino
    {
      World(dino.State(), obstacles, score, gameOver, groundPosX)
    }

    constructor ()
      ensures State() == Fresh() && fresh(dino)
    {
      dino := new Dino();
      obstacles := [];
      score := 0;
      gameOver := false;
      groundPosX := 0;
    }

    method SpawnObstacle(r: int)
      requires MinSpacing <= r <= MaxSpacing
      modifies this`obstacles
      ensures obstacles == SpawnIfRoom(old(obstacles), Tower, r)
    {
      if |obstacles| == 0 || obstacles[|obstacles| - 1].box.x < ScreenWidth - r {
        obstacles := obstacles + [Spawned(Tower)];
      }
    }

    method SpawnBird(r: int)
      requires MinSpacing <= r <= MaxSpacing
      modifies this`obstacles
      ensures obstacles == SpawnIfRoom(old(obstacles), Bird, r)
    {
      if |obstacles| == 0 || obstacles[|obstacles| - 1].box.x < ScreenWidth - r {
        obstacles := obstacles + [Spawned(Bird)];
      }
    }

    method CheckCollision()
      modifies this`gameOver
      ensures gameOver == (old(gameOver) || AnyCollision(dino.rect, obstacles))
    {
      var i := 0;
      while i < |obstacles|
        invariant 0 <= i <= |obstacles|
        invariant gameOver == (old(gameOver) ||
          exists k :: 0 <= k < i && dino.rect.CollidesWith(obstacles[k].box))
      {
        if dino.rect.CollidesWith(obstacles[i].box) {
          gameOver := true;
        }
        i := i + 1;
      }
    }

    /** Walks a copy of the list; each obstacle moves, and one whose right edge
        is below 0 is removed from the live list and scores a point. */
    method MoveAndRetire()
      modifies this`obstacles, this`score
      ensures obstacles == Survivors(old(obstacles))
      ensures score == old(score) + Retired(old(obstacles))
    {
      var pending := obstacles;
      var i, j := 0, 0;
      while i < |pending|
        invariant 0 <= i <= |pending|
        invariant j == |Survivors(pending[..i])|
        invariant obstacles == Survivors(pending[..i]) + pending[i..]
        invariant score == old(score) + Retired(pending[..i])
      {
        SweepStep(pending, i, obstacles, j);
        var o := Move(obstacles[j]);
        if o.box.Right() < 0 {
          obstacles := obstacles[..j] + obstacles[j + 1..];
          score := score + 1;
        } else {
          obstacles := obstacles[j := o];
          j := j + 1;
        }
        i := i + 1;
      }
      assert pending[..i] == pending;
    }

    method Update(toPixels: int -> int, r1: int, r2: int)
      requires MinSpacing <= r1 <= MaxSpacing && MinSpacing <= r2 <= MaxSpacing
      modifies this, dino
      ensures State() == Tick(old(State()), toPixels, r1, r2)
    {
      if !gameOver {
        Advance(toPixels, r1, r2);
      }
    }

    /** The body of `update` while the game runs, field by field. */
    method Advance(toPixels: int -> int, r1: int, r2: int)
      requires MinSpacing <= r1 <= MaxSpacing && MinSpacing <= r2 <= MaxSpacing
      requires !gameOver
      modifies this, dino
      ensures dino.State() == AfterUpdate(old(dino.State()), toPixels)
      ensures groundPosX == Scroll(old(groundPosX))
      ensures obstacles == SpawnIfRoom(SpawnIfRoom(Survivors(old(obstacles)), Tower, r1), Bird, r2)
      ensures score == old(score) + Retired(old(obstacles))
      ensures gameOver == AnyCollision(dino.rect, obstacles)
    {
      dino.Update(toPixels);
      groundPosX := groundPosX - ScrollStep;
      if groundPosX <= -ScreenWidth {
        groundPosX := 0;
      }
      MoveAndRetire();
      SpawnObstacle(r1);
      SpawnBird(r2);
      CheckCollision();
    }

    /** Drawing; of it only the birds' move to their flight row is kept. */
    method Draw()
      modifies this`obstacles
      ensures obstacles == SettleAll(old(obstacles))
    {
      var i := 0;
      while i < |obstacles|
        invariant 0 <= i <= |obstacles| == |old(obstacles)|
        invariant forall k :: 0 <= k < i ==> obstacles[k] == Settle(old(obstacles)[k])
        invariant forall k :: i <= k < |obstacles| ==> obstacles[k] == old(obstacles)[k]
      {
        if obstacles[i].kind == Bird {
          obstacles := obstacles[i := obstacles[i].(box := obstacles[i].box.(y := BirdFlightY))];
        }
        i := i + 1;
      }
    }
  }
}
