/**
 * The player character: an integer box, a vertical velocity and two
 * independent flags, is jumping and is crouching.  Velocities are counted in
 * half-pixels per tick, so the gravity of 0.5 becomes 1 and the jump
 * strength of -15 becomes -30.
 */
module DinoPhysics {
  import opened Screen
  import opened Geometry

  const Gravity := 1
  const JumpStrength := -30

  const StartX := 50
  const DinoWidth := 100
  const StandingHeight := 100
  const CrouchingHeight := 50

  /** Which of the three sprites is shown. */
  datatype Image = RunImage | JumpImage | CrouchImage

  /** Everything the game logic reads or writes of the dino. */
  datatype DinoState = DinoState(rect: Rect, velocity: int, isJumping: bool, isCrouching: bool, currentImage: Image)

  /** A fresh dino: the run image's 100x100 box, moved to x = 50 and onto the ground. */
  function Start(): (d: DinoState)
    ensures d.rect == Rect(StartX, GroundHeight - StandingHeight, DinoWidth, StandingHeight)
    ensures d.rect.Bottom() == GroundHeight && d.velocity == 0
    ensures !d.isJumping && !d.isCrouching && d.currentImage == RunImage
  {
    var image := Rect(0, 0, DinoWidth, StandingHeight);
    DinoState(image.(x := StartX).WithBottom(GroundHeight), 0, false, false, RunImage)
  }

  /** Shape invariant kept by every operation: fixed x and width, the height
      follows the crouch flag, and the velocity never drops below a jump's. */
  ghost predicate Valid(d: DinoState) {
    d.rect.x == StartX && d.rect.width == DinoWidth &&
    d.rect.height == (if d.isCrouching then CrouchingHeight else StandingHeight) &&
    d.velocity >= JumpStrength
  }

  /** A dino that is not jumping stands still, on the ground line or (right
      after a crouch) below it. */
  ghost predicate Resting(d: DinoState) {
    !d.isJumping ==> d.velocity == 0 && d.rect.Bottom() >= GroundHeight
  }

  /** `jump`: launches only when not already jumping. */
  function AfterJump(d: DinoState): DinoState {
    if d.isJumping then d else d.(velocity := JumpStrength, isJumping := true)
  }

  /** `crouch`: the 100x50 box at y = 350, even in mid-air. */
  function AfterCrouch(d: DinoState): DinoState {
    d.(currentImage := CrouchImage,
       rect := d.rect.(height := CrouchingHeight, width := DinoWidth, y := GroundHeight + 50),
       isCrouching := true)
  }

  /** The crouch release on the key-up of DOWN: the 100x100 box at y = 200. */
  function AfterRelease(d: DinoState): DinoState {
    d.(rect := d.rect.(height := StandingHeight, width := DinoWidth, y := GroundHeight - 100),
       isCrouching := false)
  }

  /** The sprite chosen from the flags: jumping wins over crouching, crouching over running. */
  function PoseImage(d: DinoState): Image {
    if d.isJumping then JumpImage else if d.isCrouching then CrouchImage else RunImage
  }

  /** How pygame stores `rect.y + velocity` back into the integer field: `toPixels`
      receives the new position in half-pixels.  It is a rounding when it is
      within half a pixel of the exact value. */
  ghost predicate IsRounding(toPixels: int -> int) {
    forall h :: h - 1 <= 2 * toPixels(h) <= h + 1
  }

  /** The box after gravity is applied, before the ground test. */
  function Fallen(d: DinoState, toPixels: int -> int): Rect {
    d.rect.(y := toPixels(2 * d.rect.y + d.velocity + Gravity))
  }

  /** The bottom of the box reached or passed the ground line during this tick. */
  predicate Lands(d: DinoState, toPixels: int -> int) {
    Fallen(d, toPixels).Bottom() >= GroundHeight
  }

  /** `Dino.update`: gravity, movement, the ground clamp and the sprite choice. */
  function AfterUpdate(d: DinoState, toPixels: int -> int): (r: DinoState)
    ensures r.rect.Bottom() <= GroundHeight
    ensures r.rect.x == d.rect.x && r.rect.width == d.rect.width && r.rect.height == d.rect.height
    ensures r.isCrouching == d.isCrouching
    ensures Lands(d, toPixels) ==> r.rect.Bottom() == GroundHeight && r.velocity == 0 && !r.isJumping
    ensures !Lands(d, toPixels) ==>
      r.rect == Fallen(d, toPixels) && r.velocity == d.velocity + Gravity && r.isJumping == d.isJumping
    ensures r.currentImage == (if r.isJumping then JumpImage else PoseImage(d))
  {
    var moved := Fallen(d, toPixels);
    if moved.Bottom() >= GroundHeight then
      DinoState(moved.WithBottom(GroundHeight), 0, false, d.isCrouching, PoseImage(d))
    else
      DinoState(moved, d.velocity + Gravity, d.isJumping, d.isCrouching,
                if d.isJumping then JumpImage else PoseImage(d))
  }

  /** The key handlers keep the shape invariant. */
  lemma ValidUnderKeys(d: DinoState)
    requires Valid(d)
    ensures Valid(AfterJump(d)) && Valid(AfterCrouch(d)) && Valid(AfterRelease(d))
  {
  }

  /** An update keeps the shape invariant, whatever the rounding. */
  lemma ValidUnderUpdate(d: DinoState, toPixels: int -> int)
    requires Valid(d)
    ensures Valid(AfterUpdate(d, toPixels))
  {
  }

  lemma StartValid()
    ensures Valid(Start()) && Resting(Start())
  {
  }

  /** A second jump before landing changes nothing. */
  lemma JumpIdempotent(d: DinoState)
    ensures AfterJump(AfterJump(d)) == AfterJump(d)
    ensures d.isJumping ==> AfterJump(d) == d
  {
  }

  /** Crouch and release touch neither the velocity nor the jump flag, in the
      air as on the ground. */
  lemma CrouchReleaseKeepMotion(d: DinoState)
    ensures AfterCrouch(d).velocity == d.velocity && AfterCrouch(d).isJumping == d.isJumping
    ensures AfterRelease(d).velocity == d.velocity && AfterRelease(d).isJumping == d.isJumping
  {
  }

  /** Releasing after a crouch gives back the standing box. */
  lemma CrouchReleaseRoundTrip(d: DinoState)
    requires Valid(d) && !d.isCrouching && d.rect.Bottom() == GroundHeight
    ensures AfterRelease(AfterCrouch(d)).rect == d.rect
  {
  }

  /** A resting dino stays resting under the key handlers. */
  lemma RestingUnderKeys(d: DinoState)
    requires Resting(d)
    ensures Resting(AfterJump(d)) && Resting(AfterCrouch(d)) && Resting(AfterRelease(d))
  {
  }

  /** With a true rounding, a resting dino stays resting under an update, and
      one that is not jumping is put back on the ground at once. */
  lemma RestingUnderUpdate(d: DinoState, toPixels: int -> int)
    requires IsRounding(toPixels) && Resting(d)
    ensures Resting(AfterUpdate(d, toPixels))
    ensures !d.isJumping ==> Lands(d, toPixels)
  {
  }

  /** A jump from the ground leaves the ground on the next tick. */
  lemma JumpLeavesGround(d: DinoState, toPixels: int -> int)
    requires IsRounding(toPixels) && Valid(d) && !d.isJumping && d.rect.Bottom() == GroundHeight
    ensures var r := AfterUpdate(AfterJump(d), toPixels);
      r.isJumping && r.rect.Bottom() < GroundHeight && r.velocity == JumpStrength + Gravity
  {
  }

  /** Crouching in mid-air puts the box below the ground line, so the next
      update lands the dino at once; on that tick the jump sprite is still shown. */
  lemma CrouchInAirLands(d: DinoState, toPixels: int -> int)
    requires IsRounding(toPixels) && Valid(d)
    ensures var r := AfterUpdate(AfterCrouch(d), toPixels);
      Lands(AfterCrouch(d), toPixels) &&
      r.rect == Rect(StartX, GroundHeight - CrouchingHeight, DinoWidth, CrouchingHeight) &&
      r.velocity == 0 && !r.isJumping && r.isCrouching &&
      r.currentImage == (if d.isJumping then JumpImage else CrouchImage)
  {
  }

  /** n ticks of `update` in a row. */
  function UpdateN(d: DinoState, toPixels: int -> int, n: nat): DinoState
    decreases n
  {
    if n == 0 then d else UpdateN(AfterUpdate(d, toPixels), toPixels, n - 1)
  }

  /** Ticks left before the velocity turns downwards. */
  function Rising(d: DinoState): nat {
    if d.velocity <= 0 then 1 - d.velocity else 0
  }

  /** Half-pixels left between the top of the box and its grounded position. */
  function Altitude(d: DinoState): nat {
    var gap := 2 * (GroundHeight - d.rect.height) - 2 * d.rect.y;
    if gap > 0 then gap else 0
  }

  /** Every jump ends: with a true rounding, some number of updates brings the dino back to the ground. */
  lemma {:induction false} JumpEnds(d: DinoState, toPixels: int -> int)
    requires IsRounding(toPixels)
    ensures exists n: nat :: !UpdateN(d, toPixels, n).isJumping
    decreases Rising(d), Altitude(d)
  {
    if !d.isJumping {
      assert !UpdateN(d, toPixels, 0).isJumping;
    } else {
      var next := AfterUpdate(d, toPixels);
      if !next.isJumping {
        assert !UpdateN(d, toPixels, 1).isJumping;
      } else {
        var h := 2 * d.rect.y + d.velocity + Gravity;
        assert h - 1 <= 2 * toPixels(h);
        JumpEnds(next, toPixels);
        var n: nat :| !UpdateN(next, toPixels, n).isJumping;
        assert UpdateN(d, toPixels, n + 1) == UpdateN(next, toPixels, n);
      }
    }
  }

  /** The dino of the game as an object whose methods update its fields in place. */
  class Dino {
    var rect: Rect
    var velocity: int
    var isJumping: bool
    var isCrouching: bool
    var currentImage: Image

    function State(): DinoState
      reads this
    {
      DinoState(rect, velocity, isJumping, isCrouching, currentImage)
    }

    constructor ()
      ensures State() == Start()
    {
      currentImage := RunImage;
      var image := Rect(0, 0, DinoWidth, StandingHeight);
      rect := image.(x := StartX).WithBottom(GroundHeight);
      velocity := 0;
      isJumping := false;
      isCrouching := false;
    }

    method Jump()
      modifies this
      ensures State() == AfterJump(old(State()))
    {
      if !isJumping {
        velocity := JumpStrength;
        isJumping := true;
      }
    }

    method Crouch()
      modifies this
      ensures State() == AfterCrouch(old(State()))
    {
      currentImage := CrouchImage;
      rect := rect.(height := CrouchingHeight);
      rect := rect.(width := DinoWidth);
      rect := rect.(y := GroundHeight + 50);
      isCrouching := true;
    }

    /** The crouch release, written inline in the main loop's key-up handler. */
    method ReleaseCrouch()
      modifies this
      ensures State() == AfterRelease(old(State()))
    {
      rect := rect.(height := StandingHeight);
      rect := rect.(width := DinoWidth);
      rect := rect.(y := GroundHeight - 100);
      isCrouching := false;
    }

    method Update(toPixels: int -> int)
      modifies this
      ensures State() == AfterUpdate(old(State()), toPixels)
    {
      if isJumping {
        currentImage := JumpImage;
      } else if isCrouching {
        currentImage := CrouchImage;
      } else if !isJumping && !isCrouching {
        currentImage := RunImage;
      }

      velocity := velocity + Gravity;
      rect := rect.(y := toPixels(2 * rect.y + velocity));

      if rect.Bottom() >= GroundHeight {
        rect := rect.WithBottom(GroundHeight);
        velocity := 0;
        isJumping := false;
      }

      if isJumping {
        currentImage := JumpImage;
      }
    }
  }
}
