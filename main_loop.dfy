/**
 * The frame loop: every frame handles the pending input events in order,
 * advances the session by one tick and draws it.
 */
module MainLoop {
  import opened Obstacles
  import opened DinoPhysics
  import opened Game

  datatype Key = Space | Down | R | OtherKey

  datatype Event = KeyDown(key: Key) | KeyUp(key: Key) | Quit | OtherEvent

  /** What one frame consumes: its events and the two spacing draws of its tick. */
  datatype FrameInput = FrameInput(events: seq<Event>, r1: int, r2: int)

  predicate InRange(input: FrameInput) {
    MinSpacing <= input.r1 <= MaxSpacing && MinSpacing <= input.r2 <= MaxSpacing
  }

  /** The effect of one event.  Space and Down pressed jump and crouch, Down
      released stands the dino up, and R released while the game is over
      starts a new session; everything else is ignored. */
  function OnEvent(w: World, e: Event): (r: World)
    ensures e == KeyDown(Space) ==> r == w.(dino := AfterJump(w.dino))
    ensures e == KeyDown(Down) ==> r == w.(dino := AfterCrouch(w.dino))
    ensures e == KeyUp(Down) ==> r == w.(dino := AfterRelease(w.dino))
    ensures e == KeyUp(R) && w.gameOver ==> r == Fresh()
    ensures e !in {KeyDown(Space), KeyDown(Down), KeyUp(Down)} && !(e == KeyUp(R) && w.gameOver) ==> r == w
    ensures !(e == KeyUp(R) && w.gameOver) ==>
      r.obstacles == w.obstacles && r.score == w.score &&
      r.gameOver == w.gameOver && r.groundPosX == w.groundPosX
  {
    match e
    case KeyDown(k) =>
      if k == Space then w.(dino := AfterJump(w.dino))
      else if k == Down then w.(dino := AfterCrouch(w.dino))
      else w
    case KeyUp(k) =>
      var released := if k == Down then w.(dino := AfterRelease(w.dino)) else w;
      if released.gameOver && k == R then Fresh() else released
    case _ => w
  }

  /** The events of a frame, handled in order. */
  function OnEvents(w: World, es: seq<Event>): World {
    if es == [] then w else OnEvent(OnEvents(w, es[..|es| - 1]), es[|es| - 1])
  }

  /** The frame's events contain no request to quit. */
  predicate NoQuit(es: seq<Event>) {
    forall k :: 0 <= k < |es| ==> es[k] != Quit
  }

  /** One frame: events, then `update`, then `draw`. */
  function FrameResult(w: World, input: FrameInput, toPixels: int -> int): World
    requires InRange(input)
  {
    var t := Tick(OnEvents(w, input.events), toPixels, input.r1, input.r2);
    t.(obstacles := SettleAll(t.obstacles))
  }

  /** The frames of a run, up to and including the first one that asks to quit. */
  function Play(w: World, frames: seq<FrameInput>, toPixels: int -> int): World
    requires forall k :: 0 <= k < |frames| ==> InRange(frames[k])
    decreases frames
  {
    if frames == [] then w
    else
      var next := FrameResult(w, frames[0], toPixels);
      if NoQuit(frames[0].events) then Play(next, frames[1..], toPixels) else next
  }

  /** Events keep the session invariant. */
  lemma {:induction false} OnEventsValid(w: World, es: seq<Event>)
    requires WorldValid(w)
    ensures WorldValid(OnEvents(w, es))
  {
    if es != [] {
      var before := OnEvents(w, es[..|es| - 1]);
      OnEventsValid(w, es[..|es| - 1]);
      ValidUnderKeys(before.dino);
      FreshValid();
    }
  }

  /** A frame keeps the session invariant. */
  lemma FrameValid(w: World, input: FrameInput, toPixels: int -> int)
    requires InRange(input) && WorldValid(w)
    ensures WorldValid(FrameResult(w, input, toPixels))
  {
    OnEventsValid(w, input.events);
    var t := Tick(OnEvents(w, input.events), toPixels, input.r1, input.r2);
    TickValid(OnEvents(w, input.events), toPixels, input.r1, input.r2);
    SettleValid(t);
  }

  /** From a valid session, every run ends in a valid session. */
  lemma {:induction false} PlayValid(w: World, frames: seq<FrameInput>, toPixels: int -> int)
    requires forall k :: 0 <= k < |frames| ==> InRange(frames[k])
    requires WorldValid(w)
    ensures WorldValid(Play(w, frames, toPixels))
    decreases frames
  {
    if frames != [] {
      FrameValid(w, frames[0], toPixels);
      PlayValid(FrameResult(w, frames[0], toPixels), frames[1..], toPixels);
    }
  }

  /** Events keep a resting dino resting. */
  lemma {:induction false} OnEventsResting(w: World, es: seq<Event>)
    requires Resting(w.dino)
    ensures Resting(OnEvents(w, es).dino)
  {
    if es != [] {
      OnEventsResting(w, es[..|es| - 1]);
      RestingUnderKeys(OnEvents(w, es[..|es| - 1]).dino);
      StartValid();
    }
  }

  /** With a true rounding, throughout any run a dino that is not jumping has
      no velocity and stands on (or, right after a crouch, below) the ground. */
  lemma {:induction false} PlayResting(w: World, frames: seq<FrameInput>, toPixels: int -> int)
    requires forall k :: 0 <= k < |frames| ==> InRange(frames[k])
    requires IsRounding(toPixels) && Resting(w.dino)
    ensures Resting(Play(w, frames, toPixels).dino)
    decreases frames
  {
    if frames != [] {
      var input := frames[0];
      var before := OnEvents(w, input.events);
      OnEventsResting(w, input.events);
      if !before.gameOver {
        RestingUnderUpdate(before.dino, toPixels);
      }
      PlayResting(FrameResult(w, input, toPixels), frames[1..], toPixels);
    }
  }

  /** Once the game is over, only the key-up of R changes the session's
      obstacles, score, game-over flag and ground offset: events and ticks
      keep them as they were. */
  lemma {:induction false} GameOverLatches(w: World, es: seq<Event>)
    requires w.gameOver
    requires forall k :: 0 <= k < |es| ==> es[k] != KeyUp(R)
    ensures var r := OnEvents(w, es);
      r.gameOver && r.obstacles == w.obstacles && r.score == w.score && r.groundPosX == w.groundPosX
  {
    if es != [] {
      GameOverLatches(w, es[..|es| - 1]);
    }
  }

  /** A frame of a finished game without the key-up of R leaves the game
      over with its score; its only visible changes are dino and drawing. */
  lemma FrameOverStaysOver(w: World, input: FrameInput, toPixels: int -> int)
    requires InRange(input) && w.gameOver
    requires forall k :: 0 <= k < |input.events| ==> input.events[k] != KeyUp(R)
    ensures var r := FrameResult(w, input, toPixels);
      r.gameOver && r.score == w.score && r.groundPosX == w.groundPosX &&
      r.obstacles == SettleAll(w.obstacles)
  {
    GameOverLatches(w, input.events);
  }

  /** The key-up of R in a finished game restarts the session, whatever came before in the frame. */
  lemma RestartIsFresh(w: World, es: seq<Event>)
    requires es != [] && es[|es| - 1] == KeyUp(R) && OnEvents(w, es[..|es| - 1]).gameOver
    ensures OnEvents(w, es) == Fresh()
  {
  }

  /** The handling of one event in the main loop: the key handlers act on the
      session's dino, and the restart makes a new session object. */
  method HandleEvent(game: DinoGame, e: Event) returns (next: DinoGame)
    modifies game.dino
    ensures next.State() == OnEvent(old(game.State()), e)
    ensures next == game || (fresh(next) && fresh(next.dino))
  {
    next := game;
    if e.KeyDown? {
      if e.key == Space {
        next.dino.Jump();
      }
      if e.key == Down {
        next.dino.Crouch();
      }
    }
    if e.KeyUp? {
      if e.key == Down {
        next.dino.ReleaseCrouch();
      }
      if next.gameOver && e.key == R {
        next := new DinoGame();
      }
    }
  }

  /** The main loop's pass over the pending events, in order; a quit event
      only clears the running flag. */
  method HandleEvents(game: DinoGame, events: seq<Event>) returns (next: DinoGame, running: bool)
    modifies game.dino
    ensures next.State() == OnEvents(old(game.State()), events)
    ensures running == NoQuit(events)
    ensures next == game || (fresh(next) && fresh(next.dino))
  {
    next := game;
    running := true;
    var i := 0;
    while i < |events|
      invariant 0 <= i <= |events|
      invariant next == game || (fresh(next) && fresh(next.dino))
      invariant next.State() == OnEvents(old(game.State()), events[..i])
      invariant running == NoQuit(events[..i])
    {
      var e := events[i];
      assert events[..i + 1][..i] == events[..i];
      if e == Quit {
        running := false;
      }
      next := HandleEvent(next, e);
      i := i + 1;
    }
    assert events[..i] == events;
  }

  /** One pass of the main loop's body on the current session object. */
  method Frame(game: DinoGame, input: FrameInput, toPixels: int -> int) returns (next: DinoGame, running: bool)
    requires InRange(input)
    modifies game, game.dino
    ensures next.State() == FrameResult(old(game.State()), input, toPixels)
    ensures running == NoQuit(input.events)
    ensures next == game || (fresh(next) && fresh(next.dino))
  {
    next, running := HandleEvents(game, input.events);
    next.Update(toPixels, input.r1, input.r2);
    next.Draw();
  }

  /** `main`: a new session, then frames until one of them asks to quit.
      The session it ends with is the one the frames specify, and it is valid. */
  method Run(frames: seq<FrameInput>, toPixels: int -> int) returns (final: World)
    requires forall k :: 0 <= k < |frames| ==> InRange(frames[k])
    ensures final == Play(Fresh(), frames, toPixels)
    ensures WorldValid(final)
  {
    var game := new DinoGame();
    FreshValid();
    var running := true;
    var i := 0;
    while running && i < |frames|
      invariant 0 <= i <= |frames|
      invariant fresh(game) && fresh(game.dino)
      invariant WorldValid(game.State())
      invariant running ==> Play(Fresh(), frames, toPixels) == Play(game.State(), frames[i..], toPixels)
      invariant !running ==> Play(Fresh(), frames, toPixels) == game.State()
    {
      FrameValid(game.State(), frames[i], toPixels);
      assert frames[i..][1..] == frames[i + 1..];
      game, running := Frame(game, frames[i], toPixels);
      i := i + 1;
    }
    final := game.State();
  }
}
