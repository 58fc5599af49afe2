/**
 * Towers and birds: boxes that enter at the right edge of the screen and move
 * left by a fixed speed every tick until they leave on the left.
 */
module Obstacles {
  import opened Screen
  import opened Geometry

  const Speed := 5
  /** The row a bird is put on every time it is drawn. */
  const BirdFlightY := 175
  /** The smallest spacing draw, and so a lower bound on the gap between spawns. */
  const MinSpacing := 300
  const MaxSpacing := 2000

  datatype Kind = Tower | Bird

  datatype Obstacle = Obstacle(kind: Kind, box: Rect)

  /** A new obstacle: its image's box made 25 narrower, at the right edge, on the ground. */
  function Spawned(kind: Kind): (o: Obstacle)
    ensures o.kind == kind && o.box.x == ScreenWidth && o.box.Bottom() == GroundHeight
    ensures kind == Tower ==> o.box.width == 25 && o.box.height == 125
    ensures kind == Bird ==> o.box.width == 125 && o.box.height == 50
  {
    var image := if kind == Tower then Rect(0, 0, 50, 125) else Rect(0, 0, 150, 50);
    Obstacle(kind, image.(width := image.width - 25).(x := ScreenWidth).WithBottom(GroundHeight))
  }

  /** One tick of `update`: the box moves left by the speed. */
  function Move(o: Obstacle): Obstacle {
    o.(box := o.box.(x := o.box.x - Speed))
  }

  /** The side effect of drawing: a bird is put on its flight row. */
  function Settle(o: Obstacle): Obstacle {
    if o.kind == Bird then o.(box := o.box.(y := BirdFlightY)) else o
  }

  /** Drawing every obstacle of the list, in order. */
  function SettleAll(obs: seq<Obstacle>): (s: seq<Obstacle>)
    ensures |s| == |obs|
  {
    seq(|obs|, i requires 0 <= i < |obs| => Settle(obs[i]))
  }

  /** The obstacle has left the screen: its right edge is below 0. */
  predicate Gone(o: Obstacle) {
    o.box.Right() < 0
  }

  /** The list after every obstacle moved and those gone were removed. */
  function Survivors(obs: seq<Obstacle>): (s: seq<Obstacle>)
    ensures |s| <= |obs|
  {
    if obs == [] then []
    else (if Gone(Move(obs[0])) then [] else [Move(obs[0])]) + Survivors(obs[1..])
  }

  /** How many obstacles the sweep removes. */
  function Retired(obs: seq<Obstacle>): nat {
    if obs == [] then 0
    else (if Gone(Move(obs[0])) then 1 else 0) + Retired(obs[1..])
  }

  /** Every position moved one to the right.  The ensures only repeat the
      comprehension, so that callers see it element by element. */
  function Shift(ks: seq<int>): (r: seq<int>)
    ensures |r| == |ks| && forall k :: 0 <= k < |ks| ==> r[k] == ks[k] + 1
  {
    seq(|ks|, k requires 0 <= k < |ks| => ks[k] + 1)
  }

  /** The positions in `obs` of the obstacles that survive the sweep. */
  ghost function KeptIndices(obs: seq<Obstacle>): seq<int> {
    if obs == [] then []
    else if Gone(Move(obs[0])) then Shift(KeptIndices(obs[1..]))
    else [0] + Shift(KeptIndices(obs[1..]))
  }

  /** Survivors and removals together account for every obstacle once. */
  lemma {:induction false} SweepCounts(obs: seq<Obstacle>)
    ensures |KeptIndices(obs)| == |Survivors(obs)| == |obs| - Retired(obs)
  {
    if obs != [] {
      SweepCounts(obs[1..]);
    }
  }

  /** The k-th survivor is the obstacle at the k-th kept position, moved. */
  ghost predicate PositionsMatch(obs: seq<Obstacle>, ks: seq<int>, s: seq<Obstacle>) {
    |ks| == |s| &&
    forall k :: 0 <= k < |ks| ==> 0 <= ks[k] < |obs| && s[k] == Move(obs[ks[k]])
  }

  /** The k-th survivor is the obstacle at the k-th kept position, moved. */
  lemma {:induction false} SweepPositions(obs: seq<Obstacle>)
    ensures PositionsMatch(obs, KeptIndices(obs), Survivors(obs))
  {
    if obs != [] {
      var ks, s := KeptIndices(obs[1..]), Survivors(obs[1..]);
      SweepPositions(obs[1..]);
      PositionsShift(obs, ks, s);
      if !Gone(Move(obs[0])) {
        PositionsCons(obs, Shift(ks), s);
      }
    }
  }

  /** Putting the front obstacle back moves every kept position one to the right. */
  lemma PositionsShift(obs: seq<Obstacle>, ks: seq<int>, s: seq<Obstacle>)
    requires obs != [] && PositionsMatch(obs[1..], ks, s)
    ensures PositionsMatch(obs, Shift(ks), s)
  {
    forall k | 0 <= k < |ks|
      ensures 0 <= Shift(ks)[k] < |obs| && s[k] == Move(obs[Shift(ks)[k]])
    {
      assert obs[ks[k] + 1] == obs[1..][ks[k]];
    }
  }

  /** Keeping the front obstacle adds position 0 before the other positions. */
  lemma PositionsCons(obs: seq<Obstacle>, ks: seq<int>, s: seq<Obstacle>)
    requires obs != [] && PositionsMatch(obs, ks, s)
    ensures PositionsMatch(obs, [0] + ks, [Move(obs[0])] + s)
  {
    forall k | 0 <= k < |ks| + 1
      ensures 0 <= ([0] + ks)[k] < |obs| && ([Move(obs[0])] + s)[k] == Move(obs[([0] + ks)[k]])
    {
      if k > 0 {
        assert ([0] + ks)[k] == ks[k - 1] && ([Move(obs[0])] + s)[k] == s[k - 1];
      }
    }
  }

  /** The kept positions increase: survivors stay in their order. */
  lemma {:induction false} SweepOrder(obs: seq<Obstacle>)
    ensures forall k, l :: 0 <= k < l < |KeptIndices(obs)| ==> KeptIndices(obs)[k] < KeptIndices(obs)[l]
  {
    if obs != [] {
      SweepOrder(obs[1..]);
      SweepPositions(obs[1..]);
    }
  }

  /** A position is kept exactly when its obstacle is still on screen after moving. */
  lemma {:induction false} SweepMembership(obs: seq<Obstacle>)
    ensures forall i :: 0 <= i < |obs| ==> (i in KeptIndices(obs) <==> !Gone(Move(obs[i])))
  {
    if obs != [] {
      var tail := obs[1..];
      SweepMembership(tail);
      var rest := KeptIndices(tail);
      var shifted := Shift(rest);
      var ks := KeptIndices(obs);
      assert ks == if Gone(Move(obs[0])) then shifted else [0] + shifted;
      forall i | 0 <= i < |obs|
        ensures i in ks <==> !Gone(Move(obs[i]))
      {
        if i == 0 {
          if 0 in shifted {
            var k :| 0 <= k < |shifted| && shifted[k] == 0;
            SweepPositions(tail);
          }
        } else {
          assert obs[i] == tail[i - 1];
          if i - 1 in rest {
            var k :| 0 <= k < |rest| && rest[k] == i - 1;
            assert shifted[k] == i;
          }
          if i in shifted {
            var k :| 0 <= k < |shifted| && shifted[k] == i;
            assert rest[k] == i - 1;
          }
        }
      }
    }
  }

  /** The sweep removes exactly the obstacles whose right edge is below 0
      after moving, keeps the others moved by the speed and in their order,
      and counts every removal once. */
  lemma SweepCharacterized(obs: seq<Obstacle>)
    ensures |KeptIndices(obs)| == |Survivors(obs)| == |obs| - Retired(obs)
    ensures forall k :: 0 <= k < |KeptIndices(obs)| ==>
      0 <= KeptIndices(obs)[k] < |obs| && Survivors(obs)[k] == Move(obs[KeptIndices(obs)[k]])
    ensures forall k, l :: 0 <= k < l < |KeptIndices(obs)| ==> KeptIndices(obs)[k] < KeptIndices(obs)[l]
    ensures forall i :: 0 <= i < |obs| ==> (i in KeptIndices(obs) <==> !Gone(Move(obs[i])))
  {
    SweepCounts(obs);
    SweepPositions(obs);
    SweepOrder(obs);
    SweepMembership(obs);
  }

  /** Appending one obstacle to the list extends the sweep by that obstacle alone. */
  lemma SweepSnoc(obs: seq<Obstacle>, o: Obstacle)
    ensures Survivors(obs + [o]) == Survivors(obs) + (if Gone(Move(o)) then [] else [Move(o)])
    ensures Retired(obs + [o]) == Retired(obs) + (if Gone(Move(o)) then 1 else 0)
  {
    SurvivorsSnoc(obs, o);
    RetiredSnoc(obs, o);
  }

  lemma {:induction false} SurvivorsSnoc(obs: seq<Obstacle>, o: Obstacle)
    ensures Survivors(obs + [o]) == Survivors(obs) + (if Gone(Move(o)) then [] else [Move(o)])
  {
    if obs == [] {
      assert [o][1..] == [];
    } else {
      var front := if Gone(Move(obs[0])) then [] else [Move(obs[0])];
      var back := if Gone(Move(o)) then [] else [Move(o)];
      assert (obs + [o])[0] == obs[0];
      assert (obs + [o])[1..] == obs[1..] + [o];
      SurvivorsSnoc(obs[1..], o);
      calc {
        Survivors(obs + [o]);
        front + Survivors(obs[1..] + [o]);
        front + (Survivors(obs[1..]) + back);
        (front + Survivors(obs[1..])) + back;
      }
    }
  }

  lemma {:induction false} RetiredSnoc(obs: seq<Obstacle>, o: Obstacle)
    ensures Retired(obs + [o]) == Retired(obs) + (if Gone(Move(o)) then 1 else 0)
  {
    if obs == [] {
      assert [o][1..] == [];
    } else {
      assert (obs + [o])[0] == obs[0];
      assert (obs + [o])[1..] == obs[1..] + [o];
      RetiredSnoc(obs[1..], o);
    }
  }

  /** One step of the in-place sweep: after the first i obstacles of `pending`
      were handled, the live list holds their survivors followed by the
      untouched rest, and the i-th obstacle sits right after the survivors.
      Removing it, or storing it moved, gives the live list after i + 1 steps. */
  lemma SweepStep(pending: seq<Obstacle>, i: nat, live: seq<Obstacle>, j: nat)
    requires i < |pending|
    requires live == Survivors(pending[..i]) + pending[i..] && j == |Survivors(pending[..i])|
    ensures j < |live| && live[j] == pending[i]
    ensures Gone(Move(live[j])) ==>
      live[..j] + live[j + 1..] == Survivors(pending[..i + 1]) + pending[i + 1..] &&
      j == |Survivors(pending[..i + 1])| &&
      Retired(pending[..i + 1]) == Retired(pending[..i]) + 1
    ensures !Gone(Move(live[j])) ==>
      live[j := Move(live[j])] == Survivors(pending[..i + 1]) + pending[i + 1..] &&
      j + 1 == |Survivors(pending[..i + 1])| &&
      Retired(pending[..i + 1]) == Retired(pending[..i])
  {
    var done := Survivors(pending[..i]);
    var o := Move(pending[i]);
    assert pending[..i + 1] == pending[..i] + [pending[i]];
    SweepSnoc(pending[..i], pending[i]);
    assert pending[i..] == [pending[i]] + pending[i + 1..];
    assert live[j] == pending[i];
    if Gone(o) {
      assert live[..j] == done;
      assert live[j + 1..] == pending[i + 1..];
    } else {
      assert live[j := o] == done + [o] + pending[i + 1..];
    }
  }

  /** The shape an obstacle keeps from its spawn on: a settled or unsettled
      bird, or a tower, at a multiple of the speed and never right of the screen. */
  ghost predicate WellFormed(o: Obstacle) {
    (o.kind == Tower ==> o.box == Rect(o.box.x, 175, 25, 125)) &&
    (o.kind == Bird ==> o.box == Rect(o.box.x, 250, 125, 50) || o.box == Rect(o.box.x, BirdFlightY, 125, 50)) &&
    o.box.x <= ScreenWidth && o.box.x % Speed == 0
  }

  /** Every obstacle is well formed and they stand left to right in list
      order, more than the smallest spacing apart. */
  ghost predicate Spaced(obs: seq<Obstacle>) {
    (forall i :: 0 <= i < |obs| ==> WellFormed(obs[i])) &&
    (forall i, j :: 0 <= i < j < |obs| ==> obs[i].box.x + MinSpacing < obs[j].box.x)
  }

  /** A move keeps an obstacle well formed and takes it left of the spawn column. */
  lemma MoveWellFormed(o: Obstacle)
    requires WellFormed(o)
    ensures WellFormed(Move(o)) && Move(o).box.x < ScreenWidth
  {
  }

  /** The sweep keeps the list well formed and spaced; survivors are left of the spawn column. */
  lemma SweepSpaced(obs: seq<Obstacle>)
    requires Spaced(obs)
    ensures Spaced(Survivors(obs))
    ensures forall i :: 0 <= i < |Survivors(obs)| ==> Survivors(obs)[i].box.x < ScreenWidth
  {
    SweepPositions(obs);
    SweepOrder(obs);
    var s, ks := Survivors(obs), KeptIndices(obs);
    forall i | 0 <= i < |s|
      ensures WellFormed(s[i]) && s[i].box.x < ScreenWidth
    {
      MoveWellFormed(obs[ks[i]]);
    }
    forall i, j | 0 <= i < j < |s|
      ensures s[i].box.x + MinSpacing < s[j].box.x
    {
      assert s[i].box.x == obs[ks[i]].box.x - Speed && s[j].box.x == obs[ks[j]].box.x - Speed;
    }
  }

  /** An obstacle is appended only when the list is empty or the last one has
      moved further left than the spacing drawn for this check. */
  predicate HasRoom(obs: seq<Obstacle>, r: int) {
    |obs| == 0 || obs[|obs| - 1].box.x < ScreenWidth - r
  }

  /** `spawn_obstacle` and `spawn_bird`. */
  function SpawnIfRoom(obs: seq<Obstacle>, kind: Kind, r: int): seq<Obstacle> {
    if HasRoom(obs, r) then obs + [Spawned(kind)] else obs
  }

  /** Spawning keeps the list spaced: a new obstacle comes right of every other
      one, more than the spacing drawn away from the last. */
  lemma SpawnSpaced(obs: seq<Obstacle>, kind: Kind, r: int)
    requires Spaced(obs) && MinSpacing <= r <= MaxSpacing
    ensures Spaced(SpawnIfRoom(obs, kind, r))
  {
  }

  /** Drawing puts every bird on its flight row and changes nothing else;
      drawing twice is drawing once. */
  lemma SettleAllEffect(obs: seq<Obstacle>)
    ensures forall i :: 0 <= i < |obs| ==>
      SettleAll(obs)[i].kind == obs[i].kind &&
      SettleAll(obs)[i].box == (if obs[i].kind == Bird then obs[i].box.(y := BirdFlightY) else obs[i].box)
    ensures SettleAll(SettleAll(obs)) == SettleAll(obs)
  {
  }

  lemma SettleAllSpaced(obs: seq<Obstacle>)
    requires Spaced(obs)
    ensures Spaced(SettleAll(obs))
  {
  }

  /** A box moved n ticks. */
  function MoveN(o: Obstacle, n: nat): Obstacle {
    if n == 0 then o else Move(MoveN(o, n - 1))
  }

  lemma {:induction false} MoveNShift(o: Obstacle, n: nat)
    ensures MoveN(o, n) == o.(box := o.box.(x := o.box.x - Speed * n))
  {
    if n > 0 {
      MoveNShift(o, n - 1);
    }
  }

  /** A tower survives 165 moves and is gone on its 166th; a bird is gone on its 186th. */
  lemma Lifetimes(n: nat)
    ensures !Gone(MoveN(Spawned(Tower), n)) <==> n <= 165
    ensures !Gone(MoveN(Spawned(Bird), n)) <==> n <= 185
  {
    MoveNShift(Spawned(Tower), n);
    MoveNShift(Spawned(Bird), n);
  }
}
