/** Parking by least rotation: the planner, its cost, and what executing its
    plan does to the pose. Sine, cosine, length and bearing are parameters known
    only through the laws of `Plane.Valid`. */
module Park {
  import opened Angles
  import opened Reals

  datatype Plane = Plane(
    cosd: real -> real, sind: real -> real,       // of degrees
    dist: (real, real) -> real,                   // hypot
    bearing: (real, real) -> real)                // atan2, in degrees
  {
    ghost predicate Valid() {
      && (forall a, b :: SameDirection(a, b) ==> cosd(a) == cosd(b) && sind(a) == sind(b))
      && (forall a :: cosd(a + 180.0) == -cosd(a) && sind(a + 180.0) == -sind(a))
      && (forall a :: Times(cosd(a), cosd(a)) + Times(sind(a), sind(a)) == 1.0)
      && (forall dx, dy :: dist(dx, dy) >= 0.0 && InTurn(bearing(dx, dy)) &&
            Times(dist(dx, dy), cosd(bearing(dx, dy))) == dx && Times(dist(dx, dy), sind(bearing(dx, dy))) == dy)
    }
  }

  datatype Pose = Pose(x: real, y: real, h: real)

  datatype Move = Pivot(degrees: real) | Drive(cm: real)

  /** Total degrees of commanded rotation. */
  function RotationCost(moves: seq<Move>): real {
    if moves == [] then 0.0
    else RotationCost(moves[..|moves| - 1]) +
         match moves[|moves| - 1] case Pivot(v) => Abs(v) case Drive(_) => 0.0
  }

  method Cost(moves: seq<Move>) returns (cost: real)
    ensures cost == RotationCost(moves)
  {
    cost := 0.0;
    for i := 0 to |moves|
      invariant cost == RotationCost(moves[..i])
    {
      assert moves[..i + 1][..i] == moves[..i];
      if moves[i].Pivot? {
        cost := cost + Abs(moves[i].degrees);
      }
    }
    assert moves[..|moves|] == moves;
  }

  // ---- executing a plan ---------------------------------------------------------------

  function Moved(g: Plane, p: Pose, m: Move, slip: real, travel: real): Pose {
    match m
    case Pivot(v) => Turned(p, Times(v, slip))
    case Drive(v) => Advanced(g, p, Times(v, travel))
  }

  function Turned(p: Pose, d: real): Pose {
    p.(h := Wrap(p.h + d))
  }

  function Advanced(g: Plane, p: Pose, d: real): Pose {
    p.(x := p.x + Times(d, g.cosd(p.h)), y := p.y + Times(d, g.sind(p.h)))
  }

  function Applied(g: Plane, p: Pose, moves: seq<Move>, slip: real, travel: real): Pose {
    if moves == [] then p
    else Moved(g, Applied(g, p, moves[..|moves| - 1], slip, travel), moves[|moves| - 1], slip, travel)
  }

  /** All pivots of a plan together, and all its drives. */
  function Pivots(moves: seq<Move>): real {
    if moves == [] then 0.0
    else Pivots(moves[..|moves| - 1]) + match moves[|moves| - 1] case Pivot(v) => v case Drive(_) => 0.0
  }

  function Drives(moves: seq<Move>): real {
    if moves == [] then 0.0
    else Drives(moves[..|moves| - 1]) + match moves[|moves| - 1] case Pivot(_) => 0.0 case Drive(v) => v
  }

  ghost predicate Straight(moves: seq<Move>) {
    forall i :: 0 <= i < |moves| ==> moves[i].Drive?
  }

  /** The robot turns by slip times what it was told, and by nothing else; once it has
      pivoted, its heading is the one of that direction in (-180, 180]. */
  lemma {:induction false} TurnsBySlip(g: Plane, p: Pose, moves: seq<Move>, slip: real, travel: real)
    ensures SameDirection(Applied(g, p, moves, slip, travel).h, p.h + Times(slip, Pivots(moves)))
    ensures !Straight(moves) ==> InTurn(Applied(g, p, moves, slip, travel).h)
  {
    hide Wrap, SameDirection, InTurn, Times;
    if moves == [] {
      NoTurn(p.h, slip);
    } else {
      var f, m := moves[..|moves| - 1], moves[|moves| - 1];
      TurnsBySlip(g, p, f, slip, travel);
      if m.Pivot? {
        OneTurn(p.h, Applied(g, p, f, slip, travel).h, Pivots(f), m.degrees, slip);
      } else {
        assert Pivots(moves) == Pivots(f);
        assert Straight(f) ==> Straight(moves);
      }
    }
  }

  lemma OneTurn(start: real, h: real, turned: real, v: real, slip: real)
    requires SameDirection(h, start + Times(slip, turned))
    ensures var w := Wrap(h + Times(v, slip)); InTurn(w) && SameDirection(w, start + Times(slip, turned + v))
  {
    hide *;
    var d := Times(v, slip);
    Ring(slip, turned, v);
    Ring(slip, v, 0.0);
    WrapLands(h + d);
    SameDirectionShifts(h, start + Times(slip, turned), d);
    SameDirectionChains(Wrap(h + d), h + d, start + Times(slip, turned) + d);
  }

  lemma NoTurn(h: real, slip: real)
    ensures SameDirection(h, h + Times(slip, 0.0))
  {
    assert Apart(h, h + Times(slip, 0.0), 0);
  }

  lemma SameDirectionChains(a: real, b: real, c: real)
    requires SameDirection(a, b) && SameDirection(b, c)
    ensures SameDirection(a, c)
  {
    var i :| Apart(a, b, i);
    var j :| Apart(b, c, j);
    assert Apart(a, c, i + j);
  }

  /** Without a pivot it goes travel times the drives, along its heading, and keeps that. */
  lemma {:induction false} GoesByTravel(g: Plane, p: Pose, moves: seq<Move>, slip: real, travel: real)
    requires Straight(moves)
    ensures var d := travel * Drives(moves);
      Applied(g, p, moves, slip, travel) == Pose(p.x + d * g.cosd(p.h), p.y + d * g.sind(p.h), p.h)
  {
    if moves != [] {
      var f, m := moves[..|moves| - 1], moves[|moves| - 1];
      assert m.Drive?;
      GoesByTravel(g, p, f, slip, travel);
      MoreTravel(g, p, travel, Drives(f), m.cm);
    }
  }

  lemma MoreTravel(g: Plane, p: Pose, travel: real, far: real, cm: real)
    ensures var d, e := travel * far, travel * (far + cm);
      && p.x + d * g.cosd(p.h) + Times(Times(cm, travel), g.cosd(p.h)) == p.x + e * g.cosd(p.h)
      && p.y + d * g.sind(p.h) + Times(Times(cm, travel), g.sind(p.h)) == p.y + e * g.sind(p.h)
  {
    var c, s := g.cosd(p.h), g.sind(p.h);
    assert travel * (far + cm) * c == travel * far * c + cm * travel * c;
    assert travel * (far + cm) * s == travel * far * s + cm * travel * s;
  }

  /** A plan is executed one part after the other, so both hold of any stretch of it. */
  lemma {:induction false} AppliedJoins(g: Plane, p: Pose, a: seq<Move>, b: seq<Move>, slip: real, travel: real)
    ensures Applied(g, p, a + b, slip, travel) == Applied(g, Applied(g, p, a, slip, travel), b, slip, travel)
  {
    hide Moved;
    if b == [] {
      assert a + b == a;
    } else {
      assert (a + b)[..|a + b| - 1] == a + b[..|b| - 1];
      AppliedJoins(g, p, a, b[..|b| - 1], slip, travel);
    }
  }

  method Apply(g: Plane, pose: Pose, moves: seq<Move>, slip: real, travel: real) returns (end: Pose)
    ensures end == Applied(g, pose, moves, slip, travel)
    ensures SameDirection(end.h, pose.h + Times(slip, Pivots(moves))) && (!Straight(moves) ==> InTurn(end.h))
    ensures Straight(moves) ==> var d := travel * Drives(moves);
      end == Pose(pose.x + d * g.cosd(pose.h), pose.y + d * g.sind(pose.h), pose.h)
  {
    hide Times, Wrap, SameDirection;
    var x, y, h := pose.x, pose.y, pose.h;
    for i := 0 to |moves|
      invariant Pose(x, y, h) == Applied(g, pose, moves[..i], slip, travel)
    {
      assert moves[..i + 1][..i] == moves[..i];
      ghost var before := Pose(x, y, h);
      assert Applied(g, pose, moves[..i + 1], slip, travel) == Moved(g, before, moves[i], slip, travel);
      match moves[i] {
        case Pivot(v) => h := WrapDegrees(h + Times(v, slip));
        case Drive(v) =>
          var d := Times(v, travel);
          x := x + Times(d, g.cosd(h));
          y := y + Times(d, g.sind(h));
      }
      assert Pose(x, y, h) == Moved(g, before, moves[i], slip, travel);
    }
    assert moves[..|moves|] == moves;
    end := Pose(x, y, h);
    TurnsBySlip(g, pose, moves, slip, travel);
    if Straight(moves) {
      GoesByTravel(g, pose, moves, slip, travel);
    }
  }

  // ---- the two approaches ---------------------------------------------------------------

  datatype Leg = Leg(turn: real, drive: real, face: real)

  /** Turn then drive onto the target point, nose first or tail first. */
  function LegTo(g: Plane, pose: Pose, tx: real, ty: real, reverse: bool): Leg {
    var dx, dy := tx - pose.x, ty - pose.y;
    var face := if reverse then Wrap(g.bearing(dx, dy) + 180.0) else g.bearing(dx, dy);
    Leg(Wrap(face - pose.h), if reverse then -g.dist(dx, dy) else g.dist(dx, dy), face)
  }

  /** Rotation of a whole approach: aim, drive, face the target heading. */
  function ApproachCost(g: Plane, pose: Pose, target: Pose, reverse: bool): real {
    var leg := LegTo(g, pose, target.x, target.y, reverse);
    Abs(leg.turn) + Abs(Wrap(target.h - leg.face))
  }

  lemma WrapShortens(v: real)
    ensures Abs(Wrap(v)) <= Abs(v) && Abs(Wrap(v)) <= 180.0
    ensures InTurn(v) ==> Wrap(v) == v
  {
    WrapLands(v);
    if InTurn(v) {
      assert Apart(v, v, 0);
      WrapIsUnique(v, v);
    }
  }

  /** A direction and its opposite share half a turn between them. */
  lemma OppositesShareHalfTurn(a: real)
    ensures Abs(Wrap(a)) + Abs(Wrap(a + 180.0)) == 180.0
  {
    var w := Wrap(a);
    WrapLands(a);
    SameDirectionShifts(w, a, 180.0);
    WrapOfSame(w + 180.0, a + 180.0);
    var v := if w > 0.0 then w - 180.0 else w + 180.0;
    assert Apart(v, w + 180.0, if w > 0.0 then -1 else 0);
    WrapIsUnique(w + 180.0, v);
  }

  /** The two approaches rotate one full turn between them, so the better one
      never more than half of it. */
  lemma ApproachesSumToFullTurn(g: Plane, pose: Pose, target: Pose)
    ensures ApproachCost(g, pose, target, false) + ApproachCost(g, pose, target, true) == 360.0
  {
    var b := g.bearing(target.x - pose.x, target.y - pose.y);
    var face := Wrap(b + 180.0);
    WrapLands(b + 180.0);
    OppositesShareHalfTurn(b - pose.h);
    SameDirectionShifts(face, b + 180.0, -pose.h);
    assert b + 180.0 + -pose.h == b - pose.h + 180.0;
    WrapOfSame(face - pose.h, b - pose.h + 180.0);
    OppositesShareHalfTurn(target.h - b);
    var k :| Apart(face, b + 180.0, k);
    assert Apart(target.h - face, target.h - b + 180.0, -k - 1);
    WrapOfSame(target.h - face, target.h - b + 180.0);
  }

  /** Any approach turns at least as far as the heading error itself. */
  lemma ApproachCostsHeading(g: Plane, pose: Pose, target: Pose, reverse: bool)
    ensures Abs(Wrap(target.h - pose.h)) <= ApproachCost(g, pose, target, reverse)
  {
    var leg := LegTo(g, pose, target.x, target.y, reverse);
    var t1, t2 := leg.turn, Wrap(target.h - leg.face);
    TurnsAddUp(leg.face - pose.h, target.h - leg.face);
    WrapShortens(t1 + t2);
  }

  lemma TurnsAddUp(a: real, b: real)
    ensures Wrap(Wrap(a) + Wrap(b)) == Wrap(a + b)
  {
    WrapLands(a);
    WrapLands(b);
    var j :| Apart(Wrap(a), a, j);
    var k :| Apart(Wrap(b), b, k);
    assert Apart(Wrap(a) + Wrap(b), a + b, j + k);
    WrapOfSame(Wrap(a) + Wrap(b), a + b);
  }

  // ---- the planner -------------------------------------------------------------------------

  /** The offset to the target in the frame of the target heading. */
  function Along(g: Plane, pose: Pose, target: Pose): real {
    Times(g.cosd(target.h), target.x - pose.x) + Times(g.sind(target.h), target.y - pose.y)
  }

  function Across(g: Plane, pose: Pose, target: Pose): real {
    Times(-g.sind(target.h), target.x - pose.x) + Times(g.cosd(target.h), target.y - pose.y)
  }

  datatype Tolerance = Tolerance(pos: real, head: real, cross: real)

  function Distance(g: Plane, pose: Pose, target: Pose): real {
    g.dist(target.x - pose.x, target.y - pose.y)
  }

  /** Already aimed, and off only along the heading. */
  predicate OnTrack(g: Plane, pose: Pose, target: Pose, tol: Tolerance) {
    Abs(Wrap(target.h - pose.h)) <= tol.head && Abs(Across(g, pose, target)) <= tol.cross
  }

  ghost predicate RotatesLeast(g: Plane, pose: Pose, target: Pose, moves: seq<Move>) {
    RotationCost(moves) <= 180.0 &&
    forall reverse :: RotationCost(moves) <= ApproachCost(g, pose, target, reverse)
  }

  predicate FacesWithin(g: Plane, pose: Pose, target: Pose, moves: seq<Move>, slack: real) {
    Abs(Wrap(target.h - Applied(g, pose, moves, 1.0, 1.0).h)) <= slack
  }

  predicate LandsOn(g: Plane, pose: Pose, target: Pose, moves: seq<Move>) {
    var end := Applied(g, pose, moves, 1.0, 1.0);
    end.x == target.x && end.y == target.y
  }

  method Plan(g: Plane, pose: Pose, target: Pose, tol: Tolerance) returns (moves: seq<Move>)
    requires g.Valid()
    // never more than half a turn, and never more than either approach
    ensures RotatesLeast(g, pose, target, moves)
    // executed exactly, it faces the target to twice the tolerance
    ensures tol.head >= 0.0 ==> FacesWithin(g, pose, target, moves, 2.0 * tol.head)
    // and stands on the target point whenever it aimed before driving there
    ensures Distance(g, pose, target) > tol.pos && moves != [] && moves[0].Pivot? ==>
              LandsOn(g, pose, target, moves)
    // already there, it only turns, and by exactly the heading error
    ensures Distance(g, pose, target) <= tol.pos && moves != [] ==>
              |moves| == 1 && moves[0].Pivot? && FacesWithin(g, pose, target, moves, 0.0)
    // on track, it never turns: one drive closes the gap along the heading (DriveClosesGap)
    ensures Abs(Wrap(target.h - pose.h)) <= tol.head && Abs(Across(g, pose, target)) <= tol.cross
              && Distance(g, pose, target) > tol.pos && moves != [] ==>
              moves == [Drive(Along(g, pose, target))]
    // it does nothing only when parked, or on track and close enough along it
    ensures moves == [] <==>
      (Distance(g, pose, target) <= tol.pos && Abs(Wrap(target.h - pose.h)) <= tol.head) ||
      (Abs(Wrap(target.h - pose.h)) <= tol.head && Abs(Across(g, pose, target)) <= tol.cross
        && Distance(g, pose, target) > tol.pos && Abs(Along(g, pose, target)) <= tol.pos)
  {
    hide RotatesLeast, FacesWithin, LandsOn, ApproachCost, Applied, RotationCost, Wrap, Plane.Valid, Times;
    var dist := g.dist(target.x - pose.x, target.y - pose.y);
    var herr := WrapDegrees(target.h - pose.h);
    if dist <= tol.pos && Abs(herr) <= tol.head {
      DoNothing(g, pose, target, tol);
      return [];
    }
    if dist <= tol.pos {
      PivotOnly(g, pose, target, tol);
      return [Pivot(herr)];
    }
    if Abs(herr) <= tol.head {
      var along := Along(g, pose, target);
      var cross := Across(g, pose, target);
      if Abs(cross) <= tol.cross {
        if Abs(along) <= tol.pos {
          DoNothing(g, pose, target, tol);
          return [];
        }
        DriveOnly(g, pose, target, along, tol);
        return [Drive(along)];
      }
    }
    moves := Approach(g, pose, target, tol);
  }

  /** The general case: the approach that rotates less, nose first on a tie. */
  method Approach(g: Plane, pose: Pose, target: Pose, tol: Tolerance) returns (moves: seq<Move>)
    requires g.Valid() && Distance(g, pose, target) > tol.pos
    ensures RotatesLeast(g, pose, target, moves)
    ensures tol.head >= 0.0 ==> FacesWithin(g, pose, target, moves, 2.0 * tol.head)
    ensures moves != [] && (moves[0].Pivot? ==> LandsOn(g, pose, target, moves))
    ensures exists reverse ::
      moves == ApproachMoves(LegTo(g, pose, target.x, target.y, reverse),
                             Wrap(target.h - LegTo(g, pose, target.x, target.y, reverse).face), tol)
  {
    hide RotatesLeast, FacesWithin, LandsOn, Wrap, Plane.Valid, Times, Applied, RotationCost, Distance;
    var forward, backward := LegTo(g, pose, target.x, target.y, false), LegTo(g, pose, target.x, target.y, true);
    var leg, turn2 := forward, Wrap(target.h - forward.face);
    var turn3 := Wrap(target.h - backward.face);
    var reverse := Abs(backward.turn) + Abs(turn3) < Abs(forward.turn) + Abs(turn2);
    if reverse {
      leg, turn2 := backward, turn3;
    }
    assert ApproachCost(g, pose, target, reverse) <= ApproachCost(g, pose, target, !reverse);
    hide LegTo, ApproachCost;
    moves := [];
    if Abs(leg.turn) > tol.head {
      moves := [Pivot(leg.turn)];
    }
    if Abs(leg.drive) > tol.pos {
      moves := moves + [Drive(leg.drive)];
    }
    if Abs(turn2) > tol.head {
      moves := moves + [Pivot(turn2)];
    }
    assert moves == ApproachMoves(leg, turn2, tol);
    ApproachIsGood(g, pose, target, reverse, tol);
    ApproachRotatesLeast(g, pose, target, reverse, moves);
  }

  /** The approach with each pivot below tolerance left out. */
  function ApproachMoves(leg: Leg, turn2: real, tol: Tolerance): seq<Move> {
    var aimed := if Abs(leg.turn) > tol.head then [Pivot(leg.turn)] else [];
    var there := if Abs(leg.drive) > tol.pos then aimed + [Drive(leg.drive)] else aimed;
    if Abs(turn2) > tol.head then there + [Pivot(turn2)] else there
  }

  lemma ApproachRotatesLeast(g: Plane, pose: Pose, target: Pose, reverse: bool, moves: seq<Move>)
    requires ApproachCost(g, pose, target, reverse) <= ApproachCost(g, pose, target, !reverse)
    requires RotationCost(moves) <= ApproachCost(g, pose, target, reverse)
    ensures RotatesLeast(g, pose, target, moves)
  {
    ApproachesSumToFullTurn(g, pose, target);
    hide ApproachCost, RotationCost;
  }

  /** Turning by the heading error, or not at all, beats every approach. */
  lemma CheapRotatesLeast(g: Plane, pose: Pose, target: Pose, moves: seq<Move>)
    requires RotationCost(moves) <= Abs(Wrap(target.h - pose.h))
    ensures RotatesLeast(g, pose, target, moves)
  {
    WrapShortens(target.h - pose.h);
    ApproachCostsHeading(g, pose, target, false);
    ApproachCostsHeading(g, pose, target, true);
    hide ApproachCost, RotationCost, Wrap;
  }

  lemma DoNothing(g: Plane, pose: Pose, target: Pose, tol: Tolerance)
    requires Abs(Wrap(target.h - pose.h)) <= tol.head
    ensures RotatesLeast(g, pose, target, []) && FacesWithin(g, pose, target, [], 2.0 * tol.head)
  {
    CheapRotatesLeast(g, pose, target, []);
  }

  lemma PivotOnly(g: Plane, pose: Pose, target: Pose, tol: Tolerance)
    ensures var moves := [Pivot(Wrap(target.h - pose.h))];
      && RotatesLeast(g, pose, target, moves) && FacesWithin(g, pose, target, moves, 0.0)
      && (tol.head >= 0.0 ==> FacesWithin(g, pose, target, moves, 2.0 * tol.head))
  {
    var v := Wrap(target.h - pose.h);
    var moves := [Pivot(v)];
    assert moves[..0] == [];
    assert RotationCost(moves) == Abs(v);
    CheapRotatesLeast(g, pose, target, moves);
    assert Applied(g, pose, moves, 1.0, 1.0).h == Wrap(pose.h + v);
    FacesTarget(pose.h, target.h, v);
  }

  lemma DriveOnly(g: Plane, pose: Pose, target: Pose, cm: real, tol: Tolerance)
    requires Abs(Wrap(target.h - pose.h)) <= tol.head
    ensures RotatesLeast(g, pose, target, [Drive(cm)])
    ensures FacesWithin(g, pose, target, [Drive(cm)], 2.0 * tol.head)
  {
    assert [Drive(cm)][..0] == [];
    assert RotationCost([Drive(cm)]) == 0.0;
    CheapRotatesLeast(g, pose, target, [Drive(cm)]);
    assert Applied(g, pose, [Drive(cm)], 1.0, 1.0).h == pose.h;
  }

  /** Turning by the wrapped error faces the target. */
  lemma FacesTarget(h: real, th: real, v: real)
    requires SameDirection(h + v, th) || v == Wrap(th - h)
    ensures Wrap(th - Wrap(h + v)) == 0.0
  {
    WrapLands(th - h);
    WrapLands(h + v);
    if v == Wrap(th - h) {
      SameDirectionShifts(v, th - h, h);
    }
    SameDirectionTrans(Wrap(h + v), h + v, th);
    SameDirectionShifts(Wrap(h + v), th, -Wrap(h + v));
    WrapIsUnique(th - Wrap(h + v), 0.0);
  }

  lemma Appended(g: Plane, p: Pose, moves: seq<Move>, m: Move)
    ensures Applied(g, p, moves + [m], 1.0, 1.0) == Moved(g, Applied(g, p, moves, 1.0, 1.0), m, 1.0, 1.0)
    ensures RotationCost(moves + [m]) == RotationCost(moves) + if m.Pivot? then Abs(m.degrees) else 0.0
  {
    assert (moves + [m])[..|moves|] == moves;
  }

  /** The leg's drive, made along the leg's own facing, covers the offset. */
  lemma DriveCoversOffset(g: Plane, pose: Pose, target: Pose, reverse: bool)
    requires g.Valid()
    ensures var leg := LegTo(g, pose, target.x, target.y, reverse);
      && Times(leg.drive, g.cosd(leg.face)) == target.x - pose.x
      && Times(leg.drive, g.sind(leg.face)) == target.y - pose.y
  {
    var dx, dy := target.x - pose.x, target.y - pose.y;
    var b, d := g.bearing(dx, dy), g.dist(dx, dy);
    var c, s := g.cosd(b), g.sind(b);
    assert Times(d, c) == dx && Times(d, s) == dy;
    WrapLands(b + 180.0);
    assert g.cosd(Wrap(b + 180.0)) == -c && g.sind(Wrap(b + 180.0)) == -s;
    Ring(d, c, 0.0);
    Ring(d, s, 0.0);
    Ring(-c, d, 0.0);
    Ring(c, d, 0.0);
    Ring(-s, d, 0.0);
    Ring(s, d, 0.0);
    Ring(d, -c, 0.0);
    Ring(d, -s, 0.0);
    hide Plane.Valid, Wrap, Times;
  }

  /** Leaving out a pivot of `t` leaves the heading short by exactly `t`. */
  lemma PivotOrNot(h: real, aim: real, short: real, t: real, turned: bool)
    requires SameDirection(h + t, aim - short)
    ensures SameDirection(if turned then Wrap(h + t) else h, aim - short - if turned then 0.0 else t)
  {
    if turned {
      WrapLands(h + t);
      SameDirectionTrans(Wrap(h + t), h + t, aim - short);
      assert aim - short - 0.0 == aim - short;
    } else {
      SameDirectionShifts(h + t, aim - short, -t);
      assert h + t + -t == h && aim - short + -t == aim - short - t;
    }
  }

  lemma HeadingError(h: real, th: real, e1: real, e2: real, tol: real)
    requires SameDirection(h, th - e1 - e2) && Abs(e1) <= tol && Abs(e2) <= tol
    ensures Abs(Wrap(th - h)) <= 2.0 * tol
  {
    SameDirectionShifts(h, th - e1 - e2, 0.0);
    var k :| Apart(th - e1 - e2, h, k);
    assert Apart(th - h, e1 + e2, k);
    WrapOfSame(th - h, e1 + e2);
    WrapShortens(e1 + e2);
  }

  /** Where an approach leaves the robot facing. */
  lemma ApproachFaces(g: Plane, pose: Pose, target: Pose, leg: Leg, tol: Tolerance)
    requires leg.turn == Wrap(leg.face - pose.h) && tol.head >= 0.0
    ensures var t2 := Wrap(target.h - leg.face);
      var h1 := if Abs(leg.turn) > tol.head then Wrap(pose.h + leg.turn) else pose.h;
      var h2 := if Abs(t2) > tol.head then Wrap(h1 + t2) else h1;
      Abs(Wrap(target.h - h2)) <= 2.0 * tol.head
  {
    var t1, t2 := leg.turn, Wrap(target.h - leg.face);
    var first, last := Abs(t1) > tol.head, Abs(t2) > tol.head;
    var h1 := if first then Wrap(pose.h + t1) else pose.h;
    var e1, e2 := if first then 0.0 else t1, if last then 0.0 else t2;
    var h2 := if last then Wrap(h1 + t2) else h1;
    TurnReaches(pose.h, leg.face);
    WrapLands(target.h - leg.face);
    hide Wrap, SameDirection;
    PivotOrNot(pose.h, leg.face, 0.0, t1, first);
    AimNext(h1, leg.face, target.h, e1, t2);
    PivotOrNot(h1, target.h, e1, t2, last);
    HeadingError(h2, target.h, e1, e2, tol.head);
  }

  lemma TurnReaches(h: real, face: real)
    ensures SameDirection(h + Wrap(face - h), face - 0.0)
    ensures SameDirection(Wrap(h + Wrap(face - h)), face)
  {
    var t := Wrap(face - h);
    WrapLands(face - h);
    SameDirectionShifts(t, face - h, h);
    assert t + h == h + t && face - h + h == face && face - 0.0 == face;
    WrapLands(h + t);
    SameDirectionTrans(Wrap(h + t), h + t, face);
  }

  lemma {:induction false} ApproachIsGood(g: Plane, pose: Pose, target: Pose, reverse: bool, tol: Tolerance)
    requires g.Valid() && Distance(g, pose, target) > tol.pos
    ensures var leg := LegTo(g, pose, target.x, target.y, reverse);
      var moves := ApproachMoves(leg, Wrap(target.h - leg.face), tol);
      && RotationCost(moves) <= ApproachCost(g, pose, target, reverse)
      && moves != []
      && (tol.head >= 0.0 ==> FacesWithin(g, pose, target, moves, 2.0 * tol.head))
      && (moves[0].Pivot? ==> LandsOn(g, pose, target, moves))
  {
    hide Plane.Valid, Wrap, Times, Applied, RotationCost, Advanced;
    var leg := LegTo(g, pose, target.x, target.y, reverse);
    var t2 := Wrap(target.h - leg.face);
    var first := Abs(leg.turn) > tol.head;
    LegDrive(g, pose, target, reverse);
    assert leg.turn == Wrap(leg.face - pose.h);
    assert ApproachCost(g, pose, target, reverse) == Abs(leg.turn) + Abs(t2);
    AimedDriveLands(g, pose, target, reverse);
    hide ApproachCost, Distance, LegTo;
    MovesEnd(g, pose, leg, t2, tol);
    hide ApproachMoves;
    if tol.head >= 0.0 {
      ApproachFaces(g, pose, target, leg, tol);
    }
  }

  lemma LegDrive(g: Plane, pose: Pose, target: Pose, reverse: bool)
    requires g.Valid()
    ensures Abs(LegTo(g, pose, target.x, target.y, reverse).drive) == Distance(g, pose, target)
  {
    hide Wrap, Times;
  }

  /** An approach whose drive is not negligible, executed exactly. */
  lemma MovesEnd(g: Plane, pose: Pose, leg: Leg, t2: real, tol: Tolerance)
    requires Abs(leg.drive) > tol.pos
    ensures var moves := ApproachMoves(leg, t2, tol);
      var h1 := if Abs(leg.turn) > tol.head then Wrap(pose.h + leg.turn) else pose.h;
      && RotationCost(moves) <= Abs(leg.turn) + Abs(t2)
      && Applied(g, pose, moves, 1.0, 1.0) ==
           Advanced(g, pose.(h := h1), leg.drive).(h := if Abs(t2) > tol.head then Wrap(h1 + t2) else h1)
      && moves != [] && (moves[0].Pivot? ==> Abs(leg.turn) > tol.head)
  {
    var first, last := Abs(leg.turn) > tol.head, Abs(t2) > tol.head;
    var a := if first then [Pivot(leg.turn)] else [];
    var b := a + [Drive(leg.drive)];
    var c := if last then b + [Pivot(t2)] else b;
    assert ApproachMoves(leg, t2, tol) == c;
    hide Applied, RotationCost, ApproachMoves, Wrap, Advanced, Times;
    ApproachEnds(g, pose, leg, t2, first, last, a, b, c);
  }

  /** Aimed before driving, the drive ends on the target point. */
  lemma AimedDriveLands(g: Plane, pose: Pose, target: Pose, reverse: bool)
    requires g.Valid()
    ensures var leg := LegTo(g, pose, target.x, target.y, reverse);
      var end := Advanced(g, pose.(h := Wrap(pose.h + leg.turn)), leg.drive);
      end.x == target.x && end.y == target.y
  {
    var leg := LegTo(g, pose, target.x, target.y, reverse);
    DriveCoversOffset(g, pose, target, reverse);
    TurnReaches(pose.h, leg.face);
    assert leg.turn == Wrap(leg.face - pose.h);
    hide Wrap, LegTo;
  }

  lemma AimNext(h: real, face: real, th: real, e1: real, t2: real)
    requires SameDirection(h, face - 0.0 - e1) && SameDirection(t2, th - face)
    ensures SameDirection(h + t2, th - e1)
  {
    var j :| Apart(h, face - 0.0 - e1, j);
    var k :| Apart(t2, th - face, k);
    assert Apart(h + t2, th - e1, j + k);
  }

  lemma ApproachEnds(g: Plane, pose: Pose, leg: Leg, t2: real, first: bool, last: bool,
                     a: seq<Move>, b: seq<Move>, c: seq<Move>)
    requires a == if first then [Pivot(leg.turn)] else []
    requires b == a + [Drive(leg.drive)]
    requires c == if last then b + [Pivot(t2)] else b
    ensures var h1 := if first then Wrap(pose.h + leg.turn) else pose.h;
      Applied(g, pose, c, 1.0, 1.0) ==
        Advanced(g, pose.(h := h1), leg.drive).(h := if last then Wrap(h1 + t2) else h1)
    ensures RotationCost(c) == (if first then Abs(leg.turn) else 0.0) + (if last then Abs(t2) else 0.0)
  {
    assert [] + [Pivot(leg.turn)] == [Pivot(leg.turn)];
    Appended(g, pose, [], Pivot(leg.turn));
    Appended(g, pose, a, Drive(leg.drive));
    Appended(g, pose, b, Pivot(t2));
  }

  /** The straight drive of an aligned robot removes the whole along-track offset
      and leaves the cross-track one as it was. */
  lemma DriveClosesGap(g: Plane, pose: Pose, target: Pose)
    requires g.Valid() && SameDirection(pose.h, target.h)
    ensures var end := Applied(g, pose, [Drive(Along(g, pose, target))], 1.0, 1.0);
      Along(g, end, target) == 0.0 && Across(g, end, target) == Across(g, pose, target)
  {
    var a := Along(g, pose, target);
    var c, s := g.cosd(target.h), g.sind(target.h);
    Appended(g, pose, [], Drive(a));
    assert [] + [Drive(a)] == [Drive(a)];
    var end := Applied(g, pose, [Drive(a)], 1.0, 1.0);
    assert Times(a, 1.0) == a && Times(c, c) + Times(s, s) == 1.0;
    hide Plane.Valid, Times;
    DriveAlongFrame(c, s, a, target.x - pose.x, target.y - pose.y);
  }

  lemma DriveAlongFrame(c: real, s: real, a: real, dx: real, dy: real)
    requires Times(c, c) + Times(s, s) == 1.0
    ensures Times(c, dx - Times(a, c)) + Times(s, dy - Times(a, s)) == Times(c, dx) + Times(s, dy) - a
    ensures Times(-s, dx - Times(a, c)) + Times(c, dy - Times(a, s)) == Times(-s, dx) + Times(c, dy)
  {
    var q := c * c + s * s;
    assert c * (dx - a * c) + s * (dy - a * s) == c * dx + s * dy - a * q;
    assert -s * (dx - a * c) + c * (dy - a * s) == -s * dx + c * dy;
    assert a * q == a;
  }

  // ---- what an empty plan means ----------------------------------------------------------------

  lemma TurnedFrame(c: real, s: real, a: real, b: real)
    requires Times(c, c) + Times(s, s) == 1.0
    ensures Times(c, a * c - b * s) + Times(s, a * s + b * c) == a
    ensures Times(-s, a * c - b * s) + Times(c, a * s + b * c) == b
    ensures Times(a * c - b * s, a * c - b * s) + Times(a * s + b * c, a * s + b * c) == Times(a, a) + Times(b, b)
  {
    var q := c * c + s * s;
    assert a * q == a && b * q == b;
    assert c * (a * c - b * s) + s * (a * s + b * c) == a * q;
    assert -s * (a * c - b * s) + c * (a * s + b * c) == b * q;
    assert (a * c - b * s) * (a * c - b * s) + (a * s + b * c) * (a * s + b * c) == (a * a + b * b) * q;
    assert (a * a + b * b) * q == a * a + b * b;
  }

  lemma DistanceSquared(g: Plane, dx: real, dy: real)
    requires g.Valid()
    ensures g.dist(dx, dy) >= 0.0
    ensures Times(g.dist(dx, dy), g.dist(dx, dy)) == Times(dx, dx) + Times(dy, dy)
  {
    var d, b := g.dist(dx, dy), g.bearing(dx, dy);
    var c, s := g.cosd(b), g.sind(b);
    assert Times(d, c) == dx && Times(d, s) == dy;
    assert Times(c, c) + Times(s, s) == 1.0;
    TurnedFrame(c, s, d, 0.0);
  }

  lemma FrameKeepsLength(c: real, s: real, dx: real, dy: real)
    requires Times(c, c) + Times(s, s) == 1.0
    ensures var along, across := Times(c, dx) + Times(s, dy), Times(-s, dx) + Times(c, dy);
      Times(along, along) + Times(across, across) == Times(dx, dx) + Times(dy, dy)
  {
    var q, m := c * c + s * s, dx * dx + dy * dy;
    assert (c * dx + s * dy) * (c * dx + s * dy) + (-s * dx + c * dy) * (-s * dx + c * dy) == q * m;
    assert q * m == m;
  }

  lemma SquaresGrow(a: real, b: real)
    requires Abs(a) <= b
    ensures Times(a, a) <= Times(b, b)
  {
    assert b * b - a * a == (b - a) * (b + a);
  }

  /** The target offset written in the frame of the target heading. */
  lemma OffsetFromFrame(g: Plane, pose: Pose, target: Pose)
    requires g.Valid()
    ensures var d := Distance(g, pose, target);
      Times(d, d) == Times(Along(g, pose, target), Along(g, pose, target))
                     + Times(Across(g, pose, target), Across(g, pose, target))
  {
    var c, s := g.cosd(target.h), g.sind(target.h);
    var dx, dy := target.x - pose.x, target.y - pose.y;
    assert Times(c, c) + Times(s, s) == 1.0;
    DistanceSquared(g, dx, dy);
    hide Plane.Valid;
    FrameKeepsLength(c, s, dx, dy);
    hide Times;
  }

  /** An empty plan bounds the distance by the two slacks taken together. */
  lemma EmptyPlanIsClose(g: Plane, pose: Pose, target: Pose, tol: Tolerance)
    requires g.Valid() && OnTrack(g, pose, target, tol) && Abs(Along(g, pose, target)) <= tol.pos
    ensures var d := Distance(g, pose, target); Times(d, d) <= Times(tol.pos, tol.pos) + Times(tol.cross, tol.cross)
  {
    OffsetFromFrame(g, pose, target);
    SquaresGrow(Along(g, pose, target), tol.pos);
    SquaresGrow(Across(g, pose, target), tol.cross);
  }

  /** But not by the position slack alone: with the planner's own defaults, facing
      any way at all, it leaves the robot standing 0.57 cm off and says it is parked. */
  lemma EmptyPlanNeedNotBeParked(g: Plane, h: real)
    requires g.Valid()
    ensures
      var tol := Tolerance(0.5, 1.0, 0.4);
      var c, s := g.cosd(h), g.sind(h);
      var pose := Pose(0.0, 0.0, h);
      var target := Pose(0.45 * c - 0.35 * s, 0.45 * s + 0.35 * c, h);
      && OnTrack(g, pose, target, tol) && Abs(Along(g, pose, target)) <= tol.pos
      && Distance(g, pose, target) > tol.pos
  {
    var c, s := g.cosd(h), g.sind(h);
    var pose := Pose(0.0, 0.0, h);
    var target := Pose(0.45 * c - 0.35 * s, 0.45 * s + 0.35 * c, h);
    var d := Distance(g, pose, target);
    assert Times(c, c) + Times(s, s) == 1.0;
    assert d >= 0.0 && Times(0.45, 0.45) == 0.2025 && Times(0.35, 0.35) == 0.1225 && Times(0.5, 0.5) == 0.25;
    hide Plane.Valid, Times;
    TurnedFrame(c, s, 0.45, 0.35);
    WrapShortens(0.0);
    hide Wrap;
    assert target.h - pose.h == 0.0;
    OffsetFromFrame(g, pose, target);
    if d <= 0.5 {
      SquaresGrow(d, 0.5);
    }
  }
}
