/** Putting the robot on a pose: two bounded loops that look through the camera,
    send commands, and look again. The camera is an arbitrary stream of answers. */
module Reposition {
  import opened Angles
  import opened Field
  import opened Reals
  import opened Options

  datatype Fix = Fix(at: Point, yaw: real)

  datatype Command = Seed(at: Point, yaw: real) | Goto(target: Point) | Face(heading: real)

  datatype Outcome = Refused | Finished(pose: Option<Fix>)

  const TENTH_ERROR := 0.05

  /** What printing to one decimal may do to a number. */
  ghost predicate Rounds(tenth: real -> real) {
    forall v :: Abs(tenth(v) - v) <= TENTH_ERROR
  }

  /** What one call works with: its arguments and everything outside it. */
  datatype Job = Job(target: Point, heading: real, tries: int, tolCm: real, tolDeg: real,
                     camera: nat -> Option<Fix>, dist: (Point, Point) -> real, tenth: real -> real)
  {
    predicate Off(pose: Fix) {
      dist(pose.at, target) > tolCm
    }

    predicate Turned(pose: Fix) {
      Abs(Wrap(heading - pose.yaw)) > tolDeg
    }

    ghost predicate ClearFrom(pose: Fix) {
      StaysInside([pose.at, target])
    }

    function Tenths(p: Point): Point {
      Point(tenth(p.x), tenth(p.y))
    }

    function SeedOf(pose: Fix): Command {
      Seed(Tenths(pose.at), tenth(pose.yaw))
    }

    /** Look `i` found the robot off target with a clear way to it. */
    ghost predicate MayDrive(look: nat) {
      camera(look).Some? && Off(camera(look).value) && ClearFrom(camera(look).value)
    }

    predicate MayTurn(look: nat) {
      camera(look).Some? && Turned(camera(look).value)
    }
  }

  ghost predicate Driving(job: Job, look: nat, a: nat) {
    forall i :: look <= i < look + a ==> job.MayDrive(i)
  }

  ghost predicate Turning(job: Job, look: nat, b: nat) {
    forall i :: look <= i < look + b ==> job.MayTurn(i)
  }

  /** The position phase: `a` looks in a row that each sent a seed and a goto. */
  ghost function Drives(job: Job, look: nat, a: nat): seq<Command>
    requires Driving(job, look, a)
  {
    if a == 0 then []
    else
      assert job.MayDrive(look + a - 1);
      Drives(job, look, a - 1) +
        [job.SeedOf(job.camera(look + a - 1).value), Goto(job.Tenths(job.target))]
  }

  /** The heading phase likewise, with a face in place of the goto. */
  ghost function Faces(job: Job, look: nat, b: nat): seq<Command>
    requires Turning(job, look, b)
  {
    if b == 0 then []
    else
      assert job.MayTurn(look + b - 1);
      Faces(job, look, b - 1) +
        [job.SeedOf(job.camera(look + b - 1).value), Face(job.tenth(job.heading))]
  }

  /** Looks `from` on: `a` drives, and then the phase is over, arrived or out of
      tries, with the next look `next`. */
  ghost predicate Drove(job: Job, from: nat, a: nat, next: nat) {
    && Driving(job, from, a)
    && (if a < job.tries
        then job.camera(from + a).Some? && !job.Off(job.camera(from + a).value) && next == from + a + 1
        else (a == job.tries || a == 0) && next == from + a)
  }

  /** The position phase broke off instead: robot lost, or way refused. */
  ghost predicate Stopped(job: Job, from: nat, a: nat, outcome: Outcome) {
    && a < job.tries
    && Driving(job, from, a)
    && (var pose := job.camera(from + a);
        if pose.None? then outcome == Finished(None)
        else outcome == Outcome.Refused && job.Off(pose.value) && !job.ClearFrom(pose.value))
  }

  ghost predicate Faced(job: Job, from: nat, b: nat, outcome: Outcome) {
    && Turning(job, from, b)
    && (if b < job.tries
        then var pose := job.camera(from + b);
             if pose.None? then outcome == Finished(None)
             else !job.Turned(pose.value) && outcome == Finished(job.camera(from + b + 1))
        else (b == job.tries || b == 0) && outcome == Finished(job.camera(from + b)))
  }

  /** Everything a call may do, whatever the camera shows. */
  ghost predicate Went(job: Job, from: nat, sent: seq<Command>, outcome: Outcome, a: nat, b: nat) {
    || (Stopped(job, from, a, outcome) && b == 0 && sent == Drives(job, from, a))
    || (exists next :: Drove(job, from, a, next) && Faced(job, next, b, outcome)
          && sent == Drives(job, from, a) + Faces(job, next, b))
  }

  lemma DrivesGrow(job: Job, look: nat, a: nat)
    requires Driving(job, look, a) && job.MayDrive(look + a)
    ensures Driving(job, look, a + 1)
    ensures Drives(job, look, a + 1)
      == Drives(job, look, a) + [job.SeedOf(job.camera(look + a).value)] + [Goto(job.Tenths(job.target))]
  {}

  lemma FacesGrow(job: Job, look: nat, b: nat)
    requires Turning(job, look, b) && job.MayTurn(look + b)
    ensures Turning(job, look, b + 1)
    ensures Faces(job, look, b + 1)
      == Faces(job, look, b) + [job.SeedOf(job.camera(look + b).value)] + [Face(job.tenth(job.heading))]
  {}

  lemma NothingYet(job: Job, look: nat)
    ensures Driving(job, look, 0) && Drives(job, look, 0) == []
    ensures Turning(job, look, 0) && Faces(job, look, 0) == []
  {}

  lemma StopsThere(job: Job, from: nat, before: seq<Command>, sent: seq<Command>, outcome: Outcome, a: nat)
    requires Stopped(job, from, a, outcome) && sent == before + Drives(job, from, a)
    ensures before <= sent && Went(job, from, sent[|before|..], outcome, a, 0)
  {}

  lemma EndsThere(job: Job, from: nat, before: seq<Command>, sent: seq<Command>, outcome: Outcome,
                  a: nat, next: nat, b: nat)
    requires Drove(job, from, a, next) && Faced(job, next, b, outcome)
    requires sent == before + Drives(job, from, a) + Faces(job, next, b)
    ensures before <= sent && Went(job, from, sent[|before|..], outcome, a, b)
  {
    assert sent[|before|..] == Drives(job, from, a) + Faces(job, next, b);
  }

  class Repositioner {
    const tolCm: real
    const tolDeg: real
    const camera: nat -> Option<Fix>
    const dist: (Point, Point) -> real
    const tenth: real -> real
    var looks: nat
    var sent: seq<Command>

    constructor (camera: nat -> Option<Fix>, dist: (Point, Point) -> real, tenth: real -> real,
                 tolCm: real := 3.0, tolDeg: real := 5.0)
      ensures this.camera == camera && this.dist == dist && this.tenth == tenth
      ensures this.tolCm == tolCm && this.tolDeg == tolDeg && looks == 0 && sent == []
    {
      this.camera, this.dist, this.tenth := camera, dist, tenth;
      this.tolCm, this.tolDeg := tolCm, tolDeg;
      looks, sent := 0, [];
    }

    method Look() returns (pose: Option<Fix>)
      modifies `looks
      ensures pose == camera(old(looks)) && looks == old(looks) + 1
    {
      pose := camera(looks);
      looks := looks + 1;
    }

    function JobOf(x: real, y: real, heading: real, tries: int): Job {
      Job(Point(x, y), heading, tries, tolCm, tolDeg, camera, dist, tenth)
    }

    /** go(): drive onto the point, then face the heading. What the robot answers to
        a seed, a goto or a face changes nothing here. */
    method Go(x: real, y: real, heading: real, tries: int := 3)
      returns (outcome: Outcome, ghost a: nat, ghost b: nat)
      modifies this
      ensures old(sent) <= sent
      ensures Went(JobOf(x, y, heading, tries), old(looks), sent[|old(sent)|..], outcome, a, b)
    {
      hide Drove, Stopped, Faced;
      var job := JobOf(x, y, heading, tries);
      var stopped: bool;
      stopped, outcome, a := GoThere(job);
      b := 0;
      if stopped {
        StopsThere(job, old(looks), old(sent), sent, outcome, a);
        return;
      }
      ghost var next := looks;
      outcome, b := TurnThere(job);
      EndsThere(job, old(looks), old(sent), sent, outcome, a, next, b);
    }

    /** Phase 1: position. */
    method GoThere(job: Job) returns (stopped: bool, outcome: Outcome, ghost a: nat)
      requires job.camera == camera
      modifies this
      ensures if stopped then Stopped(job, old(looks), a, outcome) else Drove(job, old(looks), a, looks)
      ensures sent == old(sent) + Drives(job, old(looks), a)
    {
      NothingYet(job, looks);
      hide StaysInside, Outside, Probed, Within, Drives, Driving;
      ghost var from := looks;
      a, stopped, outcome := 0, false, Finished(None);
      var attempt := 0;
      while attempt < job.tries
        invariant a == attempt && looks == from + a && (a <= job.tries || a == 0)
        invariant Driving(job, from, a)
        invariant sent == old(sent) + Drives(job, from, a)
        invariant !stopped
        decreases job.tries - attempt
      {
        var pose := Look();
        if pose == None {
          stopped := true;
          return;
        }
        if job.dist(pose.value.at, job.target) <= job.tolCm {
          break;
        }
        var gate := RequireClearPath([pose.value.at, job.target]);
        if gate.Refused? {
          stopped, outcome := true, Outcome.Refused;
          return;
        }
        assert job.MayDrive(from + a);
        DrivesGrow(job, from, a);
        sent := sent + [job.SeedOf(pose.value)];
        sent := sent + [Goto(job.Tenths(job.target))];
        a := a + 1;
        attempt := attempt + 1;
      }
    }

    /** Phase 2: heading, last, with nothing after it to disturb it. */
    method TurnThere(job: Job) returns (outcome: Outcome, ghost b: nat)
      requires job.camera == camera
      modifies this
      ensures Faced(job, old(looks), b, outcome)
      ensures sent == old(sent) + Faces(job, old(looks), b)
    {
      NothingYet(job, looks);
      hide Wrap, Faces, Turning;
      ghost var from := looks;
      b := 0;
      var attempt := 0;
      while attempt < job.tries
        invariant b == attempt && looks == from + b && (b <= job.tries || b == 0)
        invariant Turning(job, from, b)
        invariant sent == old(sent) + Faces(job, from, b)
        decreases job.tries - attempt
      {
        var pose := Look();
        if pose == None {
          return Finished(None), b;
        }
        var herr := WrapDegrees(job.heading - pose.value.yaw);
        if Abs(herr) <= job.tolDeg {
          break;
        }
        assert job.MayTurn(from + b);
        FacesGrow(job, from, b);
        sent := sent + [job.SeedOf(pose.value)];
        sent := sent + [Face(job.tenth(job.heading))];
        b := b + 1;
        attempt := attempt + 1;
      }
      var last := Look();
      outcome := Finished(last);
    }
  }

  // ---- every call, whatever the camera shows --------------------------------------------------

  lemma {:induction false} DrivesAt(job: Job, look: nat, a: nat)
    requires Driving(job, look, a)
    ensures |Drives(job, look, a)| == 2 * a
    ensures forall k :: 0 <= k < a ==>
              && job.MayDrive(look + k)
              && Drives(job, look, a)[2 * k] == job.SeedOf(job.camera(look + k).value)
              && Drives(job, look, a)[2 * k + 1] == Goto(job.Tenths(job.target))
  {
    if a > 0 {
      DrivesAt(job, look, a - 1);
    }
  }

  lemma {:induction false} FacesAt(job: Job, look: nat, b: nat)
    requires Turning(job, look, b)
    ensures |Faces(job, look, b)| == 2 * b
    ensures forall k :: 0 <= k < b ==>
              && job.MayTurn(look + k)
              && Faces(job, look, b)[2 * k] == job.SeedOf(job.camera(look + k).value)
              && Faces(job, look, b)[2 * k + 1] == Face(job.tenth(job.heading))
  {
    if b > 0 {
      FacesAt(job, look, b - 1);
    }
  }

  /** `n` pairs of a seed and the same closing command. */
  ghost predicate Pairs(s: seq<Command>, n: nat, closing: Command) {
    |s| == 2 * n && forall k :: 0 <= k < n ==> s[2 * k].Seed? && s[2 * k + 1] == closing
  }

  ghost predicate TwoPhases(job: Job, sent: seq<Command>, a: nat, b: nat) {
    && |sent| == 2 * a + 2 * b
    && Pairs(sent[..2 * a], a, Goto(job.Tenths(job.target)))
    && Pairs(sent[2 * a..], b, Face(job.tenth(job.heading)))
  }

  lemma PhasesArePairs(job: Job, from: nat, a: nat, next: nat, b: nat)
    requires Driving(job, from, a) && Turning(job, next, b)
    ensures Pairs(Drives(job, from, a), a, Goto(job.Tenths(job.target)))
    ensures Pairs(Faces(job, next, b), b, Face(job.tenth(job.heading)))
  {
    DrivesAt(job, from, a);
    FacesAt(job, next, b);
    hide Drives, Faces;
  }

  /** Seed and goto alternate, then seed and face; neither pair more than `tries`
      times; nothing else is ever sent. */
  lemma PositionThenHeading(job: Job, from: nat, sent: seq<Command>, outcome: Outcome, a: nat, b: nat)
    requires Went(job, from, sent, outcome, a, b)
    ensures TwoPhases(job, sent, a, b) && (a > 0 ==> a <= job.tries) && (b > 0 ==> b <= job.tries)
  {
    hide Drives, Faces, Pairs, Driving, Turning;
    if Stopped(job, from, a, outcome) && b == 0 && sent == Drives(job, from, a) {
      NothingYet(job, from);
      PhasesArePairs(job, from, a, from, 0);
      JoinPhases(job, Drives(job, from, a), [], a, 0);
      assert sent + [] == sent;
    } else {
      var next: nat :| Drove(job, from, a, next) && Faced(job, next, b, outcome)
        && sent == Drives(job, from, a) + Faces(job, next, b);
      PhasesArePairs(job, from, a, next, b);
      JoinPhases(job, Drives(job, from, a), Faces(job, next, b), a, b);
    }
  }

  lemma JoinPhases(job: Job, drives: seq<Command>, faces: seq<Command>, a: nat, b: nat)
    requires Pairs(drives, a, Goto(job.Tenths(job.target))) && Pairs(faces, b, Face(job.tenth(job.heading)))
    ensures TwoPhases(job, drives + faces, a, b)
  {
    var sent := drives + faces;
    assert sent[..2 * a] == drives && sent[2 * a..] == faces;
  }

  lemma PhaseOf(job: Job, sent: seq<Command>, a: nat, b: nat, i: nat)
    requires TwoPhases(job, sent, a, b) && i < |sent|
    ensures if i < 2 * a then !sent[i].Face? else !sent[i].Goto?
  {
    var k := if i < 2 * a then i / 2 else (i - 2 * a) / 2;
    var phase := if i < 2 * a then sent[..2 * a] else sent[2 * a..];
    var at := if i < 2 * a then i else i - 2 * a;
    assert phase[2 * k].Seed? && sent[i] == phase[at] && (at == 2 * k || at == 2 * k + 1);
  }

  /** The rule the two phases exist for. */
  lemma NoGotoAfterFace(job: Job, from: nat, sent: seq<Command>, outcome: Outcome, a: nat, b: nat, i: nat, j: nat)
    requires Went(job, from, sent, outcome, a, b) && i < j < |sent| && sent[i].Face?
    ensures !sent[j].Goto?
  {
    PositionThenHeading(job, from, sent, outcome, a, b);
    hide Went, TwoPhases;
    PhaseOf(job, sent, a, b, i);
    PhaseOf(job, sent, a, b, j);
  }

  /** 12 cm or more from each edge of the field, give or take the half-tenth that
      printing may cost. */
  predicate NearlyKeepsOff(p: Point) {
    -55.2 <= p.x <= 55.2 && -32.7 <= p.y <= 32.7
  }

  /** Each goto follows a seed from a pose measured off target, and every real point
      of the way from that pose to the target as printed lies in the usable field, to
      the half-tenth the printing may cost. */
  lemma EveryGotoIsClear(job: Job, from: nat, sent: seq<Command>, outcome: Outcome, a: nat, b: nat,
                         k: nat, p: Point, t: real)
    requires Went(job, from, sent, outcome, a, b) && k < a && Rounds(job.tenth)
    ensures PositionedAt(job, from, sent, k)
    ensures 0.0 <= t <= 1.0 && p == Between(job.camera(from + k).value.at, job.Tenths(job.target), t)
      ==> NearlyKeepsOff(p)
  {
    PositionThenHeading(job, from, sent, outcome, a, b);
    DrivesAt(job, from, a);
    assert job.MayDrive(from + k);
    var pose := job.camera(from + k).value;
    assert sent[2 * k] == Drives(job, from, a)[2 * k];
    hide Drives, Faces, Went, StaysInside;
    ClearEnds(pose.at, job.target);
    hide Within, Times;
    var aim := job.Tenths(job.target);
    if 0.0 <= t <= 1.0 && p == Between(pose.at, aim, t) {
      RoundedWayStaysClose(pose.at, job.target, aim, t);
    }
  }

  ghost predicate PositionedAt(job: Job, from: nat, sent: seq<Command>, k: nat) {
    && job.MayDrive(from + k) && 2 * k + 1 < |sent|
    && sent[2 * k] == job.SeedOf(job.camera(from + k).value)
    && sent[2 * k + 1] == Goto(job.Tenths(job.target))
  }

  /** A seed within a half-tenth of the pose in each number it prints. */
  predicate Seeds(c: Command, pose: Fix) {
    && c.Seed?
    && -0.05 <= c.at.x - pose.at.x <= 0.05
    && -0.05 <= c.at.y - pose.at.y <= 0.05
    && -0.05 <= c.yaw - pose.yaw <= 0.05
  }

  predicate Sends(c: Command, target: Point) {
    && c.Goto?
    && -0.05 <= c.target.x - target.x <= 0.05
    && -0.05 <= c.target.y - target.y <= 0.05
  }

  predicate Points(c: Command, heading: real) {
    c.Face? && -0.05 <= c.heading - heading <= 0.05
  }

  lemma DriveAsSeen(job: Job, look: nat, a: nat, k: nat)
    requires Driving(job, look, a) && Rounds(job.tenth)
    ensures |Drives(job, look, a)| == 2 * a
    ensures k < a ==>
      var pose := job.camera(look + k);
      && pose.Some? && job.dist(pose.value.at, job.target) > job.tolCm
      && Seeds(Drives(job, look, a)[2 * k], pose.value) && Sends(Drives(job, look, a)[2 * k + 1], job.target)
  {
    DrivesAt(job, look, a);
    hide Drives, StaysInside;
    assert k < a ==> job.MayDrive(look + k);
  }

  lemma FaceAsSeen(job: Job, look: nat, b: nat, k: nat)
    requires Turning(job, look, b) && Rounds(job.tenth)
    ensures |Faces(job, look, b)| == 2 * b
    ensures k < b ==>
      var pose := job.camera(look + k);
      && pose.Some? && Abs(Wrap(job.heading - pose.value.yaw)) > job.tolDeg
      && Seeds(Faces(job, look, b)[2 * k], pose.value) && Points(Faces(job, look, b)[2 * k + 1], job.heading)
  {
    FacesAt(job, look, b);
    hide Faces, Wrap;
    assert k < b ==> job.MayTurn(look + k);
  }

  /** What is sent is what was seen and what was asked for, as printed: each pair seeds the
      robot with the look just taken, and each look that is used was over its tolerance. */
  lemma SentAsSeen(job: Job, from: nat, sent: seq<Command>, outcome: Outcome, a: nat, b: nat, k: nat)
    requires Went(job, from, sent, outcome, a, b) && Rounds(job.tenth)
    ensures |sent| == 2 * a + 2 * b
    ensures k < a ==>
      var pose := job.camera(from + k);
      && pose.Some? && job.dist(pose.value.at, job.target) > job.tolCm
      && Seeds(sent[2 * k], pose.value) && Sends(sent[2 * k + 1], job.target)
    ensures k < b ==>
      var pose := job.camera(from + a + (if a < job.tries then 1 else 0) + k);
      && pose.Some? && Abs(Wrap(job.heading - pose.value.yaw)) > job.tolDeg
      && Seeds(sent[2 * a + 2 * k], pose.value) && Points(sent[2 * a + 2 * k + 1], job.heading)
  {
    hide Wrap, StaysInside, Drives, Faces, Driving, Turning, Pairs, Seeds, Sends, Points;
    PositionThenHeading(job, from, sent, outcome, a, b);
    if Stopped(job, from, a, outcome) && b == 0 && sent == Drives(job, from, a) {
      DriveAsSeen(job, from, a, k);
    } else {
      var next: nat :| Drove(job, from, a, next) && Faced(job, next, b, outcome)
        && sent == Drives(job, from, a) + Faces(job, next, b);
      DriveAsSeen(job, from, a, k);
      FaceAsSeen(job, next, b, k);
      assert k < a ==> sent[2 * k] == Drives(job, from, a)[2 * k];
      assert k < a ==> sent[2 * k + 1] == Drives(job, from, a)[2 * k + 1];
      assert k < b ==> sent[2 * a + 2 * k] == Faces(job, next, b)[2 * k];
      assert k < b ==> sent[2 * a + 2 * k + 1] == Faces(job, next, b)[2 * k + 1];
    }
  }

  /** How a call ends, by its last looks: lost or refused on the way to the point, lost or
      within the tolerance on the heading, or out of tries; and what it reports is the look
      after the one that was good enough, or after the last try. */
  lemma HowItEnds(job: Job, from: nat, sent: seq<Command>, outcome: Outcome, a: nat, b: nat)
    requires Went(job, from, sent, outcome, a, b)
    ensures var onPoint := job.camera(from + a);
      var last := from + a + (if a < job.tries then 1 else 0) + b;
      if a < job.tries && onPoint.None? then outcome == Finished(None) && b == 0
      else if a < job.tries && job.dist(onPoint.value.at, job.target) > job.tolCm
      then outcome == Outcome.Refused && b == 0 && !(KeepsOff(onPoint.value.at) && KeepsOff(job.target))
      else if b < job.tries && job.camera(last).Some?
      then Abs(Wrap(job.heading - job.camera(last).value.yaw)) <= job.tolDeg
           && outcome == Finished(job.camera(last + 1))
      else outcome == Finished(job.camera(last))
  {
    hide Wrap, StaysInside, Drives, Faces, Driving, Turning, KeepsOff;
    if a < job.tries && job.camera(from + a).Some? {
      ClearIffEndsKeepOff(job.camera(from + a).value.at, job.target);
    }
  }

  lemma ClearEnds(a: Point, b: Point)
    requires StaysInside([a, b])
    ensures Within(a) && Within(b)
  {
    Ring(0.0, 0.0, 0.0);
    assert On(a, [a, b], 0, 0.0);
    assert On(b, [a, b], 1, 0.0);
  }

  lemma RoundedWayStaysClose(a: Point, b: Point, aim: Point, t: real)
    requires Within(a) && Within(b) && 0.0 <= t <= 1.0
    requires Abs(aim.x - b.x) <= TENTH_ERROR && Abs(aim.y - b.y) <= TENTH_ERROR
    ensures NearlyKeepsOff(Between(a, aim, t))
  {
    Interpolates(a.x, aim.x, t, UsableHalfExtent().x + TENTH_ERROR);
    Interpolates(a.y, aim.y, t, UsableHalfExtent().y + TENTH_ERROR);
  }

  /** The gate asks no more than that both ends keep off the edges. */
  lemma ClearIffEndsKeepOff(a: Point, b: Point)
    ensures StaysInside([a, b]) <==> KeepsOff(a) && KeepsOff(b)
  {
    hide StaysInside, Within, KeepsOff;
    WithinKeepsOff(a);
    WithinKeepsOff(b);
    if StaysInside([a, b]) {
      ClearEnds(a, b);
    }
    if Within(a) && Within(b) {
      WaypointsWithinSuffices([a, b]);
    }
  }

  /** A refusal sends nothing more, and nothing at all only on the first look: after
      `a` attempts the robot has already been seeded and sent off `a` times. */
  lemma RefusalSendsNothingIff(job: Job, from: nat, sent: seq<Command>, a: nat, b: nat)
    requires Went(job, from, sent, Outcome.Refused, a, b)
    ensures |sent| == 2 * a && a < job.tries
    ensures var first := job.camera(from);
      sent == [] <==> && first.Some? && job.Off(first.value)
                      && !(KeepsOff(first.value.at) && KeepsOff(job.target))
  {
    PositionThenHeading(job, from, sent, Outcome.Refused, a, b);
    hide Drives, Faces, StaysInside, KeepsOff;
    if job.camera(from).Some? {
      ClearIffEndsKeepOff(job.camera(from).value.at, job.target);
    }
    assert a > 0 ==> job.MayDrive(from);
  }

  /** Why a call can still be refused after `k` drives: exactly when the robot, still
      off target, is measured within 12 cm of an edge. The target is not the cause. */
  lemma LaterRefusalIff(job: Job, from: nat, sent: seq<Command>, outcome: Outcome, a: nat, b: nat, k: nat)
    requires Went(job, from, sent, outcome, a, b) && 0 < k < job.tries && Driving(job, from, k)
    ensures KeepsOff(job.target)
    ensures outcome.Refused? && |sent| == 2 * k
       <==> var pose := job.camera(from + k); pose.Some? && job.Off(pose.value) && !KeepsOff(pose.value.at)
  {
    PositionThenHeading(job, from, sent, outcome, a, b);
    hide StaysInside, KeepsOff, Drives, Faces, TwoPhases;
    assert job.MayDrive(from);
    ClearIffEndsKeepOff(job.camera(from).value.at, job.target);
    var pose := job.camera(from + k);
    if pose.Some? {
      ClearIffEndsKeepOff(pose.value.at, job.target);
    }
    assert a < k ==> job.MayDrive(from + a);
    assert k < a ==> job.MayDrive(from + k);
    assert |sent| == 2 * a + 2 * b;
  }

  /** Such a call, at the default tolerances: the first drive carries the robot past the
      margin, and the second look refuses it after a seed and a goto have gone out. */
  lemma RefusedAfterSending(dist: (Point, Point) -> real, tenth: real -> real)
    returns (job: Job, sent: seq<Command>)
    requires dist(Point(0.0, 0.0), Point(10.0, 0.0)) == 10.0 && dist(Point(60.0, 0.0), Point(10.0, 0.0)) == 50.0
    ensures job.dist == dist && job.tenth == tenth && job.tries == 3 && job.tolCm == 3.0
    ensures Went(job, 0, sent, Outcome.Refused, 1, 0) && |sent| == 2
  {
    var camera: nat -> Option<Fix> := i => Some(Fix(Point(if i == 0 then 0.0 else 60.0, 0.0), 0.0));
    job := Job(Point(10.0, 0.0), 0.0, 3, 3.0, 5.0, camera, dist, tenth);
    ClearIffEndsKeepOff(Point(0.0, 0.0), job.target);
    ClearIffEndsKeepOff(Point(60.0, 0.0), job.target);
    hide StaysInside;
    assert job.MayDrive(0);
    assert Driving(job, 0, 1);
    DrivesAt(job, 0, 1);
    sent := Drives(job, 0, 1);
    assert Stopped(job, 0, 1, Outcome.Refused);
  }

  /** The camera alone decides what is sent and how the call ends. */
  lemma WentIsDetermined(job: Job, from: nat, s1: seq<Command>, o1: Outcome, a1: nat, b1: nat,
                         s2: seq<Command>, o2: Outcome, a2: nat, b2: nat)
    requires Went(job, from, s1, o1, a1, b1) && Went(job, from, s2, o2, a2, b2)
    ensures s1 == s2 && o1 == o2
  {
    hide StaysInside, Wrap, Drives, Faces;
    assert a1 < a2 ==> job.MayDrive(from + a1);
    assert a2 < a1 ==> job.MayDrive(from + a2);
    assert a1 == a2;
    if !Stopped(job, from, a1, o1) {
      var n1: nat :| Drove(job, from, a1, n1) && Faced(job, n1, b1, o1)
        && s1 == Drives(job, from, a1) + Faces(job, n1, b1);
      var n2: nat :| Drove(job, from, a2, n2) && Faced(job, n2, b2, o2)
        && s2 == Drives(job, from, a2) + Faces(job, n2, b2);
      assert n1 == n2;
      hide Drove;
      var m1, m2: nat := n1 + b1, n1 + b2;
      assert b1 < b2 ==> job.MayTurn(m1);
      assert b2 < b1 ==> job.MayTurn(m2);
    }
  }
}
