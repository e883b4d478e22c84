/** The rig as the firmware holds it: one object whose fields every fiber updates in
    place, run through any schedule of calls and fiber switches. */
module RigObjects {
  import opened Fibers
  import opened FiberSafety
  import opened Options
  import opened Rigs

  const BOOT := RigState(false, false, false, false, false, false, 0, 0)
  const FRESH_LOG := Log(1, None, 0, 0, {}, 0, 0, 0, 0, {}, 0, 0, 0, 0, 0)

  class SharedRig {
    var busy: bool
    var pendingStop: bool
    var pendingOtosZero: bool
    var driving: bool
    var nudging: bool
    var armed: bool
    var dutyLeft: int
    var dutyRight: int
    var log: Log

    function State(): RigState
      reads this
    {
      RigState(busy, pendingStop, pendingOtosZero, driving, nudging, armed, dutyLeft, dutyRight)
    }

    function Whole(): Shared
      reads this
    {
      Shared(State(), log)
    }

    /** The bus is known to be taken or free, changed hands only through `f`, and is held
        by `f` exactly when the frames it leaves on top are guarded. */
    predicate OwnedAfter(was: Shared, f: nat, frames: seq<Frame>)
      reads this
    {
      BusKnown(Whole()) && GuardMoves(was, Whole(), f) && FramesOk(frames, log.holder == Some(f))
    }

    constructor ()
      ensures Whole() == Shared(BOOT, FRESH_LOG)
    {
      busy, pendingStop, pendingOtosZero := false, false, false;
      driving, nudging, armed := false, false, false;
      dutyLeft, dutyRight := 0, 0;
      log := FRESH_LOG;
    }

    method Acquire(f: nat) returns (got: bool)
      modifies this
      ensures got == !old(busy)
      ensures Whole() == if got then old(Whole().(rig := State().(busy := true), log := TakenBy(log, f)))
                         else old(Whole())
    {
      got := !busy;
      if got {
        busy := true;
        log := TakenBy(log, f);
      }
    }

    method ReleaseBus()
      modifies this
      ensures Whole() == ReleaseBy(old(Whole()))
    {
      busy := false;
      log := log.(holder := None);
    }

    /** Rig::softStop() up to its first bus write. */
    method SoftStop(f: nat) returns (frames: seq<Frame>)
      modifies this
      ensures (Whole(), frames) == Fibers.SoftStop(old(Whole()), f)
    {
      driving := false;
      armed := false;
      var now := log.now;
      log := log.(lastStop := now);
      if busy {
        pendingStop := true;
        log := log.(stops := log.stops + {now});
        return [];
      }
      busy := true;
      log := TakenBy(log, f);
      frames := [ZeroLeft(Stop(now))];
    }

    method EngineService(o: Outcome)
      modifies this
      ensures Whole() == old(Whole().(rig := Service(State(), o)))
    {
      if nudging {
        if o == Ends {
          nudging, armed := false, false;
        }
      } else if driving {
        match o {
          case Ends => driving, armed := false, false;
          case Waits => armed := false;
          case Drives => armed := true;
        }
      }
    }

    /** An entry point, up to its first switch point. A fiber that does not hold the bus
        leaves it owned by whoever then stands inside a guarded body. */
    method Call(f: nat, e: Entry) returns (frames: seq<Frame>)
      modifies this
      ensures (Whole(), frames) == Enter(old(Whole()), f, e)
      ensures old(BusKnown(Whole()) && log.holder != Some(f)) ==> OwnedAfter(old(Whole()), f, frames)
    {
      ghost var was := Whole();
      if BusKnown(was) && was.log.holder != Some(f) {
        EnterOwner(was, f, e);
      }
      frames := [];
      match e {
        case CallTick => frames := [TickWait];
        case CallStop => frames := SoftStop(f);
        case CallPulse =>
          log := log.(lastDrive := log.now);
          frames := [PulseWait];
        case CallOtos => frames := [OtosWait];
        case CallConfigure =>
          var stopping := SoftStop(f);
          frames := [ConfigWait] + stopping;
        case CallRebase =>
          pendingOtosZero := true;
          log := log.(rebases := log.rebases + {log.now}, lastRebase := log.now);
        case CallDrive(starts) =>
          driving, nudging := starts, false;
          if !starts {
            armed := false;
          }
          log := log.(lastDrive := log.now);
        case CallNudge(starts) =>
          driving, nudging := false, starts;
          if !starts {
            armed := false;
          }
          log := log.(lastDrive := log.now);
        case CallPoll(outcome, pulse, segment) =>
          if nudging && pulse != Holds {
            armed := pulse == Fires;
            log := log.(lastLoose := log.now);
            frames := [Stepping(if armed then PollFire else PollSettle, WriteLeft, armed)];
          } else {
            var stops := PollStops(State(), outcome) && segment;
            EngineService(outcome);
            if stops {
              frames := SoftStop(f);
            }
          }
        case CallEstop =>
          driving, armed := false, false;
          frames := [EstopLeft];
      }
    }

    /** tickDrive() from its release on. */
    method FinishTick(f: nat) returns (frames: seq<Frame>)
      modifies this
      ensures (Whole(), frames) == EndTick(old(Whole()), f)
    {
      busy := false;
      log := log.(holder := None);
      frames := [Hook];
      if pendingOtosZero {
        pendingOtosZero := false;
        log := log.(otosTaken := log.now);
        var got := Acquire(f);
        frames := if got then [TickOtos] else [TickOtosWait];
      }
    }

    method CheckStop(f: nat) returns (frames: seq<Frame>)
      modifies this
      ensures (Whole(), frames) == CheckStaged(old(Whole()), f)
    {
      if pendingStop {
        pendingStop := false;
        log := log.(stopTaken := log.now);
        return [ZeroLeft(Deliver(log.now))];
      }
      frames := FinishTick(f);
    }

    /** tickDrive() from its own kernel step on. */
    method ServeTick(f: nat, c: Choice) returns (frames: seq<Frame>)
      modifies this
      ensures (Whole(), frames) == ServeMotion(old(Whole()), f, c)
    {
      if nudging && c.pulse != Holds {
        armed := c.pulse == Fires;
        return [Stepping(if armed then NudgeFire else NudgeSettle, WriteLeft, armed)];
      }
      var wasDriving := driving;
      EngineService(c.outcome);
      if wasDriving && !driving {
        log := log.(lastEnd := log.now);
      }
      if wasDriving && c.outcome == Ends {
        return [Stepping(TickSettle, WriteLeft, armed)];
      }
      frames := CheckStop(f);
    }

    /** What follows a kernel step, by what the step was for. */
    method FinishStep(f: nat, job: Job, c: Choice) returns (frames: seq<Frame>)
      modifies this
      ensures (Whole(), frames) == AfterStep(old(Whole()), f, job, c)
    {
      hide ServeMotion, CheckStaged, EndTick;
      if Loose(job) && (c.again || job == PollFire) {
        log := log.(lastLoose := log.now);
      }
      if job != TickStep && c.again {
        armed := armed || Firing(job);
        return [Stepping(job, WriteLeft, armed)];
      }
      match job {
        case TickStep => frames := ServeTick(f, c);
        case TickSettle => frames := CheckStop(f);
        case NudgeSettle => frames := CheckStop(f);
        case Deliver(_) => frames := FinishTick(f);
        case Stop(called) =>
          ReleaseBus();
          log := log.(stops := log.stops + {called});
          frames := [];
        case PulseSettle =>
          ReleaseBus();
          frames := [];
        case PollSettle => frames := [];
        case NudgeFire => frames := EndPulse(NudgeSettle);
        case PulseFire => frames := EndPulse(PulseSettle);
        case PollFire => frames := EndPulse(PollSettle);
      }
    }

    method EndPulse(settle: Job) returns (frames: seq<Frame>)
      modifies this
      ensures (Whole(), frames) == EndFire(old(Whole()), settle)
    {
      armed := false;
      frames := [Stepping(settle, WriteLeft, armed)];
    }

    /** A waiting frame tries for the bus once. */
    method Await(f: nat, waiting: Frame, next: Frame) returns (frames: seq<Frame>)
      modifies this
      ensures (Whole(), frames) == AcquireThen(old(Whole()), f, waiting, next)
    {
      var got := Acquire(f);
      frames := if got then [next] else [waiting];
    }

    method PulseWheels(f: nat, c: Choice) returns (frames: seq<Frame>)
      modifies this
      ensures (Whole(), frames) == Fibers.Advance(old(Whole()), f, PulseWait, c)
    {
      if busy {
        return [PulseWait];
      }
      var fires := c.pulse == Fires;
      driving, nudging, armed := false, false, fires;
      frames := Await(f, PulseWait, Stepping(if fires then PulseFire else PulseSettle, WriteLeft, fires));
    }

    method StepPort(job: Job, phase: Phase, command: bool, c: Choice) returns (frames: seq<Frame>)
      modifies this
      ensures (Whole(), frames) == Fibers.Advance(old(Whole()), 0, Stepping(job, phase, command), c)
    {
      if Loose(job) {
        log := log.(lastLoose := log.now);
      }
      match phase {
        case WriteLeft =>
          dutyLeft := if command then c.dutyLeft else 0;
          frames := [Stepping(job, WriteRight, command)];
        case WriteRight =>
          dutyRight := if command then c.dutyRight else 0;
          frames := [Stepping(job, ReadEncoders, command)];
        case ReadEncoders => frames := [Between(job)];
      }
    }

    /** From one switch point of a running frame to the next. A frame is guarded after
        it exactly when its fiber holds the bus, if that was so before. */
    method Run(f: nat, fr: Frame, c: Choice) returns (frames: seq<Frame>)
      modifies this
      ensures (Whole(), frames) == Fibers.Advance(old(Whole()), f, fr, c)
      ensures old(BusKnown(Whole()) && fr != TickOtosWait && (Guarded(fr) <==> log.holder == Some(f)))
        ==> OwnedAfter(old(Whole()), f, frames)
    {
      ghost var was := Whole();
      if BusKnown(was) && fr != TickOtosWait && (Guarded(fr) <==> was.log.holder == Some(f)) {
        AdvanceOwner(was, f, fr, c);
      }
      frames := [];
      match fr {
        case TickWait => frames := Await(f, fr, Stepping(TickStep, WriteLeft, armed));
        case Stepping(job, phase, command) => frames := StepPort(job, phase, command, c);
        case Between(job) => frames := FinishStep(f, job, c);
        case ZeroLeft(stop) =>
          dutyLeft := 0;
          log := log.(zeroLeft := log.now);
          frames := [ZeroRight(stop)];
        case ZeroRight(stop) =>
          dutyRight := 0;
          log := log.(zeroRight := log.now);
          frames := [Stepping(stop, WriteLeft, armed)];
        case TickOtosWait => frames := Await(f, fr, TickOtos);
        case TickOtos =>
          ReleaseBus();
          log := log.(otosZero := log.now);
          frames := [Hook];
        case Hook => frames := [Pace];
        case Pace =>
        case OtosWait => frames := Await(f, fr, OtosBody);
        case PulseWait => frames := PulseWheels(f, c);
        case ConfigWait => frames := Await(f, fr, ConfigBody);
        case OtosBody => frames := Hold(fr, c.again);
        case ConfigBody => frames := Hold(fr, c.again);
        case EstopLeft =>
          dutyLeft := 0;
          frames := [EstopRight];
        case EstopRight => dutyRight := 0;
      }
    }

    /** A guarded I2C body runs on, or ends and frees the bus. */
    method Hold(fr: Frame, again: bool) returns (frames: seq<Frame>)
      modifies this
      ensures (Whole(), frames) == if again then (old(Whole()), [fr]) else (ReleaseBy(old(Whole())), [])
    {
      if again {
        return [fr];
      }
      ReleaseBus();
      frames := [];
    }

    method NextInstant()
      modifies this
      ensures Whole() == Tick(old(Whole()))
    {
      log := log.(now := log.now + 1);
    }
  }

  /** What a schedule of moves makes of `s`; a move that is not possible is skipped. */
  ghost function Performed(s: State, schedule: seq<Move>): State {
    if schedule == [] then s
    else
      var before := Performed(s, schedule[..|schedule| - 1]);
      var m := schedule[|schedule| - 1];
      if Enabled(before, m.fiber, m.action) then Next(before, m.fiber, m.action) else before
  }

  lemma {:induction false} PerformedIsReachable(s: State, schedule: seq<Move>)
    requires Reachable(s)
    ensures Reachable(Performed(s, schedule))
  {
    hide Reachable, Next, Enabled;
    if schedule != [] {
      PerformedIsReachable(s, schedule[..|schedule| - 1]);
      var before := Performed(s, schedule[..|schedule| - 1]);
      var m := schedule[|schedule| - 1];
      if Enabled(before, m.fiber, m.action) {
        var _ := ReachNext(before, m.fiber, m.action);
      }
    }
  }

  ghost function Booted(fibers: nat): State {
    State(Shared(BOOT, FRESH_LOG), seq(fibers, _ => []))
  }

  /** Any schedule at all, run on the object itself: the object ends as the rig of the
      reachable state the schedule leads to, so all that reachable states keep is true
      of its fields. */
  method RunSchedule(rig: SharedRig, fibers: nat, schedule: seq<Move>) returns (stacks: seq<seq<Frame>>)
    requires rig.Whole() == Shared(BOOT, FRESH_LOG)
    modifies rig
    ensures State(rig.Whole(), stacks) == Performed(Booted(fibers), schedule)
    ensures Reachable(State(rig.Whole(), stacks))
    // the guard the object holds is held by a fiber still inside a guarded body,
    ensures rig.busy ==> exists f :: 0 <= f < |stacks| && |stacks[f]| > 0 && Guarded(stacks[f][|stacks[f]| - 1])
    // and no stop asked of it is lost
    ensures !rig.busy ==> forall t :: t in rig.log.stops ==> Delivered(rig.log, t) || rig.pendingStop
  {
    stacks := seq(fibers, _ => []);
    ghost var boot := Booted(fibers);
    hide Reachable, Next, Enter, Advance;
    for i := 0 to |schedule|
      invariant State(rig.Whole(), stacks) == Performed(boot, schedule[..i])
    {
      ghost var before := State(rig.Whole(), stacks);
      var m := schedule[i];
      PerformedNext(boot, schedule, i);
      if Enabled(State(rig.Whole(), stacks), m.fiber, m.action) {
        var stack := stacks[m.fiber];
        match m.action {
          case Call(e) =>
            var frames := rig.Call(m.fiber, e);
            stacks := stacks[m.fiber := stack + frames];
          case Run(c) =>
            var frames := rig.Run(m.fiber, stack[|stack| - 1], c);
            stacks := stacks[m.fiber := stack[..|stack| - 1] + frames];
        }
        rig.NextInstant();
        NextIs(before, m.fiber, m.action);
      }
    }
    assert schedule[..|schedule|] == schedule;
    HeldOrDelivered(fibers, schedule);
  }

  lemma PerformedNext(s: State, schedule: seq<Move>, i: nat)
    requires i < |schedule|
    ensures var before := Performed(s, schedule[..i]);
      Performed(s, schedule[..i + 1]) ==
      if Enabled(before, schedule[i].fiber, schedule[i].action)
      then Next(before, schedule[i].fiber, schedule[i].action) else before
  {
    assert schedule[..i + 1][..i] == schedule[..i];
  }

  lemma HeldOrDelivered(fibers: nat, schedule: seq<Move>)
    ensures var s := Performed(Booted(fibers), schedule); var h := s.shared;
      && Reachable(s)
      && (h.rig.busy ==> exists f :: 0 <= f < |s.fibers| && |s.fibers[f]| > 0
                                  && Guarded(s.fibers[f][|s.fibers[f]| - 1]))
      && (!h.rig.busy ==> forall t :: t in h.log.stops ==> Delivered(h.log, t) || h.rig.pendingStop)
  {
    var s := Performed(Booted(fibers), schedule);
    InitialReachable(Booted(fibers));
    PerformedIsReachable(Booted(fibers), schedule);
    hide Reachable;
    if s.shared.rig.busy {
      GuardNeverLeaks(s);
      var f :| 0 <= f < |s.fibers| && Running(s, f) && Guarded(Top(s, f));
      assert Running(s, f) && Guarded(Top(s, f));
    } else {
      forall t | t in s.shared.log.stops ensures Delivered(s.shared.log, t) || s.shared.rig.pendingStop {
        NoStopLost(s, t);
      }
    }
  }

  lemma NextIs(s: State, f: nat, a: Action)
    requires Enabled(s, f, a)
    ensures Next(s, f, a) ==
      match a
      case Call(e) =>
        (var (h, frames) := Enter(s.shared, f, e);
         State(Tick(h), s.fibers[f := s.fibers[f] + frames]))
      case Run(c) =>
        (var (h, frames) := Advance(s.shared, f, Top(s, f), c);
         State(Tick(h), s.fibers[f := Below(s.fibers[f]) + frames]))
  {}
}
