/** What the entry points do to the motion in flight: one at a time, driven only while it
    lasts, and superseded or stopped outright by the next command. */
module FiberMotion {
  import opened Fibers
  import opened FiberSafety
  import opened FiberStops
  import opened Options
  import opened Rigs

  // ---- over every run: one motion at a time, and no command without one --------------

  predicate FiringStack(stack: seq<Frame>) {
    exists d :: 0 <= d < |stack| && FiringFrame(stack[d])
  }

  ghost predicate Pulsing(s: State) {
    exists f :: 0 <= f < |s.fibers| && FiringStack(s.fibers[f])
  }

  /** Never a segment and a nudge at once; the kernel holds a command only while one of
      them is in flight or `pulsing`. */
  predicate Engaged(r: RigState, pulsing: bool) {
    !(r.driving && r.nudging) && (r.armed ==> r.driving || r.nudging || pulsing)
  }

  lemma CheckEngaged(h: Shared, f: nat, other: bool)
    requires Engaged(h.rig, other)
    ensures Engaged(CheckStaged(h, f).0.rig, other)
  {}

  lemma ServeEngaged(h: Shared, f: nat, c: Choice, other: bool)
    requires Engaged(h.rig, other)
    ensures var (q, frames) := ServeMotion(h, f, c); Engaged(q.rig, other || FiringStack(frames))
  {
    CheckEngaged(Served(h, c.outcome), f, other);
    hide CheckStaged;
    assert FiringFrame([Stepping(NudgeFire, WriteLeft, true)][0]);
  }

  lemma AfterStepEngaged(h: Shared, f: nat, job: Job, c: Choice, other: bool)
    requires Engaged(h.rig, other || Firing(job))
    ensures var (q, frames) := AfterStep(h, f, job, c); Engaged(q.rig, other || FiringStack(frames))
  {
    if job == TickStep {
      ServeEngaged(h, f, c, other);
    } else if !Firing(job) {
      CheckEngaged(h, f, other);
    }
    hide CheckStaged, ServeMotion;
    assert Firing(job) ==> FiringFrame([Stepping(job, WriteLeft, true)][0]);
  }

  lemma AdvanceEngaged(h: Shared, f: nat, fr: Frame, c: Choice, other: bool)
    requires Engaged(h.rig, other || FiringFrame(fr))
    ensures var (q, frames) := Advance(h, f, fr, c); Engaged(q.rig, other || FiringStack(frames))
  {
    hide AfterStep, StepKernel, MarkLoose;
    match fr {
      case Between(job) => AfterStepEngaged(h, f, job, c, other);
      case Stepping(job, phase, command) =>
        LooseIsOnlyNoted(h);
        KernelEngaged(if Loose(job) then MarkLoose(h) else h, job, phase, command, c);
      case PulseWait => assert FiringFrame([Stepping(PulseFire, WriteLeft, true)][0]);
      case _ =>
    }
  }

  lemma LooseIsOnlyNoted(h: Shared)
    ensures MarkLoose(h).rig == h.rig
  {}

  lemma KernelEngaged(h: Shared, job: Job, phase: Phase, command: bool, c: Choice)
    ensures var (q, frames) := StepKernel(h, job, phase, command, c);
      && q.rig.driving == h.rig.driving && q.rig.nudging == h.rig.nudging && q.rig.armed == h.rig.armed
      && (Firing(job) ==> FiringStack(frames))
  {
    assert Firing(job) ==> FiringFrame(StepKernel(h, job, phase, command, c).1[0]);
  }

  lemma EnterEngaged(h: Shared, f: nat, e: Entry, other: bool)
    requires Engaged(h.rig, other)
    ensures var (q, frames) := Enter(h, f, e); Engaged(q.rig, other || FiringStack(frames))
  {
    assert FiringFrame([Stepping(PollFire, WriteLeft, true)][0]);
  }

  /** A firing frame in what `f`'s segment leaves standing, or on another fiber. */
  ghost predicate PulsingBeside(s: State, f: nat, below: seq<Frame>) {
    FiringStack(below) || exists g :: 0 <= g < |s.fibers| && g != f && FiringStack(s.fibers[g])
  }

  lemma PulsingSplits(s: State, f: nat, a: Action)
    requires Enabled(s, f, a) && Pulsing(s)
    ensures PulsingBeside(s, f, Segment(s, f, a).0) || (a.Run? && FiringFrame(Top(s, f)))
  {
    hide Advance, Enter, FiringFrame;
    var below := Segment(s, f, a).0;
    var g :| 0 <= g < |s.fibers| && FiringStack(s.fibers[g]);
    if g == f {
      var d :| 0 <= d < |s.fibers[f]| && FiringFrame(s.fibers[f][d]);
      assert d < |below| ==> below[d] == s.fibers[f][d];
    }
  }

  lemma PulsingJoins(s: State, f: nat, a: Action)
    requires Enabled(s, f, a)
    ensures var (below, h, frames) := Segment(s, f, a);
      PulsingBeside(s, f, below) || FiringStack(frames) ==> Pulsing(Next(s, f, a))
  {
    hide Advance, Enter, FiringFrame;
    var (below, h, frames) := Segment(s, f, a);
    var t := Next(s, f, a);
    StacksFire(below, frames);
    if exists g :: 0 <= g < |s.fibers| && g != f && FiringStack(s.fibers[g]) {
      var g :| 0 <= g < |s.fibers| && g != f && FiringStack(s.fibers[g]);
      assert FiringStack(t.fibers[g]);
    }
    assert t.fibers[f] == below + frames;
  }

  lemma StacksFire(a: seq<Frame>, b: seq<Frame>)
    ensures FiringStack(a) || FiringStack(b) ==> FiringStack(a + b)
  {
    hide FiringFrame;
    if FiringStack(a) {
      var d :| 0 <= d < |a| && FiringFrame(a[d]);
      assert (a + b)[d] == a[d];
    }
    if FiringStack(b) {
      var d :| 0 <= d < |b| && FiringFrame(b[d]);
      assert (a + b)[|a| + d] == b[d];
    }
  }

  lemma StepEngaged(s: State, f: nat, a: Action)
    requires Enabled(s, f, a) && Engaged(s.shared.rig, Pulsing(s))
    ensures var t := Next(s, f, a); Engaged(t.shared.rig, Pulsing(t))
  {
    hide Advance, Enter, FiringFrame;
    var (below, h, frames) := Segment(s, f, a);
    var other := PulsingBeside(s, f, below);
    if Pulsing(s) {
      PulsingSplits(s, f, a);
    }
    match a {
      case Call(e) => EnterEngaged(s.shared, f, e, other);
      case Run(c) => AdvanceEngaged(s.shared, f, Top(s, f), c, other);
    }
    PulsingJoins(s, f, a);
  }

  lemma {:induction false} RunEngaged(states: seq<State>, moves: seq<Move>, k: nat)
    requires IsRun(states, moves) && k <= |moves|
    ensures Engaged(states[k].shared.rig, Pulsing(states[k]))
  {
    hide Next, Enabled;
    if k > 0 {
      RunEngaged(states, moves, k - 1);
      hide Engaged, Pulsing;
      StepEngaged(states[k - 1], moves[k - 1].fiber, moves[k - 1].action);
    }
  }

  /** A segment or hold and a nudge are never in flight at once, and whenever the kernel
      holds a command one of them is, or some fiber is inside a pulse. */
  lemma OneMotionAtATime(s: State)
    requires Reachable(s)
    ensures !(s.shared.rig.driving && s.shared.rig.nudging)
    ensures s.shared.rig.armed ==> s.shared.rig.driving || s.shared.rig.nudging || Pulsing(s)
  {
    hide Pulsing;
    var states, moves :| IsRun(states, moves) && states[|moves|] == s;
    RunEngaged(states, moves, |moves|);
  }

  // ---- the next command --------------------------------------------------------------

  /** A command supersedes what was in flight; one that has nothing to do stops it, and so
      does a pulse when it gets the bus. */
  lemma CommandSupersedes(s: State, f: nat, starts: bool)
    requires Enabled(s, f, Call(CallDrive(starts)))
    ensures var r := Next(s, f, Call(CallDrive(starts))).shared.rig;
      r.driving == starts && !r.nudging && (!starts ==> !r.armed)
    ensures var r := Next(s, f, Call(CallNudge(starts))).shared.rig;
      r.nudging == starts && !r.driving && (!starts ==> !r.armed)
  {}

  lemma PulseSupersedes(s: State, f: nat, c: Choice)
    requires Running(s, f) && Top(s, f) == PulseWait
    ensures var t := Next(s, f, Run(c));
      if s.shared.rig.busy then t.shared.rig == s.shared.rig && Top(t, f) == PulseWait
      else !t.shared.rig.driving && !t.shared.rig.nudging && (t.shared.rig.armed <==> c.pulse == Fires)
  {}

  /** configureMotor() stops the robot before it so much as waits for the bus: the stop is
      staged, or this fiber is about to write it. */
  lemma ConfigureStopsFirst(s: State, f: nat)
    requires Enabled(s, f, Call(CallConfigure))
    ensures var t := Next(s, f, Call(CallConfigure));
      && !t.shared.rig.driving && !t.shared.rig.armed && t.shared.log.lastStop == s.shared.log.now
      && |t.fibers[f]| > |s.fibers[f]| && t.fibers[f][|s.fibers[f]|] == ConfigWait
      && if s.shared.rig.busy
         then t.shared.rig.pendingStop && s.shared.log.now in t.shared.log.stops && Top(t, f) == ConfigWait
         else Top(t, f) == ZeroLeft(Stop(s.shared.log.now))
  {}

  /** A poll that finds the motion over leaves nothing in flight, and asks for a stop
      exactly when that motion was a segment. */
  lemma PolledEndStops(s: State, f: nat, pulse: Pulse, segment: bool)
    requires Enabled(s, f, Call(CallPoll(Ends, pulse, segment)))
    requires s.shared.rig.driving && !s.shared.rig.nudging
    ensures var t := Next(s, f, Call(CallPoll(Ends, pulse, segment)));
      && !t.shared.rig.driving && !t.shared.rig.nudging && !t.shared.rig.armed
      && t.shared.log.lastStop == (if segment then s.shared.log.now else s.shared.log.lastStop)
      && (segment && s.shared.rig.busy ==> t.shared.rig.pendingStop)
      && (segment && !s.shared.rig.busy ==> Running(t, f) && Top(t, f) == ZeroLeft(Stop(s.shared.log.now)))
  {}

  /** A body between its acquire and its release keeps the bus for as many transactions as
      it takes, and returns with the bus free. */
  lemma BodiesKeepTheBus(h: Shared, f: nat, fr: Frame, c: Choice)
    requires fr == OtosBody || fr == ConfigBody
    ensures var (q, frames) := Advance(h, f, fr, c);
      if c.again then q == h && frames == [fr] else !q.rig.busy && q.log.holder == None && frames == []
  {}

  // ---- what a port can be given --------------------------------------------------------

  /** The segment writes a port for a kernel step that read a command. */
  predicate WritesCommand(s: State, m: Move)
    requires Enabled(s, m.fiber, m.action)
  {
    m.action.Run? &&
    var fr := Top(s, m.fiber);
    fr.Stepping? && fr.command && fr.phase != ReadEncoders
  }

  /** Each port keeps its duty or is zeroed. */
  predicate NoDutyMade(r: RigState, q: RigState) {
    && (q.dutyLeft == r.dutyLeft || q.dutyLeft == 0)
    && (q.dutyRight == r.dutyRight || q.dutyRight == 0)
  }

  predicate SameDuties(r: RigState, q: RigState) {
    q.dutyLeft == r.dutyLeft && q.dutyRight == r.dutyRight
  }

  lemma CheckMakesNone(h: Shared, f: nat)
    ensures SameDuties(h.rig, CheckStaged(h, f).0.rig)
    ensures SameDuties(h.rig, EndTick(h, f).0.rig)
  {}

  lemma ServeMakesNone(h: Shared, f: nat, c: Choice)
    ensures SameDuties(h.rig, ServeMotion(h, f, c).0.rig)
  {
    CheckMakesNone(Served(h, c.outcome), f);
    hide CheckStaged;
  }

  lemma AfterStepMakesNone(h: Shared, f: nat, job: Job, c: Choice)
    ensures SameDuties(h.rig, AfterStep(h, f, job, c).0.rig)
  {
    CheckMakesNone(h, f);
    ServeMakesNone(h, f, c);
    hide CheckStaged, EndTick, ServeMotion;
  }

  lemma AdvanceMakesNone(h: Shared, f: nat, fr: Frame, c: Choice)
    requires fr.Stepping? && fr.command ==> fr.phase == ReadEncoders
    ensures NoDutyMade(h.rig, Advance(h, f, fr, c).0.rig)
  {
    hide AfterStep, StepKernel, MarkLoose;
    if fr.Between? {
      AfterStepMakesNone(h, f, fr.job, c);
    } else if fr.Stepping? {
      LooseIsOnlyNoted(h);
      KernelMakesNone(if Loose(fr.job) then MarkLoose(h) else h, fr.job, fr.phase, fr.command, c);
    }
  }

  lemma KernelMakesNone(h: Shared, job: Job, phase: Phase, command: bool, c: Choice)
    requires command ==> phase == ReadEncoders
    ensures NoDutyMade(h.rig, StepKernel(h, job, phase, command, c).0.rig)
  {}

  lemma EnterMakesNone(h: Shared, f: nat, e: Entry)
    ensures NoDutyMade(h.rig, Enter(h, f, e).0.rig)
  {}

  /** Nothing else puts duty on. */
  lemma DutyNeedsCommand(s: State, f: nat, a: Action)
    requires Enabled(s, f, a) && !WritesCommand(s, Move(f, a))
    ensures NoDutyMade(s.shared.rig, Next(s, f, a).shared.rig)
  {
    hide Advance, Enter, NoDutyMade;
    match a {
      case Call(e) => EnterMakesNone(s.shared, f, e);
      case Run(c) => AdvanceMakesNone(s.shared, f, Top(s, f), c);
    }
  }

  /** A motion in flight is driven: with the bus free and nothing pending, a fiber that just
      keeps ticking puts duty on. */
  lemma TicksDriveMotion(s: State, g: nat) returns (u: State)
    requires g < |s.fibers| && s.fibers[g] == [] && s.shared.rig.driving && !s.shared.rig.nudging
    requires !s.shared.rig.busy && !s.shared.rig.pendingStop && !s.shared.rig.pendingOtosZero
    ensures Reaches(s, u) && !DutiesZero(u)
  {
    u := TickStarts(s, g);
    u := StepFinishes(s, u, g, Top(u, g));
    u := RunOn(s, u, g, Between(TickStep), Choice(false, Drives, Holds, 0, 0));
    assert u.shared.rig.armed && !u.shared.rig.busy;
    var t := Next(u, g, Call(CallTick));
    ReachOn(s, u, g, Call(CallTick));
    assert t.fibers[g] == u.fibers[g] + [TickWait];
    u := RunOn(s, t, g, TickWait, FULL);
    u := CommandWrites(s, u, g, Stepping(TickStep, WriteLeft, true));
  }

  // ---- a tick from its first segment to its last ------------------------------------------

  /** The frames of a tick, in their order. */
  predicate InTick(fr: Frame) {
    match fr
    case Stepping(job, _, _) => TickJob(job)
    case Between(job) => TickJob(job)
    case ZeroLeft(stop) => stop.Deliver?
    case ZeroRight(stop) => stop.Deliver?
    case _ => fr.TickWait? || fr.TickOtosWait? || fr.TickOtos? || fr.Hook? || fr.Pace?
  }

  predicate TickJob(job: Job) {
    job.TickStep? || job.TickSettle? || job.NudgeFire? || job.NudgeSettle? || job.Deliver?
  }

  lemma AfterStepInTick(h: Shared, f: nat, job: Job, c: Choice)
    requires TickJob(job)
    ensures var frames := AfterStep(h, f, job, c).1; |frames| == 1 && InTick(frames[0]) && frames[0] != Pace
  {}

  /** A tick goes from its wait for the bus to the service hook by way of nothing but its
      own steps, settles and zeros, and from the hook to its pacing; it returns from there
      and nowhere else. */
  lemma TickReturnsByPace(h: Shared, f: nat, fr: Frame, c: Choice)
    requires InTick(fr)
    ensures var frames := Advance(h, f, fr, c).1;
      && (if fr == Pace then frames == [] else |frames| == 1 && InTick(frames[0]))
      && (fr == Hook <==> frames == [Pace])
  {
    if fr.Between? {
      AfterStepInTick(h, f, fr.job, c);
    }
    hide AfterStep;
  }

  /** What every pulse and every stop of a fiber goes through: kernel steps of the same job
      while they are asked for, and at the end of a pulse a settle under no command. */
  lemma PulsesSettle(h: Shared, f: nat, job: Job, c: Choice)
    requires job != TickStep
    ensures var (q, frames) := AfterStep(h, f, job, c);
      && (c.again ==> frames == [Stepping(job, WriteLeft, h.rig.armed || Firing(job))])
      && (!c.again && Firing(job) ==>
            !q.rig.armed && frames == [Stepping(SettleOf(job), WriteLeft, false)])
      && (!c.again && job.Deliver? ==> q.rig.pendingStop == h.rig.pendingStop)
  {}

  function SettleOf(job: Job): Job {
    if job.NudgeFire? then NudgeSettle else if job.PulseFire? then PulseSettle else PollSettle
  }

  /** A pulse of no width goes straight to that settle, in a tick and in a poll alike. */
  lemma NoWidthSettles(h: Shared, f: nat, c: Choice, outcome: Outcome, segment: bool)
    requires h.rig.nudging && c.pulse == ZeroWidth
    ensures var (q, frames) := ServeMotion(h, f, c);
      !q.rig.armed && frames == [Stepping(NudgeSettle, WriteLeft, false)]
    ensures var (q, frames) := Enter(h, f, CallPoll(outcome, ZeroWidth, segment));
      !q.rig.armed && frames == [Stepping(PollSettle, WriteLeft, false)]
  {}

  /** What a tick that fires nothing makes of what service() finds: a motion that is over
      leaves nothing in flight, one waiting at its target leaves the kernel neutral. */
  lemma ServiceDecides(h: Shared, f: nat, c: Choice)
    requires Engaged(h.rig, false) && (h.rig.nudging ==> c.pulse == Holds)
    ensures var q := ServeMotion(h, f, c).0.rig;
      match c.outcome
      case Ends => !q.driving && !q.nudging && !q.armed
      case Waits => q.driving == h.rig.driving && q.nudging == h.rig.nudging && (q.driving ==> !q.armed)
      case Drives => q.driving == h.rig.driving && q.nudging == h.rig.nudging && (q.driving ==> q.armed)
  {
    CheckKeepsMotion(Served(h, c.outcome), f);
    hide CheckStaged;
  }

  lemma CheckKeepsMotion(h: Shared, f: nat)
    ensures var q := CheckStaged(h, f).0.rig;
      q.driving == h.rig.driving && q.nudging == h.rig.nudging && q.armed == h.rig.armed
  {}

  // ---- the emergency stop ----------------------------------------------------------------

  /** The fiber has estopped as far as its frames say: zeros on what it has written. */
  predicate Estopping(s: State, f: nat, below: seq<Frame>) {
    f < |s.fibers| &&
    var r := s.shared.rig;
    || s.fibers[f] == below + [EstopLeft]
    || (s.fibers[f] == below + [EstopRight] && r.dutyLeft == 0)
    || (r.dutyLeft == 0 && r.dutyRight == 0)
  }

  lemma EstopOn(s: State, f: nat, below: seq<Frame>, m: Move)
    requires Estopping(s, f, below) && Enabled(s, m.fiber, m.action) && !WritesCommand(s, m)
    ensures Estopping(Next(s, m.fiber, m.action), f, below)
  {
    DutyNeedsCommand(s, m.fiber, m.action);
    var r := s.shared.rig;
    if m.fiber == f && !(r.dutyLeft == 0 && r.dutyRight == 0) {
      var frames := Advance(s.shared, f, Top(s, f), m.action.choice).1;
      assert Below(s.fibers[f]) == below;
      assert below + [] == below;
    }
    hide Advance, Enter, WritesCommand;
  }

  /** estopAll() at any moment, whatever the bus and the other fibers are doing: the motion
      is dropped and the kernel neutral at once; and until a kernel step under way with a
      command, or given one since, writes again, both ports are zero once it returns. */
  lemma {:induction false} EstopZeroes(states: seq<State>, moves: seq<Move>, f: nat, k: nat)
    requires Follows(states, moves) && 0 < k <= |moves| && moves[0] == Move(f, Call(CallEstop))
    requires forall i :: 0 < i < k ==> !WritesCommand(states[i], moves[i])
    ensures !states[1].shared.rig.driving && !states[1].shared.rig.armed
    ensures var below := states[0].fibers[f]; Estopping(states[k], f, below)
    ensures states[k].fibers[f] == states[0].fibers[f] ==>
      states[k].shared.rig.dutyLeft == 0 && states[k].shared.rig.dutyRight == 0
  {
    var below := states[0].fibers[f];
    if k > 1 {
      EstopZeroes(states, moves, f, k - 1);
      hide Estopping, Next;
      EstopOn(states[k - 1], f, below, moves[k - 1]);
    }
  }
}
