/** How long a delivered stop lasts: exactly when no later segment of any fiber can
    put duty back without a new drive, nudge or pulse call. */
module FiberStops {
  import opened Fibers
  import opened FiberSafety
  import opened Options
  import opened Rigs

  /** A call that may put duty on. */
  predicate Commands(a: Action) {
    a.Call? && (a.entry.CallDrive? || a.entry.CallNudge? || a.entry.CallPulse?)
  }

  ghost predicate Passive(moves: seq<Move>) {
    forall i :: 0 <= i < |moves| ==> !Commands(moves[i].action)
  }

  /** A run from `s` to `t` without any such call. */
  ghost predicate PassiveRun(s: State, states: seq<State>, moves: seq<Move>, t: State) {
    Follows(states, moves) && Passive(moves) && states[0] == s && states[|moves|] == t
  }

  ghost predicate Reaches(s: State, t: State) {
    exists states, moves :: PassiveRun(s, states, moves, t)
  }

  predicate DutiesZero(s: State) {
    s.shared.rig.dutyLeft == 0 && s.shared.rig.dutyRight == 0
  }

  /** A delivered stop: the bus free, nothing staged, both duties zero, and no drive,
      nudge or pulse call since. */
  predicate Stopped(s: State) {
    !s.shared.rig.busy && !s.shared.rig.pendingStop && DutiesZero(s) && Quiet(s.shared)
  }

  ghost predicate StaysStopped(s: State) {
    forall t :: Reaches(s, t) ==> DutiesZero(t)
  }

  /** Left to itself, the frame writes no duty and arms nothing. */
  predicate Tame(fr: Frame) {
    match fr
    case PulseWait => false
    case Stepping(job, phase, command) => !Firing(job) && (command ==> phase == ReadEncoders)
    case Between(job) => !Firing(job)
    case _ => true
  }

  predicate TameStack(stack: seq<Frame>) {
    forall d :: 0 <= d < |stack| ==> Tame(stack[d])
  }

  ghost predicate AllTame(s: State) {
    forall f :: 0 <= f < |s.fibers| ==> TameStack(s.fibers[f])
  }

  /** A nudge is live, the kernel is armed, or a fiber is waiting for or inside a pulse. */
  ghost predicate PulsePending(s: State) {
    s.shared.rig.nudging || s.shared.rig.armed || !AllTame(s)
  }

  // ---- nothing pending: stopped for good --------------------------------------------

  predicate CalmRig(r: RigState) {
    !r.driving && !r.nudging && !r.armed && r.dutyLeft == 0 && r.dutyRight == 0
  }

  ghost predicate Calm(s: State) {
    CalmRig(s.shared.rig) && AllTame(s)
  }

  lemma CheckIsCalm(h: Shared, f: nat)
    requires CalmRig(h.rig)
    ensures var (q, frames) := CheckStaged(h, f); CalmRig(q.rig) && TameStack(frames)
  {}

  lemma AfterStepIsCalm(h: Shared, f: nat, job: Job, c: Choice)
    requires CalmRig(h.rig) && !Firing(job)
    ensures var (q, frames) := AfterStep(h, f, job, c); CalmRig(q.rig) && TameStack(frames)
  {
    hide CheckStaged;
    CheckIsCalm(h, f);
  }

  lemma AdvanceIsCalm(h: Shared, f: nat, fr: Frame, c: Choice)
    requires CalmRig(h.rig) && Tame(fr)
    ensures var (q, frames) := Advance(h, f, fr, c); CalmRig(q.rig) && TameStack(frames)
  {
    hide AfterStep;
    if fr.Between? {
      AfterStepIsCalm(h, f, fr.job, c);
    }
  }

  lemma EnterIsCalm(h: Shared, f: nat, e: Entry)
    requires CalmRig(h.rig) && !Commands(Call(e))
    ensures var (q, frames) := Enter(h, f, e); CalmRig(q.rig) && TameStack(frames)
  {}

  lemma StepIsCalm(s: State, f: nat, a: Action)
    requires Calm(s) && Enabled(s, f, a) && !Commands(a)
    ensures Calm(Next(s, f, a))
  {
    var (below, h, frames) := Segment(s, f, a);
    hide Enter, Advance, Tame;
    assert TameStack(s.fibers[f]);
    match a {
      case Call(e) => EnterIsCalm(s.shared, f, e);
      case Run(c) => AdvanceIsCalm(s.shared, f, Top(s, f), c);
    }
    assert TameStack(below + frames);
  }

  lemma {:induction false} RunIsCalm(states: seq<State>, moves: seq<Move>, k: nat)
    requires Follows(states, moves) && Passive(moves) && Calm(states[0]) && k <= |moves|
    ensures Calm(states[k])
  {
    hide Calm, Next;
    if k > 0 {
      RunIsCalm(states, moves, k - 1);
      StepIsCalm(states[k - 1], moves[k - 1].fiber, moves[k - 1].action);
    }
  }

  lemma CalmStaysStopped(s: State)
    requires Calm(s)
    ensures StaysStopped(s)
  {
    forall t | Reaches(s, t) ensures DutiesZero(t) {
      var states, moves :| PassiveRun(s, states, moves, t);
      RunIsCalm(states, moves, |moves|);
    }
  }

  // ---- something pending: a run that moves again -----------------------------------------

  lemma ReachesItself(s: State)
    ensures Reaches(s, s)
  {
    assert PassiveRun(s, [s], [], s);
  }

  lemma ReachOn(s: State, t: State, f: nat, a: Action)
    requires Reaches(s, t) && Enabled(t, f, a) && !Commands(a)
    ensures Reaches(s, Next(t, f, a))
  {
    var states, moves :| PassiveRun(s, states, moves, t);
    var u := Next(t, f, a);
    FollowsOn(states, moves, Move(f, a));
    hide Next, Follows, Enabled;
    assert PassiveRun(s, states + [u], moves + [Move(f, a)], u);
  }

  lemma FollowsOn(states: seq<State>, moves: seq<Move>, m: Move)
    requires Follows(states, moves) && Enabled(states[|moves|], m.fiber, m.action)
    ensures Follows(states + [Next(states[|moves|], m.fiber, m.action)], moves + [m])
  {
    hide Next, Enabled;
    var more, again := states + [Next(states[|moves|], m.fiber, m.action)], moves + [m];
    forall i | 0 <= i < |again|
      ensures Enabled(more[i], again[i].fiber, again[i].action)
      ensures more[i + 1] == Next(more[i], again[i].fiber, again[i].action)
    {
      assert more[i] == states[i] && (i < |moves| ==> again[i] == moves[i] && more[i + 1] == states[i + 1]);
    }
  }

  /** Fiber `f` runs its top frame `fr`, which is replaced by `then`. */
  lemma RunOn(s: State, t: State, f: nat, fr: Frame, c: Choice) returns (u: State)
    requires Reaches(s, t) && Running(t, f) && Top(t, f) == fr
    ensures Reaches(s, u) && |u.fibers| == |t.fibers|
    ensures var (q, frames) := Advance(t.shared, f, fr, c);
      u.shared.rig == q.rig && (|frames| == 1 ==> Running(u, f) && Top(u, f) == frames[0])
  {
    u := Next(t, f, Run(c));
    ReachOn(s, t, f, Run(c));
    hide Advance;
    var frames := Advance(t.shared, f, fr, c).1;
    assert |frames| == 1 ==> u.fibers[f] == Below(t.fibers[f]) + [frames[0]];
  }

  const FULL := Choice(true, Waits, Fires, 1, 1)

  /** A frame about to write under a command can write duty. */
  lemma CommandWrites(s: State, t: State, f: nat, fr: Frame) returns (u: State)
    requires Reaches(s, t) && Running(t, f) && Top(t, f) == fr
    requires fr.Stepping? && fr.command && fr.phase != ReadEncoders
    ensures Reaches(s, u) && !DutiesZero(u)
  {
    u := RunOn(s, t, f, fr, FULL);
  }

  /** A pulse between two steps can fire again. */
  lemma FiringFiresAgain(s: State, t: State, f: nat, fr: Frame) returns (u: State)
    requires Reaches(s, t) && Running(t, f) && Top(t, f) == fr
    requires fr.Between? && Firing(fr.job)
    ensures Reaches(s, u) && !DutiesZero(u)
  {
    u := RunOn(s, t, f, fr, FULL);
    u := CommandWrites(s, u, f, Stepping(fr.job, WriteLeft, true));
  }

  lemma StepFinishes(s: State, t: State, f: nat, fr: Frame) returns (u: State)
    requires Reaches(s, t) && Running(t, f) && Top(t, f) == fr && fr.Stepping?
    ensures Reaches(s, u) && Running(u, f) && Top(u, f) == Between(fr.job)
    ensures u.shared.rig == t.shared.rig.(dutyLeft := u.shared.rig.dutyLeft, dutyRight := u.shared.rig.dutyRight)
    decreases if fr.phase == WriteLeft then 2 else if fr.phase == WriteRight then 1 else 0
  {
    u := RunOn(s, t, f, fr, FULL);
    if fr.phase != ReadEncoders {
      u := StepFinishes(s, u, f, Top(u, f));
    }
  }

  lemma WildMoves(s: State, t: State, f: nat, fr: Frame) returns (u: State)
    requires Reaches(s, t) && Running(t, f) && Top(t, f) == fr && !Tame(fr) && !t.shared.rig.busy
    ensures Reaches(s, u) && !DutiesZero(u)
  {
    match fr {
      case PulseWait =>
        u := RunOn(s, t, f, fr, FULL);
        u := CommandWrites(s, u, f, Stepping(PulseFire, WriteLeft, true));
      case Stepping(job, phase, command) =>
        if command && phase != ReadEncoders {
          u := CommandWrites(s, t, f, fr);
        } else {
          u := StepFinishes(s, t, f, fr);
          u := FiringFiresAgain(s, u, f, Between(job));
        }
      case Between(_) => u := FiringFiresAgain(s, t, f, fr);
    }
  }

  /** A new tick gets the free bus and steps the kernel. */
  lemma TickStarts(s: State, g: nat) returns (u: State)
    requires g < |s.fibers| && s.fibers[g] == [] && !s.shared.rig.busy
    ensures Reaches(s, u) && Running(u, g) && Top(u, g) == Stepping(TickStep, WriteLeft, s.shared.rig.armed)
    ensures u.shared.rig == s.shared.rig.(busy := true)
  {
    ReachesItself(s);
    ReachOn(s, s, g, Call(CallTick));
    var t := Next(s, g, Call(CallTick));
    CallFromIdle(s, g, CallTick);
    u := RunOn(s, t, g, TickWait, FULL);
  }

  /** The tick fires a live nudge's next pulse. */
  lemma TickFiresNudge(s: State, g: nat) returns (u: State)
    requires g < |s.fibers| && s.fibers[g] == [] && !s.shared.rig.busy && s.shared.rig.nudging
    ensures Reaches(s, u) && !DutiesZero(u)
  {
    u := TickStarts(s, g);
    u := StepFinishes(s, u, g, Top(u, g));
    u := RunOn(s, u, g, Between(TickStep), FULL);
    u := CommandWrites(s, u, g, Stepping(NudgeFire, WriteLeft, true));
  }

  lemma ArmedTickDrives(s: State, g: nat) returns (u: State)
    requires g < |s.fibers| && s.fibers[g] == [] && !s.shared.rig.busy && s.shared.rig.armed
    ensures Reaches(s, u) && !DutiesZero(u)
  {
    u := TickStarts(s, g);
    u := CommandWrites(s, u, g, Stepping(TickStep, WriteLeft, true));
  }

  /** An untamed frame is on top of its fiber: only hooks and configureMotor() stand below. */
  lemma WildIsOnTop(s: State, f: nat, d: nat)
    requires Reachable(s) && f < |s.fibers| && d < |s.fibers[f]| && !Tame(s.fibers[f][d])
    ensures Running(s, f) && Top(s, f) == s.fibers[f][d]
  {
    ReachableInv(s);
    assert FiberOk(s.fibers[f], s.shared.log.holder == Some(f));
    BelowIsTame(s.fibers[f], s.shared.log.holder == Some(f));
  }

  lemma BelowIsTame(stack: seq<Frame>, owns: bool)
    requires FiberOk(stack, owns)
    ensures forall d :: 0 <= d < |stack| - 1 ==> Tame(stack[d])
  {
    forall d | 0 <= d < |stack| - 1 ensures Tame(stack[d]) {
      assert Below(stack)[d] == stack[d];
    }
  }

  /** From a delivered stop the robot stays stopped over every run without a drive,
      nudge or pulse call if and only if no pulse is pending: no nudge live, the
      kernel neutral, and no fiber waiting for or inside a pulse. */
  lemma StaysStoppedIff(s: State, g: nat)
    requires Reachable(s) && Stopped(s) && g < |s.fibers| && s.fibers[g] == []
    ensures StaysStopped(s) <==> !PulsePending(s)
  {
    hide Reaches, Reachable;
    if !PulsePending(s) {
      ReachableInv(s);
      CalmStaysStopped(s);
    } else {
      var u: State;
      if s.shared.rig.nudging {
        u := TickFiresNudge(s, g);
      } else if s.shared.rig.armed {
        u := ArmedTickDrives(s, g);
      } else {
        var f :| 0 <= f < |s.fibers| && !TameStack(s.fibers[f]);
        var d :| 0 <= d < |s.fibers[f]| && !Tame(s.fibers[f][d]);
        WildIsOnTop(s, f, d);
        ReachesItself(s);
        u := WildMoves(s, s, f, Top(s, f));
      }
    }
  }

  // ---- the nudge that outlives a stop ---------------------------------------------------------

  function Idle(): State {
    State(Shared(RigState(false, false, false, false, false, false, 0, 0),
                 Log(1, None, 0, 0, {}, 0, 0, 0, 0, {}, 0, 0, 0, 0, 0)), [[], []])
  }

  /** One fiber begins a nudge. */
  lemma NudgeBegun() returns (s: State)
    ensures Reachable(s) && s.fibers == [[], []] && s.shared.rig == Idle().shared.rig.(nudging := true)
    ensures s.shared.log.now > s.shared.log.lastDrive && s.shared.log.lastStop == 0
  {
    var s0 := Idle();
    InitialReachable(s0);
    hide Reachable, Next;
    s := ReachNext(s0, 0, Call(CallNudge(true)));
    CallFromIdle(s0, 0, CallNudge(true));
  }

  /** Fiber `f`, running `fr` alone, runs on: the frame is replaced by `next`. */
  lemma ReachFrame(s: State, f: nat, fr: Frame, c: Choice) returns (t: State)
    requires Reachable(s) && f < |s.fibers| && s.fibers[f] == [fr]
    ensures var (h, frames) := Advance(s.shared, f, fr, c);
      Reachable(t) && t == State(Tick(h), s.fibers[f := frames])
  {
    hide Reachable, Next, Advance;
    t := ReachNext(s, f, Run(c));
    RunOnlyFrame(s, f, c);
  }

  const DONE := Choice(false, Waits, Holds, 0, 0)

  /** The other stops, and the stop is delivered in full, with the nudge still live. */
  lemma StopDuringNudge() returns (s: State)
    ensures Reachable(s) && Stopped(s) && s.fibers == [[], []] && s.shared.rig.nudging
  {
    hide Reachable, Next;
    var n := NudgeBegun();
    s := ReachNext(n, 1, Call(CallStop));
    CallFromIdle(n, 1, CallStop);
    var t := n.shared.log.now;
    s := ReachFrame(s, 1, ZeroLeft(Stop(t)), DONE);
    s := ReachFrame(s, 1, ZeroRight(Stop(t)), DONE);
    s := ReachFrame(s, 1, Stepping(Stop(t), WriteLeft, false), DONE);
    s := ReachFrame(s, 1, Stepping(Stop(t), WriteRight, false), DONE);
    s := ReachFrame(s, 1, Stepping(Stop(t), ReadEncoders, false), DONE);
    s := ReachFrame(s, 1, Between(Stop(t)), DONE);
  }

  /** A soft stop does not end a nudge: a stop delivered in full, and then, with no
      call but tickDrive(), duty on a port again. */
  lemma NudgeOutlivesStop() returns (s: State, t: State)
    ensures Reachable(s) && Stopped(s) && Reaches(s, t) && !DutiesZero(t)
  {
    hide Reachable, Reaches;
    s := StopDuringNudge();
    t := TickFiresNudge(s, 0);
  }

  /** And polled from updateMove() a live nudge steps the kernel with no guard, even
      while another fiber is inside a guarded body. */
  lemma PollStepsOutsideGuard() returns (s: State)
    ensures Reachable(s) && |s.fibers| == 2 && Running(s, 0) && Running(s, 1)
    ensures Guarded(Top(s, 0)) && TouchesBus(Top(s, 0))
    ensures !Guarded(Top(s, 1)) && TouchesBus(Top(s, 1)) && s.shared.log.holder == Some(0)
  {
    hide Reachable, Next;
    var n := NudgeBegun();
    s := ReachNext(n, 0, Call(CallOtos));
    CallFromIdle(n, 0, CallOtos);
    s := ReachFrame(s, 0, OtosWait, DONE);
    var w := s;
    s := ReachNext(w, 1, Call(CallPoll(Waits, Fires, false)));
    CallFromIdle(w, 1, CallPoll(Waits, Fires, false));
  }
}
