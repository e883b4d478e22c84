/** A motion that a tick finds finished has stopped the robot by the time the tick gives
    up the bus. */
module FiberEnds {
  import opened Fibers
  import opened FiberSafety
  import opened Options
  import opened Rigs

  /** Since the latest end of a motion: no drive, nudge or pulse call, and no segment of
      a pulse fired without the guard. */
  predicate QuietSinceEnd(g: Log) {
    g.lastDrive < g.lastEnd && g.lastLoose < g.lastEnd
  }

  /** The guard's present holder is a tick that has ended a motion, and all is quiet since. */
  predicate Ended(h: Shared) {
    h.log.holder.Some? && h.log.lastTaken < h.log.lastEnd && QuietSinceEnd(h.log)
  }

  predicate Still(r: RigState) {
    !r.driving && !r.nudging && !r.armed
  }

  predicate BothZero(r: RigState) {
    r.dutyLeft == 0 && r.dutyRight == 0
  }

  /** Where such a tick can be, and which ports it has zeroed by then. */
  predicate Settling(r: RigState, owner: Frame) {
    match owner
    case Stepping(job, phase, command) =>
      && !command && (job.TickSettle? || (job.Deliver? && BothZero(r)))
      && (phase != WriteLeft ==> r.dutyLeft == 0)
      && (phase == ReadEncoders ==> r.dutyRight == 0)
    case Between(job) => (job.TickSettle? || job.Deliver?) && BothZero(r)
    case ZeroLeft(job) => job.Deliver? && BothZero(r)
    case ZeroRight(job) => job.Deliver? && BothZero(r)
    case _ => false
  }

  predicate EndKept(h: Shared, owner: Frame) {
    && h.log.lastEnd < h.log.now && h.log.lastTaken < h.log.now
    && h.log.lastDrive < h.log.now && h.log.lastLoose < h.log.now
    && (Ended(h) ==> Still(h.rig) && Settling(h.rig, owner))
  }

  lemma CheckKeepsEnd(h: Shared, f: nat, job: Job)
    requires EndKept(h, Between(job)) && h.log.holder == Some(f)
    ensures var (q, frames) := CheckStaged(h, f);
      EndKept(Tick(q), if q.log.holder == Some(f) then TopFrame(frames) else Pace)
  {}

  /** The tick whose service ends a motion goes on to settle. */
  lemma TickEnds(h: Shared, f: nat, c: Choice)
    requires EndKept(h, Between(TickStep)) && h.log.holder == Some(f)
    ensures var (q, frames) := ServeMotion(h, f, c);
      EndKept(Tick(q), if q.log.holder == Some(f) then TopFrame(frames) else Pace)
  {
    hide CheckStaged;
    if !(h.rig.driving && c.outcome == Ends) {
      CheckKeepsEnd(Served(h, c.outcome), f, TickStep);
    }
  }

  lemma AfterStepKeepsEnd(h: Shared, f: nat, job: Job, c: Choice)
    requires EndKept(h, Between(job)) && h.log.holder == Some(f)
    ensures var (q, frames) := AfterStep(h, f, job, c);
      EndKept(Tick(q), if q.log.holder == Some(f) then TopFrame(frames) else Pace)
  {
    hide CheckStaged, ServeMotion;
    if job == TickStep {
      TickEnds(h, f, c);
    } else {
      CheckKeepsEnd(h, f, job);
    }
  }

  lemma OwnerKeepsEnd(h: Shared, f: nat, fr: Frame, c: Choice)
    requires EndKept(h, fr) && Guarded(fr) && h.log.holder == Some(f)
    ensures var (q, frames) := Advance(h, f, fr, c);
      EndKept(Tick(q), if q.log.holder == Some(f) then TopFrame(frames) else Pace)
  {
    hide AfterStep;
    if fr.Between? {
      AfterStepKeepsEnd(h, f, fr.job, c);
    }
  }

  lemma OtherKeepsEnd(h: Shared, owner: Frame, f: nat, fr: Frame, c: Choice)
    requires EndKept(h, owner) && !Guarded(fr) && fr != TickOtosWait && h.log.holder != Some(f)
    requires BusKnown(h) && (h.log.holder == None ==> owner == Pace)
    ensures var (q, frames) := Advance(h, f, fr, c);
      EndKept(Tick(q), if q.log.holder == Some(f) then TopFrame(frames) else owner)
  {}

  lemma CallKeepsEnd(h: Shared, owner: Frame, f: nat, e: Entry)
    requires EndKept(h, owner) && h.log.holder != Some(f)
    requires BusKnown(h) && (h.log.holder == None ==> owner == Pace)
    ensures var (q, frames) := Enter(h, f, e);
      EndKept(Tick(q), if q.log.holder == Some(f) then TopFrame(frames) else owner)
  {}

  lemma StepKeepsEnd(s: State, f: nat, a: Action)
    requires OneOwner(s) && EndKept(s.shared, HolderFrame(s)) && Enabled(s, f, a)
    ensures EndKept(Next(s, f, a).shared, HolderFrame(Next(s, f, a)))
  {
    hide EndKept, Advance, Enter;
    OwnerStep(s, f, a);
    var h, owner := s.shared, HolderFrame(s);
    match a {
      case Call(e) => CallKeepsEnd(h, owner, f, e);
      case Run(c) =>
        if h.log.holder == Some(f) {
          OwnerKeepsEnd(h, f, Top(s, f), c);
        } else {
          OtherKeepsEnd(h, owner, f, Top(s, f), c);
        }
    }
  }

  lemma {:induction false} RunKeepsEnd(states: seq<State>, moves: seq<Move>, k: nat)
    requires IsRun(states, moves) && k <= |moves|
    ensures EndKept(states[k].shared, HolderFrame(states[k]))
  {
    hide Next, Inv, Enabled, Initial;
    if k == 0 {
      StartsKept(states[0]);
    } else {
      RunKeepsEnd(states, moves, k - 1);
      RunInv(states, moves, k - 1);
      InvOwns(states[k - 1]);
      StepKeepsEnd(states[k - 1], moves[k - 1].fiber, moves[k - 1].action);
    }
  }

  lemma InvOwns(s: State)
    requires Inv(s)
    ensures OneOwner(s)
  {}

  lemma StartsKept(s: State)
    requires Initial(s)
    ensures EndKept(s.shared, HolderFrame(s))
  {}

  lemma ReachableEnd(s: State)
    requires Reachable(s)
    ensures EndKept(s.shared, HolderFrame(s))
  {
    hide EndKept;
    var states, moves :| IsRun(states, moves) && states[|moves|] == s;
    RunKeepsEnd(states, moves, |moves|);
  }

  /** Whenever a tick whose service ended a motion gives up the bus, and no drive, nudge
      or pulse has been asked for since that end, both duties are zero, the kernel is
      neutral and nothing is in flight. */
  lemma EndedTickIsStill(s: State, f: nat, c: Choice)
    requires Reachable(s) && EndsTick(s, f, c)
    requires var t := Next(s, f, Run(c)).shared.log;
      s.shared.log.lastTaken < t.lastEnd && QuietSinceEnd(t)
    ensures var t := Next(s, f, Run(c)).shared.rig; BothZero(t) && Still(t)
  {
    ReachableInv(s);
    InvOwns(s);
    ReachableEnd(s);
    hide Inv, Reachable;
    OwnerStep(s, f, Run(c));
    EndsAsItWas(s, f, c);
  }

  lemma EndsAsItWas(s: State, f: nat, c: Choice)
    requires EndsTick(s, f, c) && s.shared.log.holder == Some(f)
    requires EndKept(s.shared, Top(s, f))
    requires var t := Next(s, f, Run(c)).shared.log;
      s.shared.log.lastTaken < t.lastEnd && QuietSinceEnd(t)
    ensures var t := Next(s, f, Run(c)).shared.rig; BothZero(t) && Still(t)
  {
    hide AfterStep, EndKept, Still, BothZero;
    LeavesStill(s.shared, f, Top(s, f).job, c);
  }

  predicate Leaves(frames: seq<Frame>) {
    frames == [Hook] || frames == [TickOtos]
  }

  lemma LeavesStill(h: Shared, f: nat, job: Job, c: Choice)
    requires EndKept(h, Between(job)) && h.log.holder == Some(f)
    requires var (q, frames) := AfterStep(h, f, job, c);
      Leaves(frames) && h.log.lastTaken < q.log.lastEnd && QuietSinceEnd(q.log)
    ensures var q := AfterStep(h, f, job, c).0; BothZero(q.rig) && Still(q.rig)
  {
    hide CheckStaged, EndTick;
    EndTickLeaves(h, f);
    CheckLeaves(h, f);
    CheckLeaves(Served(h, c.outcome), f);
  }

  lemma EndTickLeaves(h: Shared, f: nat)
    ensures var q := EndTick(h, f).0; SameMotion(h, q)
  {}

  lemma CheckLeaves(h: Shared, f: nat)
    ensures var (q, frames) := CheckStaged(h, f); Leaves(frames) ==> SameMotion(h, q)
  {}

  /** Ports, command and what is in flight as they were, and the log of them. */
  predicate SameMotion(h: Shared, q: Shared) {
    && q.rig.dutyLeft == h.rig.dutyLeft && q.rig.dutyRight == h.rig.dutyRight
    && q.rig.driving == h.rig.driving && q.rig.nudging == h.rig.nudging && q.rig.armed == h.rig.armed
    && q.log.lastEnd == h.log.lastEnd && q.log.lastDrive == h.log.lastDrive && q.log.lastLoose == h.log.lastLoose
  }
}
