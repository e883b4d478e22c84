/** What every reachable interleaving keeps: one bus owner, no lost stop, no
    lost OTOS zero, no hook inside a guarded window, and a stopped robot. */
module FiberSafety {
  import opened Fibers
  import opened Options
  import opened Rigs

  // ---- ownership of the bus --------------------------------------------------

  /** What can stand below a running frame: a hook in progress, or configureMotor()
      waiting for the stop it made. */
  predicate Clean(stack: seq<Frame>) {
    forall d :: 0 <= d < |stack| ==> stack[d] == Hook || stack[d] == ConfigWait
  }

  /** Only the top frame of the fiber that owns the guard is a guarded one. */
  predicate FiberOk(stack: seq<Frame>, owns: bool) {
    if |stack| == 0 then !owns
    else
      var top := stack[|stack| - 1];
      Clean(Below(stack)) && top != TickOtosWait && (Guarded(top) <==> owns)
  }

  predicate BusKnown(h: Shared) {
    h.rig.busy <==> h.log.holder.Some?
  }

  ghost predicate OneOwner(s: State) {
    && BusKnown(s.shared)
    && (s.shared.log.holder.Some? ==> s.shared.log.holder.value < |s.fibers|)
    && (forall f :: 0 <= f < |s.fibers| ==> FiberOk(s.fibers[f], s.shared.log.holder == Some(f)))
  }

  /** A segment by `f` takes the guard when free, gives up its own, or neither. */
  predicate GuardMoves(h: Shared, q: Shared, f: nat) {
    || q.log.holder == h.log.holder
    || (q.log.holder == Some(f) && h.log.holder == None)
    || (q.log.holder == None && h.log.holder == Some(f))
  }

  /** The top frame the segment leaves is guarded iff its fiber now owns the bus. */
  predicate FramesOk(frames: seq<Frame>, owns: bool) {
    match |frames|
    case 0 => !owns
    case 1 => frames[0] != TickOtosWait && (Guarded(frames[0]) <==> owns)
    case 2 => frames[0] == ConfigWait && frames[1].ZeroLeft? && owns
    case _ => false
  }

  lemma EnterOwner(h: Shared, f: nat, e: Entry)
    requires BusKnown(h) && h.log.holder != Some(f)
    ensures var (q, frames) := Enter(h, f, e);
      BusKnown(q) && GuardMoves(h, q, f) && FramesOk(frames, q.log.holder == Some(f))
  {}

  lemma CheckOwner(h: Shared, f: nat)
    requires BusKnown(h) && h.log.holder == Some(f)
    ensures var (q, frames) := CheckStaged(h, f);
      BusKnown(q) && GuardMoves(h, q, f) && FramesOk(frames, q.log.holder == Some(f)) && |frames| <= 1
  {}

  lemma TickStepOwner(h: Shared, f: nat, c: Choice)
    requires BusKnown(h) && h.log.holder == Some(f)
    ensures var (q, frames) := ServeMotion(h, f, c);
      BusKnown(q) && GuardMoves(h, q, f) && FramesOk(frames, q.log.holder == Some(f)) && |frames| <= 1
  {
    hide CheckStaged;
    CheckOwner(Served(h, c.outcome), f);
  }

  lemma AfterStepOwner(h: Shared, f: nat, job: Job, c: Choice)
    requires BusKnown(h) && (Loose(job) <==> h.log.holder != Some(f))
    ensures var (q, frames) := AfterStep(h, f, job, c);
      BusKnown(q) && GuardMoves(h, q, f) && FramesOk(frames, q.log.holder == Some(f)) && |frames| <= 1
  {
    hide CheckStaged, ServeMotion;
    if job == TickStep {
      TickStepOwner(h, f, c);
    } else if !Loose(job) {
      CheckOwner(h, f);
    }
  }

  lemma StepOwner(h: Shared, job: Job, phase: Phase, command: bool, c: Choice)
    ensures var (q, frames) := StepKernel(h, job, phase, command, c);
      && q.rig.busy == h.rig.busy && q.log == h.log && |frames| == 1
      && (Guarded(frames[0]) <==> !Loose(job)) && frames[0] != TickOtosWait
  {}

  lemma AdvanceOwner(h: Shared, f: nat, fr: Frame, c: Choice)
    requires BusKnown(h) && fr != TickOtosWait && (Guarded(fr) <==> h.log.holder == Some(f))
    ensures var (q, frames) := Advance(h, f, fr, c);
      BusKnown(q) && GuardMoves(h, q, f) && FramesOk(frames, q.log.holder == Some(f)) && |frames| <= 1
  {
    hide AfterStep, StepKernel;
    if fr.Between? {
      AfterStepOwner(h, f, fr.job, c);
    } else if fr.Stepping? {
      StepOwner(if Loose(fr.job) then MarkLoose(h) else h, fr.job, fr.phase, fr.command, c);
    }
  }

  lemma StackedOk(below: seq<Frame>, frames: seq<Frame>, owns: bool)
    requires Clean(below) && FramesOk(frames, owns)
    ensures FiberOk(below + frames, owns)
    ensures |frames| > 0 ==> (below + frames)[|below + frames| - 1] == frames[|frames| - 1]
  {
    var stack := below + frames;
    if |frames| > 0 {
      assert Below(stack) == below + Below(frames);
    }
  }

  /** The frame of whoever holds the guard; `Pace` when nobody does. */
  function HolderFrame(s: State): Frame {
    var o := s.shared.log.holder;
    if o.Some? && Running(s, o.value) then Top(s, o.value) else Pace
  }

  function TopFrame(frames: seq<Frame>): Frame {
    if |frames| == 0 then Pace else frames[|frames| - 1]
  }

  /** Every segment keeps one owner of the bus; and the owner's frame after it
      is the segment's own when its fiber owns the bus, and untouched otherwise. */
  lemma OwnerStep(s: State, f: nat, a: Action)
    requires OneOwner(s) && Enabled(s, f, a)
    ensures OneOwner(Next(s, f, a))
    ensures var (below, h, frames) := Segment(s, f, a);
      HolderFrame(Next(s, f, a)) ==
        if h.log.holder == Some(f) then TopFrame(frames)
        else if h.log.holder == None then Pace else HolderFrame(s)
    ensures a.Run? && s.shared.log.holder == Some(f) ==> HolderFrame(s) == Top(s, f) && Guarded(Top(s, f))
    ensures a.Run? && s.shared.log.holder != Some(f) ==> !Guarded(Top(s, f)) && Top(s, f) != TickOtosWait
    ensures a.Call? ==> s.shared.log.holder != Some(f)
  {
    var (below, h, frames) := Segment(s, f, a);
    var t := Next(s, f, a);
    assert FiberOk(s.fibers[f], s.shared.log.holder == Some(f));
    match a {
      case Call(e) =>
        assert Clean(below);
        EnterOwner(s.shared, f, e);
      case Run(c) => AdvanceOwner(s.shared, f, Top(s, f), c);
    }
    StackedOk(below, frames, h.log.holder == Some(f));
    forall g | 0 <= g < |t.fibers| ensures FiberOk(t.fibers[g], t.shared.log.holder == Some(g)) {
      assert FiberOk(s.fibers[g], s.shared.log.holder == Some(g));
    }
  }

  // ---- what the owner's frame says about the log ---------------------------------

  predicate Delivered(g: Log, t: nat) {
    t <= g.zeroLeft && t <= g.zeroRight
  }

  /** The owner has taken the stop called at `t` and is about to write it. */
  predicate BeingDelivered(h: Shared, owner: Frame, t: nat) {
    match owner
    case ZeroLeft(Deliver(checked)) => t < checked
    case ZeroRight(Deliver(checked)) => t < checked && t <= h.log.zeroLeft
    case _ => false
  }

  predicate StopKept(h: Shared, owner: Frame, t: nat) {
    t < h.log.now && (Delivered(h.log, t) || h.rig.pendingStop || BeingDelivered(h, owner, t))
  }

  ghost predicate StopsKept(h: Shared, owner: Frame) {
    forall t :: t in h.log.stops ==> StopKept(h, owner, t)
  }

  /** A job past its zero writes has made them at or after its own instant. */
  predicate JobsZeroed(h: Shared, owner: Frame) {
    && h.log.zeroLeft < h.log.now && h.log.zeroRight < h.log.now
    && match owner
       case ZeroLeft(Deliver(t)) => t < h.log.now
       case ZeroLeft(Stop(t)) => t < h.log.now
       case ZeroRight(Deliver(t)) => t <= h.log.zeroLeft
       case ZeroRight(Stop(t)) => t <= h.log.zeroLeft
       case Stepping(Deliver(t), _, _) => Delivered(h.log, t)
       case Stepping(Stop(t), _, _) => Delivered(h.log, t)
       case Between(Deliver(t)) => Delivered(h.log, t)
       case Between(Stop(t)) => Delivered(h.log, t)
       case _ => true
  }

  ghost predicate RebasesKept(h: Shared, owner: Frame) {
    forall t :: t in h.log.rebases ==>
      t < h.log.now && (t <= h.log.otosZero || h.rig.pendingOtosZero || owner.TickOtos?)
  }

  /** No drive, nudge or pulse call since the latest call to softStop(). */
  predicate Quiet(h: Shared) {
    h.log.lastDrive < h.log.lastStop
  }

  /** Nor any segment of a pulse fired without the guard. */
  predicate Alone(h: Shared) {
    h.log.lastLoose < h.log.lastStop
  }

  predicate Firing(job: Job) {
    job.NudgeFire? || job.PulseFire? || job.PollFire?
  }

  /** The owner is firing a pulse: its settle is still to come. */
  predicate FiringFrame(owner: Frame) {
    (owner.Stepping? || owner.Between?) && Firing(owner.job)
  }

  predicate SettlesPulse(owner: Frame) {
    owner.Stepping? && (owner.job.NudgeSettle? || owner.job.PulseSettle?)
  }

  predicate ZeroesLeft(owner: Frame) {
    FiringFrame(owner) || owner.ZeroLeft? || (SettlesPulse(owner) && owner.phase.WriteLeft?)
  }

  predicate ZeroesRight(owner: Frame) {
    ZeroesLeft(owner) || owner.ZeroRight? || (SettlesPulse(owner) && owner.phase.WriteRight?)
  }

  /** When the rig is quiet nothing but a pulse re-arms it, and a port that may still
      carry duty is about to be zeroed: a stop is staged, or the owner will write one. */
  predicate QuietIsStopping(h: Shared, owner: Frame) {
    && h.log.lastStop < h.log.now && h.log.lastDrive < h.log.now && h.log.lastLoose < h.log.now
    && (Quiet(h) ==> !h.rig.driving)
    && (Quiet(h) && Alone(h) ==>
          && (h.rig.armed ==> FiringFrame(owner))
          && (!h.rig.pendingStop ==>
                && (h.rig.dutyLeft != 0 ==> ZeroesLeft(owner))
                && (h.rig.dutyRight != 0 ==> ZeroesRight(owner))
                && (owner.Stepping? && owner.command ==> Firing(owner.job))))
  }

  /** A flag is only up for a request made since a tick last took it down. */
  predicate FlagsFresh(h: Shared) {
    && h.log.lastStop < h.log.now && h.log.lastRebase < h.log.now
    && (h.rig.pendingStop ==> h.log.stopTaken < h.log.lastStop)
    && (h.rig.pendingOtosZero ==> h.log.otosTaken < h.log.lastRebase)
    && h.log.stopTaken < h.log.now && h.log.otosTaken < h.log.now
  }

  ghost predicate Kept(h: Shared, owner: Frame) {
    StopsKept(h, owner) && JobsZeroed(h, owner) && RebasesKept(h, owner) && QuietIsStopping(h, owner) &&
    FlagsFresh(h)
  }

  ghost predicate Inv(s: State) {
    OneOwner(s) && Kept(s.shared, HolderFrame(s))
  }

  // The three ways a segment meets the owner: the owner's own segment, another
  // fiber's segment, and a call.

  lemma CheckKeepsStop(h: Shared, f: nat, job: Job, t: nat)
    requires JobsZeroed(h, Between(job)) && h.log.holder == Some(f)
    requires t in h.log.stops ==> StopKept(h, Between(job), t)
    ensures var (q, frames) := CheckStaged(h, f);
      var owner := if q.log.holder == Some(f) then TopFrame(frames) else Pace;
      JobsZeroed(Tick(q), owner) && (t in q.log.stops ==> StopKept(Tick(q), owner, t))
  {}

  lemma TickStepKeepsStop(h: Shared, f: nat, c: Choice, t: nat)
    requires JobsZeroed(h, Between(TickStep)) && h.log.holder == Some(f)
    requires t in h.log.stops ==> StopKept(h, Between(TickStep), t)
    ensures var (q, frames) := ServeMotion(h, f, c);
      var owner := if q.log.holder == Some(f) then TopFrame(frames) else Pace;
      JobsZeroed(Tick(q), owner) && (t in q.log.stops ==> StopKept(Tick(q), owner, t))
  {
    hide CheckStaged;
    CheckKeepsStop(Served(h, c.outcome), f, TickStep, t);
  }

  lemma AfterStepKeepsStop(h: Shared, f: nat, job: Job, c: Choice, t: nat)
    requires JobsZeroed(h, Between(job)) && h.log.holder == Some(f)
    requires t in h.log.stops ==> StopKept(h, Between(job), t)
    ensures var (q, frames) := AfterStep(h, f, job, c);
      var owner := if q.log.holder == Some(f) then TopFrame(frames) else Pace;
      JobsZeroed(Tick(q), owner) && (t in q.log.stops ==> StopKept(Tick(q), owner, t))
  {
    hide CheckStaged, ServeMotion;
    if job == TickStep {
      TickStepKeepsStop(h, f, c, t);
    } else {
      CheckKeepsStop(h, f, job, t);
    }
  }

  lemma OwnerKeepsStop(h: Shared, f: nat, fr: Frame, c: Choice, t: nat)
    requires JobsZeroed(h, fr) && Guarded(fr) && h.log.holder == Some(f)
    requires t in h.log.stops ==> StopKept(h, fr, t)
    ensures var (q, frames) := Advance(h, f, fr, c);
      var owner := if q.log.holder == Some(f) then TopFrame(frames) else Pace;
      JobsZeroed(Tick(q), owner) && (t in q.log.stops ==> StopKept(Tick(q), owner, t))
  {
    hide AfterStep;
    if fr.Between? {
      AfterStepKeepsStop(h, f, fr.job, c, t);
    }
  }

  /** The requests stand as they were; a pending zero is written or still pending. */
  predicate OtosMoves(h: Shared, q: Shared, f: nat, frames: seq<Frame>) {
    && q.log.rebases == h.log.rebases && q.log.now == h.log.now
    && (h.rig.pendingOtosZero ==>
          q.rig.pendingOtosZero || (q.log.holder == Some(f) && TopFrame(frames).TickOtos?))
  }

  lemma CheckOtos(h: Shared, f: nat)
    requires h.log.holder == Some(f)
    ensures var (q, frames) := CheckStaged(h, f); OtosMoves(h, q, f, frames) && q.log.otosZero == h.log.otosZero
  {}

  lemma TickStepOtos(h: Shared, f: nat, c: Choice)
    requires h.log.holder == Some(f)
    ensures var (q, frames) := ServeMotion(h, f, c);
      OtosMoves(h, q, f, frames) && q.log.otosZero == h.log.otosZero
  {
    hide CheckStaged;
    CheckOtos(Served(h, c.outcome), f);
  }

  lemma AfterStepOtos(h: Shared, f: nat, job: Job, c: Choice)
    requires h.log.holder == Some(f)
    ensures var (q, frames) := AfterStep(h, f, job, c);
      OtosMoves(h, q, f, frames) && q.log.otosZero == h.log.otosZero
  {
    hide CheckStaged, ServeMotion;
    CheckOtos(h, f);
    TickStepOtos(h, f, c);
  }

  lemma AdvanceOtos(h: Shared, f: nat, fr: Frame, c: Choice)
    requires Guarded(fr) && h.log.holder == Some(f)
    ensures var (q, frames) := Advance(h, f, fr, c);
      OtosMoves(h, q, f, frames) && q.log.otosZero == if fr.TickOtos? then h.log.now else h.log.otosZero
  {
    hide AfterStep;
    if fr.Between? {
      AfterStepOtos(h, f, fr.job, c);
    }
  }

  lemma OwnerKeepsRebases(h: Shared, f: nat, fr: Frame, c: Choice)
    requires RebasesKept(h, fr) && Guarded(fr) && h.log.holder == Some(f)
    ensures var (q, frames) := Advance(h, f, fr, c);
      RebasesKept(Tick(q), if q.log.holder == Some(f) then TopFrame(frames) else Pace)
  {
    AdvanceOtos(h, f, fr, c);
    hide Advance;
  }

  lemma CheckKeepsQuiet(h: Shared, f: nat, job: Job)
    requires QuietIsStopping(h, Between(job)) && h.log.holder == Some(f) && !Firing(job)
    ensures var (q, frames) := CheckStaged(h, f);
      QuietIsStopping(Tick(q), if q.log.holder == Some(f) then TopFrame(frames) else Pace)
  {}

  lemma TickStepKeepsQuiet(h: Shared, f: nat, c: Choice)
    requires QuietIsStopping(h, Between(TickStep)) && h.log.holder == Some(f)
    ensures var (q, frames) := ServeMotion(h, f, c);
      QuietIsStopping(Tick(q), if q.log.holder == Some(f) then TopFrame(frames) else Pace)
  {
    hide CheckStaged;
    CheckKeepsQuiet(Served(h, c.outcome), f, TickStep);
  }

  lemma AfterStepKeepsQuiet(h: Shared, f: nat, job: Job, c: Choice)
    requires QuietIsStopping(h, Between(job)) && h.log.holder == Some(f)
    ensures var (q, frames) := AfterStep(h, f, job, c);
      QuietIsStopping(Tick(q), if q.log.holder == Some(f) then TopFrame(frames) else Pace)
  {
    hide CheckStaged, ServeMotion;
    if job == TickStep {
      TickStepKeepsQuiet(h, f, c);
    } else if !Firing(job) {
      CheckKeepsQuiet(h, f, job);
    }
  }

  lemma OwnerKeepsQuiet(h: Shared, f: nat, fr: Frame, c: Choice)
    requires QuietIsStopping(h, fr) && Guarded(fr) && h.log.holder == Some(f)
    ensures var (q, frames) := Advance(h, f, fr, c);
      QuietIsStopping(Tick(q), if q.log.holder == Some(f) then TopFrame(frames) else Pace)
  {
    hide AfterStep;
    if fr.Between? {
      AfterStepKeepsQuiet(h, f, fr.job, c);
    }
  }

  lemma TickStepKeepsFlags(h: Shared, f: nat, c: Choice)
    requires FlagsFresh(h)
    ensures FlagsFresh(Tick(ServeMotion(h, f, c).0))
  {
    hide CheckStaged;
    CheckKeepsFlags(Served(h, c.outcome), f);
  }

  lemma AfterStepKeepsFlags(h: Shared, f: nat, job: Job, c: Choice)
    requires FlagsFresh(h)
    ensures FlagsFresh(Tick(AfterStep(h, f, job, c).0))
  {
    hide CheckStaged, ServeMotion;
    CheckKeepsFlags(h, f);
    TickStepKeepsFlags(h, f, c);
  }

  lemma CheckKeepsFlags(h: Shared, f: nat)
    requires FlagsFresh(h)
    ensures FlagsFresh(Tick(CheckStaged(h, f).0))
  {}

  lemma AdvanceKeepsFlags(h: Shared, f: nat, fr: Frame, c: Choice)
    requires FlagsFresh(h)
    ensures FlagsFresh(Tick(Advance(h, f, fr, c).0))
  {
    hide AfterStep;
    if fr.Between? {
      AfterStepKeepsFlags(h, f, fr.job, c);
    }
  }

  lemma OwnerKeeps(h: Shared, f: nat, fr: Frame, c: Choice)
    requires Kept(h, fr) && Guarded(fr) && h.log.holder == Some(f)
    ensures var (q, frames) := Advance(h, f, fr, c);
      Kept(Tick(q), if q.log.holder == Some(f) then TopFrame(frames) else Pace)
  {
    hide Advance, JobsZeroed, StopKept, RebasesKept, QuietIsStopping, FlagsFresh;
    var (q, frames) := Advance(h, f, fr, c);
    var owner := if q.log.holder == Some(f) then TopFrame(frames) else Pace;
    OwnerKeepsStop(h, f, fr, c, h.log.now);
    forall t | t in q.log.stops ensures StopKept(Tick(q), owner, t) {
      OwnerKeepsStop(h, f, fr, c, t);
    }
    OwnerKeepsRebases(h, f, fr, c);
    OwnerKeepsQuiet(h, f, fr, c);
    AdvanceKeepsFlags(h, f, fr, c);
  }

  /** The frame delivers no stop. */
  predicate StopsNothing(fr: Frame) {
    match fr
    case Stepping(job, _, _) => !job.Deliver? && !job.Stop?
    case Between(job) => !job.Deliver? && !job.Stop?
    case _ => !fr.ZeroLeft? && !fr.ZeroRight?
  }

  /** A segment outside the guard leaves stops and their zeroes alone; if it takes the
      guard, it is not to deliver one. */
  lemma OtherMoves(h: Shared, f: nat, fr: Frame, c: Choice)
    requires !Guarded(fr) && fr != TickOtosWait && h.log.holder != Some(f) && BusKnown(h)
    ensures var (q, frames) := Advance(h, f, fr, c);
      && q.log.stops == h.log.stops && q.log.now == h.log.now && q.rig.pendingStop == h.rig.pendingStop
      && q.log.zeroLeft == h.log.zeroLeft && q.log.zeroRight == h.log.zeroRight
      && (q.log.holder == Some(f) ==> h.log.holder == None && StopsNothing(TopFrame(frames)))
  {}

  lemma OtherKeepsStop(h: Shared, owner: Frame, f: nat, fr: Frame, c: Choice, t: nat)
    requires JobsZeroed(h, owner) && (t in h.log.stops ==> StopKept(h, owner, t))
    requires !Guarded(fr) && fr != TickOtosWait && h.log.holder != Some(f)
      && BusKnown(h) && (h.log.holder == None ==> owner == Pace)
    ensures var (q, frames) := Advance(h, f, fr, c);
      var now := if q.log.holder == Some(f) then TopFrame(frames) else owner;
      JobsZeroed(Tick(q), now) && (t in q.log.stops ==> StopKept(Tick(q), now, t))
  {
    hide Advance;
    OtherMoves(h, f, fr, c);
  }

  lemma OtherKeepsRebases(h: Shared, owner: Frame, f: nat, fr: Frame, c: Choice)
    requires RebasesKept(h, owner)
    requires !Guarded(fr) && fr != TickOtosWait && h.log.holder != Some(f)
      && BusKnown(h) && (h.log.holder == None ==> owner == Pace)
    ensures var (q, frames) := Advance(h, f, fr, c);
      RebasesKept(Tick(q), if q.log.holder == Some(f) then TopFrame(frames) else owner)
  {}

  lemma OtherKeepsQuiet(h: Shared, owner: Frame, f: nat, fr: Frame, c: Choice)
    requires QuietIsStopping(h, owner)
    requires !Guarded(fr) && fr != TickOtosWait && h.log.holder != Some(f)
      && BusKnown(h) && (h.log.holder == None ==> owner == Pace)
    ensures var (q, frames) := Advance(h, f, fr, c);
      QuietIsStopping(Tick(q), if q.log.holder == Some(f) then TopFrame(frames) else owner)
  {}

  lemma OtherKeeps(h: Shared, owner: Frame, f: nat, fr: Frame, c: Choice)
    requires Kept(h, owner) && !Guarded(fr) && fr != TickOtosWait && h.log.holder != Some(f)
      && BusKnown(h) && (h.log.holder == None ==> owner == Pace)
    ensures var (q, frames) := Advance(h, f, fr, c);
      Kept(Tick(q), if q.log.holder == Some(f) then TopFrame(frames) else owner)
  {
    hide Advance, JobsZeroed, StopKept, RebasesKept, QuietIsStopping, FlagsFresh;
    var (q, frames) := Advance(h, f, fr, c);
    var now := if q.log.holder == Some(f) then TopFrame(frames) else owner;
    OtherKeepsStop(h, owner, f, fr, c, h.log.now);
    forall t | t in q.log.stops ensures StopKept(Tick(q), now, t) {
      OtherKeepsStop(h, owner, f, fr, c, t);
    }
    OtherKeepsRebases(h, owner, f, fr, c);
    OtherKeepsQuiet(h, owner, f, fr, c);
    AdvanceKeepsFlags(h, f, fr, c);
  }

  lemma CallKeepsStop(h: Shared, owner: Frame, f: nat, e: Entry, t: nat)
    requires JobsZeroed(h, owner) && (t in h.log.stops ==> StopKept(h, owner, t))
    requires h.log.holder != Some(f) && BusKnown(h) && (h.log.holder == None ==> owner == Pace)
    ensures var (q, frames) := Enter(h, f, e);
      var now := if q.log.holder == Some(f) then TopFrame(frames) else owner;
      JobsZeroed(Tick(q), now) && (t in q.log.stops ==> StopKept(Tick(q), now, t))
  {}

  lemma CallKeepsRebases(h: Shared, owner: Frame, f: nat, e: Entry)
    requires RebasesKept(h, owner)
    requires h.log.holder != Some(f) && BusKnown(h) && (h.log.holder == None ==> owner == Pace)
    ensures var (q, frames) := Enter(h, f, e);
      RebasesKept(Tick(q), if q.log.holder == Some(f) then TopFrame(frames) else owner)
  {}

  lemma CallKeepsQuiet(h: Shared, owner: Frame, f: nat, e: Entry)
    requires QuietIsStopping(h, owner)
    requires h.log.holder != Some(f) && BusKnown(h) && (h.log.holder == None ==> owner == Pace)
    ensures var (q, frames) := Enter(h, f, e);
      QuietIsStopping(Tick(q), if q.log.holder == Some(f) then TopFrame(frames) else owner)
  {}

  lemma CallKeepsFlags(h: Shared, f: nat, e: Entry)
    requires FlagsFresh(h)
    ensures FlagsFresh(Tick(Enter(h, f, e).0))
  {}

  lemma CallKeeps(h: Shared, owner: Frame, f: nat, e: Entry)
    requires Kept(h, owner) && h.log.holder != Some(f) && BusKnown(h) && (h.log.holder == None ==> owner == Pace)
    ensures var (q, frames) := Enter(h, f, e);
      Kept(Tick(q), if q.log.holder == Some(f) then TopFrame(frames) else owner)
  {
    hide Enter, JobsZeroed, StopKept, RebasesKept, QuietIsStopping, FlagsFresh;
    var (q, frames) := Enter(h, f, e);
    var now := if q.log.holder == Some(f) then TopFrame(frames) else owner;
    CallKeepsStop(h, owner, f, e, h.log.now);
    forall t | t in q.log.stops ensures StopKept(Tick(q), now, t) {
      CallKeepsStop(h, owner, f, e, t);
    }
    CallKeepsRebases(h, owner, f, e);
    CallKeepsQuiet(h, owner, f, e);
    CallKeepsFlags(h, f, e);
  }

  lemma InvStep(s: State, f: nat, a: Action)
    requires Inv(s) && Enabled(s, f, a)
    ensures Inv(Next(s, f, a))
  {
    OwnerStep(s, f, a);
    var h, owner := s.shared, HolderFrame(s);
    match a {
      case Call(e) => CallKeeps(h, owner, f, e);
      case Run(c) =>
        if h.log.holder == Some(f) {
          OwnerKeeps(h, f, Top(s, f), c);
        } else {
          OtherKeeps(h, owner, f, Top(s, f), c);
        }
    }
  }

  lemma {:induction false} RunInv(states: seq<State>, moves: seq<Move>, k: nat)
    requires IsRun(states, moves) && k <= |moves|
    ensures Inv(states[k])
  {
    if k > 0 {
      RunInv(states, moves, k - 1);
      InvStep(states[k - 1], moves[k - 1].fiber, moves[k - 1].action);
    }
  }

  lemma ReachableInv(s: State)
    requires Reachable(s)
    ensures Inv(s)
  {
    var states, moves :| IsRun(states, moves) && states[|moves|] == s;
    RunInv(states, moves, |moves|);
  }

  // ---- the theorems ------------------------------------------------------------

  lemma GuardedIsTop(stack: seq<Frame>, owns: bool, d: nat)
    requires FiberOk(stack, owns) && d < |stack|
    ensures Guarded(stack[d]) ==> owns && d == |stack| - 1
    ensures stack[d] != TickOtosWait
  {
    assert d < |stack| - 1 ==> stack[d] == Below(stack)[d];
  }

  /** At most one frame of one fiber is inside a guarded body, and the guard is
      taken while it is. */
  lemma OneBusOwner(s: State, f: nat, d: nat, g: nat, e: nat)
    requires Reachable(s)
    requires f < |s.fibers| && d < |s.fibers[f]| && Guarded(s.fibers[f][d])
    requires g < |s.fibers| && e < |s.fibers[g]| && Guarded(s.fibers[g][e])
    ensures g == f && e == d && s.shared.rig.busy
  {
    ReachableInv(s);
    GuardedIsTop(s.fibers[f], s.shared.log.holder == Some(f), d);
    GuardedIsTop(s.fibers[g], s.shared.log.holder == Some(g), e);
  }

  /** Made without the guard: estopAll()'s port writes, and the pulse updateMove() fires
      when it is polled while a nudge is live. */
  predicate Unguarded(fr: Frame) {
    fr.EstopLeft? || fr.EstopRight? || (fr.Stepping? && Loose(fr.job))
  }

  /** Every other bus transaction is made by the guard's one holder. */
  lemma BusTouchedByHolder(s: State, f: nat)
    requires Reachable(s) && Running(s, f)
    requires TouchesBus(Top(s, f)) && !Unguarded(Top(s, f))
    ensures s.shared.rig.busy && s.shared.log.holder == Some(f)
    ensures forall g :: 0 <= g < |s.fibers| && g != f && Running(s, g) ==> !Guarded(Top(s, g))
  {
    ReachableInv(s);
    assert FiberOk(s.fibers[f], s.shared.log.holder == Some(f));
    forall g | 0 <= g < |s.fibers| && g != f && Running(s, g) ensures !Guarded(Top(s, g)) {
      assert FiberOk(s.fibers[g], s.shared.log.holder == Some(g));
    }
  }

  /** A busy guard is never leaked: its holder is still running the guarded body. */
  lemma GuardNeverLeaks(s: State)
    requires Reachable(s) && s.shared.rig.busy
    ensures exists f :: 0 <= f < |s.fibers| && Running(s, f) && Guarded(Top(s, f))
  {
    ReachableInv(s);
    var f := s.shared.log.holder.value;
    assert FiberOk(s.fibers[f], s.shared.log.holder == Some(f));
  }

  /** The hook, and everything it calls, runs above no guarded frame: a fiber
      waiting for the bus never waits for itself, and tickDrive()'s second
      acquire is never refused. */
  lemma HookOutsideGuard(s: State, f: nat, d: nat)
    requires Reachable(s) && f < |s.fibers| && d < |s.fibers[f]|
    ensures d < |s.fibers[f]| - 1 ==> !Guarded(s.fibers[f][d])
    ensures s.fibers[f][d] != TickOtosWait
    ensures Waiting(Top(s, f)) || Top(s, f) == Hook ==> s.shared.log.holder != Some(f)
  {
    ReachableInv(s);
    GuardedIsTop(s.fibers[f], s.shared.log.holder == Some(f), d);
  }

  /** No stop is lost: a soft stop that has returned has had both ports zeroed
      under the guard since it was called, or is still staged, or is being
      delivered by the fiber that holds the guard. */
  lemma NoStopLost(s: State, t: nat)
    requires Reachable(s) && t in s.shared.log.stops
    ensures Delivered(s.shared.log, t) || s.shared.rig.pendingStop
         || BeingDelivered(s.shared, HolderFrame(s), t)
    ensures !s.shared.rig.busy ==> Delivered(s.shared.log, t) || s.shared.rig.pendingStop
  {
    ReachableInv(s);
  }

  /** The segment by which fiber `f` ends a tick's guarded body. */
  predicate EndsTick(s: State, f: nat, c: Choice) {
    Running(s, f) && Top(s, f).Between? &&
    var frames := Advance(s.shared, f, Top(s, f), c).1;
    frames == [Hook] || frames == [TickOtos]
  }

  /** Any stop staged before a tick reaches its check is delivered before that
      tick gives up the guard. A tick that found one staged checked when its
      delivery began; a tick that found none checks in this very segment. */
  lemma StagedBeforeCheckIsDelivered(s: State, f: nat, c: Choice, t: nat)
    requires Reachable(s) && EndsTick(s, f, c)
    requires t in s.shared.log.stops
    requires Top(s, f).job.Deliver? ==> t < Top(s, f).job.checked
    ensures Delivered(s.shared.log, t)
  {
    ReachableInv(s);
    hide Reachable, AfterStep, Next;
    OwnerStep(s, f, Run(c));
    LeavingIsChecked(s.shared, f, Top(s, f).job, c);
    hide RebasesKept, QuietIsStopping, FlagsFresh, OneOwner;
    assert StopKept(s.shared, HolderFrame(s), t);
  }

  /** A tick leaves from its delivery, or having found nothing staged. */
  lemma LeavingIsChecked(h: Shared, f: nat, job: Job, c: Choice)
    ensures var frames := AfterStep(h, f, job, c).1;
      frames == [Hook] || frames == [TickOtos] ==> !Loose(job) && (job.Deliver? || !h.rig.pendingStop)
  {}

  /** No rebase loses its OTOS zero: it has been written since the request, or is
      still pending, or is being written by the fiber that holds the guard. */
  lemma NoRebaseLost(s: State, t: nat)
    requires Reachable(s) && t in s.shared.log.rebases
    ensures t <= s.shared.log.otosZero || s.shared.rig.pendingOtosZero || HolderFrame(s).TickOtos?
    ensures !s.shared.rig.busy ==> t <= s.shared.log.otosZero || s.shared.rig.pendingOtosZero
  {
    ReachableInv(s);
  }

  /** Deliveries are never spurious: a stop is staged, or an OTOS zero pending,
      only for a request made after the last one a tick took. */
  lemma NoSpuriousDelivery(s: State)
    requires Reachable(s)
    ensures s.shared.rig.pendingStop ==> s.shared.log.stopTaken < s.shared.log.lastStop
    ensures s.shared.rig.pendingOtosZero ==> s.shared.log.otosTaken < s.shared.log.lastRebase
  {
    ReachableInv(s);
  }

  /** A delivered stop has stopped the robot: once the bus is free with nothing staged,
      and no drive, nudge or pulse call and no unguarded pulse since the latest stop,
      both duties are zero and the kernel is neutral. */
  lemma DeliveredStopStops(s: State)
    requires Reachable(s) && !s.shared.rig.busy && !s.shared.rig.pendingStop
    requires Quiet(s.shared) && Alone(s.shared)
    ensures s.shared.rig.dutyLeft == 0 && s.shared.rig.dutyRight == 0
    ensures !s.shared.rig.armed && !s.shared.rig.driving
  {
    ReachableInv(s);
  }

  lemma InitialReachable(s: State)
    requires Initial(s)
    ensures Reachable(s)
  {
    assert IsRun([s], []) && [s][0] == s;
  }

  lemma OtosReadWaiting() returns (s: State)
    ensures Reachable(s) && s.fibers == [[OtosWait], []] && !s.shared.rig.busy
  {
    var s0 := State(Shared(RigState(false, false, false, false, false, false, 0, 0),
                           Log(1, None, 0, 0, {}, 0, 0, 0, 0, {}, 0, 0, 0, 0, 0)), [[], []]);
    InitialReachable(s0);
    hide Reachable, Next;
    s := ReachNext(s0, 0, Call(CallOtos));
    CallFromIdle(s0, 0, CallOtos);
  }

  lemma OtosReadInProgress() returns (s: State)
    ensures Reachable(s) && s.fibers == [[OtosBody], []] && s.shared.rig.busy
  {
    hide Reachable, Next;
    var w := OtosReadWaiting();
    var c := Choice(false, Waits, Holds, 0, 0);
    s := ReachNext(w, 0, Run(c));
    RunOnlyFrame(w, 0, c);
  }

  lemma CallFromIdle(s: State, f: nat, e: Entry)
    requires f < |s.fibers| && s.fibers[f] == []
    ensures var (h, frames) := Enter(s.shared, f, e);
      Next(s, f, Call(e)) == State(Tick(h), s.fibers[f := frames])
  {
    var frames := Enter(s.shared, f, e).1;
    assert [] + frames == frames;
  }

  lemma RunOnlyFrame(s: State, f: nat, c: Choice)
    requires f < |s.fibers| && |s.fibers[f]| == 1
    ensures var (h, frames) := Advance(s.shared, f, Top(s, f), c);
      Next(s, f, Run(c)) == State(Tick(h), s.fibers[f := frames])
  {
    var frames := Advance(s.shared, f, Top(s, f), c).1;
    assert Below(s.fibers[f]) + frames == frames;
  }

  /** Only a tick delivers. A stop staged behind an OTOS read outlives that
      read's release: the guard is free again and the stop still staged. */
  lemma StagedStopOutlivesItsHolder() returns (s: State)
    ensures Reachable(s) && !s.shared.rig.busy && s.shared.rig.pendingStop
  {
    hide Reachable;
    s := OtosReadInProgress();
    s := ReachNext(s, 1, Call(CallStop));
    assert s.fibers[0] == [OtosBody] && s.shared.rig.busy && s.shared.rig.pendingStop;
    s := ReachNext(s, 0, Run(Choice(false, Waits, Holds, 0, 0)));
  }

  lemma ReachNext(s: State, f: nat, a: Action) returns (t: State)
    requires Reachable(s) && Enabled(s, f, a)
    ensures t == Next(s, f, a) && Reachable(t)
  {
    var states, moves :| IsRun(states, moves) && states[|moves|] == s;
    t := Next(s, f, a);
    assert IsRun(states + [t], moves + [Move(f, a)]);
    assert (states + [t])[|moves| + 1] == t;
  }
}
