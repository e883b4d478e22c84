/** Every cooperative-fiber interleaving of the rig's entry points. */
module Fibers {
  import opened Options
  import opened Rigs

  /** What a fiber is doing while it holds the guard for the motors. */
  datatype Job =
    | TickStep                // tickDrive()'s own kernel step
    | TickSettle              // settling after a motion ended
    | NudgeFire | NudgeSettle // a nudge's pulse, fired by service() inside the tick
    | Deliver(checked: nat)   // delivering a stop taken at that instant
    | Stop(called: nat)       // softStop(), entered at that instant
    | PulseFire | PulseSettle // enginePulseWheels()
    | PollFire | PollSettle   // the same nudge pulse, fired from updateMove(): no guard

  /** The jobs that begin by zeroing the ports. */
  type StopJob = j: Job | j.Deliver? || j.Stop? witness Deliver(0)

  /** Where kernel.step() is: it reads its command once, on entry. */
  datatype Phase = WriteLeft | WriteRight | ReadEncoders

  datatype Frame =
    | TickWait                                         // tickDrive() at its acquire
    | Stepping(job: Job, phase: Phase, command: bool)  // inside kernel.step()
    | Between(job: Job)                                // step() has just returned
    | ZeroLeft(stop: StopJob)                          // about to zero the left port
    | ZeroRight(stop: StopJob)
    | TickOtosWait                                     // the deferred zero's acquire, refused
    | TickOtos                                         // the deferred OTOS zero's I2C body
    | Hook                                             // inside the service hook
    | Pace                                             // the pacing sleep
    | OtosWait | OtosBody                              // otos*() and seedPose()
    | PulseWait                                        // enginePulseWheels()
    | ConfigWait | ConfigBody                          // configureMotor(), after its stop
    | EstopLeft | EstopRight                           // estopAll(): writes without the guard

  /** What has happened, by instant. No step reads any of it. */
  datatype Log = Log(
    now: nat,
    holder: Option<nat>,   // the fiber that last took the guard, while it is taken
    zeroLeft: nat,         // latest guarded zero on each port, 0 for never
    zeroRight: nat,
    stops: set<nat>,       // call instants of the soft stops that have returned
    lastStop: nat,         // latest softStop() call
    stopTaken: nat,        // latest staged stop a tick took for delivery
    lastDrive: nat,        // latest call that may put duty on: drive, nudge or pulse
    lastLoose: nat,        // latest segment of a pulse fired without the guard
    rebases: set<nat>,
    lastRebase: nat,
    otosTaken: nat,        // latest deferred OTOS zero a tick took
    otosZero: nat,         // latest deferred OTOS zero written
    lastTaken: nat,        // latest taking of the guard
    lastEnd: nat)          // latest motion ended by a tick's service

  /** Everything the fibers share, and the log. */
  datatype Shared = Shared(rig: RigState, log: Log)

  /** A fiber is a stack of frames: the service hook may call any entry point. */
  datatype State = State(shared: Shared, fibers: seq<seq<Frame>>)

  /** What a nudge or a wheel pulse does next: hold, go straight to its settle with a
      width of zero, or fire. */
  datatype Pulse = Holds | ZeroWidth | Fires

  datatype Entry =
    | CallTick | CallStop | CallPulse | CallOtos | CallConfigure
    | CallRebase | CallDrive(starts: bool) | CallNudge(starts: bool)
    | CallPoll(outcome: Outcome, pulse: Pulse, segment: bool) | CallEstop

  /** How the parts the model leaves open turn out. */
  datatype Choice = Choice(again: bool, outcome: Outcome, pulse: Pulse, dutyLeft: int, dutyRight: int)

  datatype Action = Call(entry: Entry) | Run(choice: Choice)

  // ---- frames -------------------------------------------------------------

  /** The job steps the kernel with no guard around it. */
  predicate Loose(job: Job) {
    job.PollFire? || job.PollSettle?
  }

  /** The frame belongs to a body bracketed by acquire() and release(). */
  predicate Guarded(fr: Frame) {
    match fr
    case Stepping(job, _, _) => !Loose(job)
    case Between(job) => !Loose(job)
    case _ => fr.ZeroLeft? || fr.ZeroRight? || fr.TickOtos? || fr.OtosBody? || fr.ConfigBody?
  }

  predicate Waiting(fr: Frame) {
    fr.TickWait? || fr.TickOtosWait? || fr.OtosWait? || fr.PulseWait? || fr.ConfigWait?
  }

  /** Running this frame performs an I2C transaction. */
  predicate TouchesBus(fr: Frame) {
    fr.Stepping? || (Guarded(fr) && !fr.Between?) || fr.EstopLeft? || fr.EstopRight?
  }

  predicate Running(s: State, f: nat) {
    f < |s.fibers| && |s.fibers[f]| > 0
  }

  function Top(s: State, f: nat): Frame
    requires Running(s, f)
  {
    s.fibers[f][|s.fibers[f]| - 1]
  }

  /** Entry points are called by an idle fiber or from within the hook. */
  predicate Enabled(s: State, f: nat, a: Action) {
    f < |s.fibers| &&
    match a
    case Call(_) => |s.fibers[f]| == 0 || Top(s, f) == Hook
    case Run(_) => |s.fibers[f]| > 0
  }

  // ---- segments: the code between two switch points -------------------------
  //
  // Each takes the shared state to its successor, and gives the frames that
  // replace the running one: none when the call returns.

  /** Acquire and continue at `fr`; while the bus is busy, stay at `waiting`. */
  function AcquireThen(h: Shared, f: nat, waiting: Frame, fr: Frame): (Shared, seq<Frame>) {
    var (r, got) := TryAcquire(h.rig);
    if got then (Shared(r, TakenBy(h.log, f)), [fr]) else (h, [waiting])
  }

  function TakenBy(g: Log, f: nat): Log {
    g.(holder := Some(f), lastTaken := g.now)
  }

  function ReleaseBy(h: Shared): Shared {
    Shared(Release(h.rig), h.log.(holder := None))
  }

  /** kernel.step() reads its command on entry. */
  function StartStep(h: Shared, job: Job): (Shared, seq<Frame>) {
    (h, [Stepping(job, WriteLeft, h.rig.armed)])
  }

  /** driveDuty(): a pulse arms the kernel itself. */
  function Fire(h: Shared): Shared {
    h.(rig := h.rig.(armed := true))
  }

  /** The pulse is over; its settle begins. */
  function EndFire(h: Shared, settle: Job): (Shared, seq<Frame>) {
    StartStep(h.(rig := Neutral(h.rig)), settle)
  }

  function MarkLoose(h: Shared): Shared {
    h.(log := h.log.(lastLoose := h.log.now))
  }

  function MarkDrive(h: Shared): Shared {
    h.(log := h.log.(lastDrive := h.log.now))
  }

  function SoftStop(h: Shared, f: nat): (Shared, seq<Frame>) {
    var (r, writes) := EnterSoftStop(h.rig);
    var now := h.log.now;
    if writes then
      (Shared(r, TakenBy(h.log, f).(lastStop := now)), [ZeroLeft(Stop(now))])
    else
      (Shared(r, h.log.(stops := h.log.stops + {now}, lastStop := now)), [])
  }

  /** updateMove() finds the motion over: it stops the robot if that was a segment. */
  predicate PollStops(r: RigState, o: Outcome) {
    r.driving && !r.nudging && o == Ends
  }

  /** The frames an entry point adds to its caller's. */
  function Enter(h: Shared, f: nat, e: Entry): (Shared, seq<Frame>) {
    match e
    case CallTick => (h, [TickWait])
    case CallStop => SoftStop(h, f)
    case CallPulse => (MarkDrive(h), [PulseWait])
    case CallOtos => (h, [OtosWait])
    case CallConfigure => var (q, frames) := SoftStop(h, f); (q, [ConfigWait] + frames)
    case CallRebase =>
      (Shared(RequestRebase(h.rig), h.log.(rebases := h.log.rebases + {h.log.now}, lastRebase := h.log.now)), [])
    case CallDrive(starts) => (MarkDrive(h.(rig := StartDrive(h.rig, starts))), [])
    case CallNudge(starts) => (MarkDrive(h.(rig := StartNudge(h.rig, starts))), [])
    case CallPoll(outcome, pulse, segment) =>
      if h.rig.nudging && pulse == Fires then StartStep(Fire(MarkLoose(h)), PollFire)
      else if h.rig.nudging && pulse == ZeroWidth then EndFire(MarkLoose(h), PollSettle)
      else
        var q := h.(rig := Service(h.rig, outcome));
        if PollStops(h.rig, outcome) && segment then SoftStop(q, f) else (q, [])
    case CallEstop => (h.(rig := Disarm(h.rig)), [EstopLeft])
  }

  /** tickDrive() from its release on. */
  function EndTick(h: Shared, f: nat): (Shared, seq<Frame>) {
    var (r, next) := LeaveTick(h.rig);
    match next
    case RunsHook => (Shared(r, h.log.(holder := None)), [Hook])
    case WritesOtosZero => (Shared(r, TakenBy(h.log, f).(otosTaken := h.log.now)), [TickOtos])
    case WaitsForBus => (Shared(r, h.log.(holder := None, otosTaken := h.log.now)), [TickOtosWait])
  }

  /** tickDrive()'s staged-stop check and what follows it. */
  function CheckStaged(h: Shared, f: nat): (Shared, seq<Frame>) {
    var (r, delivers) := TakeStagedStop(h.rig);
    if delivers then (Shared(r, h.log.(stopTaken := h.log.now)), [ZeroLeft(Deliver(h.log.now))])
    else EndTick(h, f)
  }

  /** service() inside a tick; the log notes a motion that was active and is no more. */
  function Served(h: Shared, o: Outcome): Shared {
    var r := Service(h.rig, o);
    Shared(r, if h.rig.driving && !r.driving then h.log.(lastEnd := h.log.now) else h.log)
  }

  /** tickDrive() from its own kernel step on: the nudge's next pulse, the settle of a
      motion found finished, or the staged-stop check. */
  function ServeMotion(h: Shared, f: nat, c: Choice): (Shared, seq<Frame>) {
    if h.rig.nudging && c.pulse == Fires then StartStep(Fire(h), NudgeFire)
    else if h.rig.nudging && c.pulse == ZeroWidth then EndFire(h, NudgeSettle)
    else
      var q := Served(h, c.outcome);
      if h.rig.driving && c.outcome == Ends then StartStep(q, TickSettle) else CheckStaged(q, f)
  }

  function AfterStep(h: Shared, f: nat, job: Job, c: Choice): (Shared, seq<Frame>) {
    match job
    case TickStep => ServeMotion(h, f, c)
    case TickSettle => if c.again then StartStep(h, job) else CheckStaged(h, f)
    case NudgeFire => if c.again then StartStep(Fire(h), job) else EndFire(h, NudgeSettle)
    case NudgeSettle => if c.again then StartStep(h, job) else CheckStaged(h, f)
    case Deliver(_) => if c.again then StartStep(h, job) else EndTick(h, f)
    case Stop(called) =>
      if c.again then StartStep(h, job)
      else
        var q := ReleaseBy(h);
        (q.(log := q.log.(stops := q.log.stops + {called})), [])
    case PulseFire => if c.again then StartStep(Fire(h), job) else EndFire(h, PulseSettle)
    case PulseSettle => if c.again then StartStep(h, job) else (ReleaseBy(h), [])
    case PollFire =>
      if c.again then StartStep(Fire(MarkLoose(h)), job) else EndFire(MarkLoose(h), PollSettle)
    case PollSettle => if c.again then StartStep(MarkLoose(h), job) else (h, [])
  }

  /** One leg of kernel.step(): a port write under the command read on entry, or the
      encoder read at the end. */
  function StepKernel(h: Shared, job: Job, phase: Phase, command: bool, c: Choice): (Shared, seq<Frame>) {
    match phase
    case WriteLeft =>
      (h.(rig := h.rig.(dutyLeft := if command then c.dutyLeft else 0)), [Stepping(job, WriteRight, command)])
    case WriteRight =>
      (h.(rig := h.rig.(dutyRight := if command then c.dutyRight else 0)), [Stepping(job, ReadEncoders, command)])
    case ReadEncoders => (h, [Between(job)])
  }

  function Advance(h: Shared, f: nat, fr: Frame, c: Choice): (Shared, seq<Frame>) {
    match fr
    case TickWait => AcquireThen(h, f, fr, Stepping(TickStep, WriteLeft, h.rig.armed))
    case Stepping(job, phase, command) =>
      StepKernel(if Loose(job) then MarkLoose(h) else h, job, phase, command, c)
    case Between(job) => AfterStep(h, f, job, c)
    case ZeroLeft(job) =>
      (Shared(h.rig.(dutyLeft := 0), h.log.(zeroLeft := h.log.now)), [ZeroRight(job)])
    case ZeroRight(job) =>
      StartStep(Shared(h.rig.(dutyRight := 0), h.log.(zeroRight := h.log.now)), job)
    case TickOtosWait => AcquireThen(h, f, fr, TickOtos)
    case TickOtos =>
      var q := ReleaseBy(h);
      (q.(log := q.log.(otosZero := q.log.now)), [Hook])
    case Hook => (h, [Pace])
    case Pace => (h, [])
    case OtosWait => AcquireThen(h, f, fr, OtosBody)
    case OtosBody => if c.again then (h, [fr]) else (ReleaseBy(h), [])
    case PulseWait =>
      if h.rig.busy then (h, [fr])
      else
        var q := h.(rig := Cancel(h.rig));
        if c.pulse == Fires then AcquireThen(Fire(q), f, fr, Stepping(PulseFire, WriteLeft, true))
        else AcquireThen(q.(rig := Neutral(q.rig)), f, fr, Stepping(PulseSettle, WriteLeft, false))
    case ConfigWait => AcquireThen(h, f, fr, ConfigBody)
    case ConfigBody => if c.again then (h, [fr]) else (ReleaseBy(h), [])
    case EstopLeft => (h.(rig := h.rig.(dutyLeft := 0)), [EstopRight])
    case EstopRight => (h.(rig := h.rig.(dutyRight := 0)), [])
  }

  // ---- runs ------------------------------------------------------------------

  function Below(stack: seq<Frame>): seq<Frame>
    requires |stack| > 0
  {
    stack[..|stack| - 1]
  }

  /** The segment fiber `f` runs: the stack it leaves standing, the shared
      state it makes, and the frames it puts on top. */
  function Segment(s: State, f: nat, a: Action): (seq<Frame>, Shared, seq<Frame>)
    requires Enabled(s, f, a)
  {
    match a
    case Call(e) => var (h, frames) := Enter(s.shared, f, e); (s.fibers[f], h, frames)
    case Run(c) =>
      var (h, frames) := Advance(s.shared, f, Top(s, f), c); (Below(s.fibers[f]), h, frames)
  }

  function Tick(h: Shared): Shared {
    h.(log := h.log.(now := h.log.now + 1))
  }

  /** One atomic segment of fiber `f`; every segment is its own instant. */
  function Next(s: State, f: nat, a: Action): State
    requires Enabled(s, f, a)
  {
    var (below, h, frames) := Segment(s, f, a);
    State(Tick(h), s.fibers[f := below + frames])
  }

  ghost predicate Initial(s: State) {
    && s.shared.rig == RigState(false, false, false, false, false, false, 0, 0)
    && s.shared.log == Log(1, None, 0, 0, {}, 0, 0, 0, 0, {}, 0, 0, 0, 0, 0)
    && (forall f :: 0 <= f < |s.fibers| ==> s.fibers[f] == [])
  }

  datatype Move = Move(fiber: nat, action: Action)

  /** Each state follows from the one before by some fiber's move. */
  ghost predicate Follows(states: seq<State>, moves: seq<Move>) {
    && |states| == |moves| + 1
    && forall i :: 0 <= i < |moves| ==>
         Enabled(states[i], moves[i].fiber, moves[i].action) &&
         states[i + 1] == Next(states[i], moves[i].fiber, moves[i].action)
  }

  /** A run: it starts idle. */
  ghost predicate IsRun(states: seq<State>, moves: seq<Move>) {
    Follows(states, moves) && Initial(states[0])
  }

  ghost predicate Reachable(s: State) {
    exists states, moves :: IsRun(states, moves) && states[|moves|] == s
  }
}
