/** The shared drive rig: the bus guard, the staged stop, the deferred OTOS
    zero, and the kernel and motion engine reduced to a command, an activity
    flag and the duty on each port.

    Each function on `RigState` is the code between two points where a fiber can
    be switched. `RigObjects.SharedRig` is the object the firmware updates in place. */
module Rigs {
  datatype RigState = RigState(
    busy: bool,             // BusGuard::busy_
    pendingStop: bool,      // a stop staged behind the guard
    pendingOtosZero: bool,  // a rebase's deferred OTOS write
    driving: bool,          // a segment or a hold is in flight
    nudging: bool,          // a nudge is in flight
    armed: bool,            // the kernel holds a non-neutral command
    dutyLeft: int,
    dutyRight: int)

  /** One pass of BusGuard::acquire(): claim a free bus, or report it busy. */
  function TryAcquire(r: RigState): (RigState, bool) {
    if r.busy then (r, false) else (r.(busy := true), true)
  }

  function Release(r: RigState): RigState {
    r.(busy := false)
  }

  /** endMove() and neutral() before any stop. A nudge in flight stays in flight. */
  function Disarm(r: RigState): RigState {
    r.(driving := false, armed := false)
  }

  function Neutral(r: RigState): RigState {
    r.(armed := false)
  }

  /** cancelMove(): whatever is in flight is dropped, the kernel untouched. */
  function Cancel(r: RigState): RigState {
    r.(driving := false, nudging := false)
  }

  /** Rig::softStop() up to its first bus write. True: this fiber now holds
      the guard and must write the ports; false: the stop was staged. */
  function EnterSoftStop(r: RigState): (RigState, bool) {
    var q := Disarm(r);
    if q.busy then (q.(pendingStop := true), false) else TryAcquire(q)
  }

  /** tickDrive()'s staged-stop check. True: the stop is this fiber's to deliver. */
  function TakeStagedStop(r: RigState): (RigState, bool) {
    if r.pendingStop then (r.(pendingStop := false), true) else (r, false)
  }

  datatype AfterTick = WritesOtosZero | WaitsForBus | RunsHook

  /** tickDrive() from its guard release to its next bus write or hook call. */
  function LeaveTick(r: RigState): (RigState, AfterTick) {
    var q := Release(r);
    if !q.pendingOtosZero then (q, RunsHook)
    else
      var (p, got) := TryAcquire(q.(pendingOtosZero := false));
      (p, if got then WritesOtosZero else WaitsForBus)
  }

  function RequestRebase(r: RigState): RigState {
    r.(pendingOtosZero := true)
  }

  /** A motion command; a degenerate one only stops what was moving. */
  function StartDrive(r: RigState, starts: bool): RigState {
    if starts then Cancel(r).(driving := true) else Neutral(Cancel(r))
  }

  /** beginNudge(): the same, for a nudge. */
  function StartNudge(r: RigState, starts: bool): RigState {
    if starts then Cancel(r).(nudging := true) else Neutral(Cancel(r))
  }

  /** What service() finds: the motion over, at its target and waiting, or to be driven. */
  datatype Outcome = Ends | Waits | Drives

  /** MotionEngine::service() short of firing a pulse. A live nudge comes first. */
  function Service(r: RigState, o: Outcome): RigState {
    if r.nudging then (if o == Ends then Neutral(r.(nudging := false)) else r)
    else if !r.driving then r
    else match o
      case Ends => Disarm(r)
      case Waits => Neutral(r)
      case Drives => r.(armed := true)
  }
}
