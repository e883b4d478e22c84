/** The tick engine's self-pacing and the starvation watchdog. Instants are
    microseconds of the robot's own clock; sleeps are whole milliseconds. */
module TickTiming {
  const WATCHDOG_TIMEOUT: nat := 100000

  datatype Wait = SleepMillis(ms: nat) | Yield

  function NextDeadline(previous: nat, cycleStart: nat, period: nat): nat {
    if previous != 0 && cycleStart < previous + period then previous + period else cycleStart + period
  }

  function WaitUntil(now: nat, deadline: nat): Wait {
    if now < deadline then SleepMillis((deadline - now + 999) / 1000) else Yield
  }

  predicate WatchdogFires(lastTick: nat, now: nat, active: bool) {
    now - lastTick > WATCHDOG_TIMEOUT && active
  }

  /** The Rig's two timing fields. */
  class TickClock {
    var lastTick: nat      // start of the latest tick, 0 for none
    var tickDeadline: nat  // its deadline, 0 for none

    constructor ()
      ensures lastTick == 0 && tickDeadline == 0
    {
      lastTick, tickDeadline := 0, 0;
    }

    method Begin(now: nat) returns (cycleStart: nat)
      modifies this
      ensures cycleStart == now && lastTick == now && tickDeadline == old(tickDeadline)
    {
      cycleStart := now;
      lastTick := cycleStart;
    }

    /** The deadline of a tick begun at `cycleStart` that reaches its pacing at `now`,
        and the wait that gets it there. */
    method Pace(cycleStart: nat, now: nat, cyclePeriod: nat) returns (wait: Wait)
      modifies this
      ensures lastTick == old(lastTick)
      ensures tickDeadline == NextDeadline(old(tickDeadline), cycleStart, cyclePeriod * 1000)
      ensures wait == WaitUntil(now, tickDeadline)
      // the wait ends at the deadline or less than a millisecond after it; there is
      // none exactly when the deadline is past
      ensures wait.SleepMillis? ==> tickDeadline <= now + wait.ms * 1000 < tickDeadline + 1000
      ensures wait.Yield? <==> tickDeadline <= now
      // and is no longer than a period, unless the tick began before the last deadline
      ensures wait.SleepMillis? && old(tickDeadline) <= now && cycleStart <= now ==> wait.ms <= cyclePeriod
    {
      var period := cyclePeriod * 1000;
      var consecutive := tickDeadline != 0 && cycleStart < tickDeadline + period;
      var deadline := if consecutive then tickDeadline + period else cycleStart + period;
      tickDeadline := deadline;
      if now < deadline {
        wait := SleepMillis((deadline - now + 999) / 1000);
        RoundUp(deadline - now, cyclePeriod);
      } else {
        wait := Yield;
      }
    }

    /** One pass of the watchdog's loop; true when it stops the robot, which takes an
        active drive and over 100 ms since the latest tick began. */
    method Poll(now: nat, active: bool) returns (stops: bool)
      requires lastTick <= now
      ensures stops == WatchdogFires(lastTick, now, active)
      ensures stops <==> active && now - lastTick > 100000
    {
      var sinceLastTick := now - lastTick;
      if sinceLastTick <= WATCHDOG_TIMEOUT {
        return false;
      }
      return active;
    }
  }

  // ---- pacing over whole runs ----------------------------------------------------

  /** One call of tickDrive(): when it started, when it reached its pacing, the
      deadline it set, and when it returned. */
  datatype Tick = Tick(start: nat, paced: nat, deadline: nat, returned: nat)

  predicate WakesNoEarlier(now: nat, wait: Wait, woken: nat) {
    match wait
    case SleepMillis(ms) => woken >= now + ms * 1000
    case Yield => woken >= now
  }

  predicate TickFollows(ticks: seq<Tick>, cyclePeriod: nat, i: nat)
    requires i < |ticks|
  {
    var t := ticks[i];
    && t.start <= t.paced
    && t.deadline == NextDeadline(if i == 0 then 0 else ticks[i - 1].deadline, t.start, cyclePeriod * 1000)
    && WakesNoEarlier(t.paced, WaitUntil(t.paced, t.deadline), t.returned)
    && (i > 0 ==> ticks[i - 1].returned <= t.start)
  }

  /** One ticker calling tickDrive() over and over, with a sleeper that never
      wakes early. Anything may delay it between calls or inside them. */
  ghost predicate TickRun(ticks: seq<Tick>, cyclePeriod: nat) {
    forall i :: 0 <= i < |ticks| ==> TickFollows(ticks, cyclePeriod, i)
  }

  lemma RoundUp(d: nat, ms: nat)
    ensures d <= ((d + 999) / 1000) * 1000 < d + 1000
    ensures d <= ms * 1000 ==> (d + 999) / 1000 <= ms
  {}

  /** What the model leaves open about one tick: how long after the last one it begins,
      how long its body takes, and how much later than asked the fiber wakes. */
  datatype Delay = Delay(before: nat, body: nat, late: nat)

  function Slept(wait: Wait): nat {
    if wait.SleepMillis? then wait.ms * 1000 else 0
  }

  predicate Delayed(ticks: seq<Tick>, began: nat, d: Delay, i: nat)
    requires i < |ticks|
  {
    var t := ticks[i];
    && t.start == (if i == 0 then began else ticks[i - 1].returned) + d.before
    && t.paced == t.start + d.body
    && t.returned == t.paced + Slept(WaitUntil(t.paced, t.deadline)) + d.late
  }

  /** A caller's loop over tickDrive(), under any delays at all: its ticks are a run
      in the sense of the lemmas below, and the clock holds the last of them. */
  method RunTicker(clock: TickClock, began: nat, cyclePeriod: nat, delays: seq<Delay>) returns (ticks: seq<Tick>)
    requires clock.lastTick == 0 && clock.tickDeadline == 0
    modifies clock
    ensures |ticks| == |delays| && TickRun(ticks, cyclePeriod)
    ensures forall i :: 0 <= i < |ticks| ==> Delayed(ticks, began, delays[i], i)
    ensures ticks != [] ==>
      clock.lastTick == ticks[|ticks| - 1].start && clock.tickDeadline == ticks[|ticks| - 1].deadline
  {
    ticks := [];
    var now := began;
    for k := 0 to |delays|
      invariant |ticks| == k && TickRun(ticks, cyclePeriod)
      invariant forall i :: 0 <= i < k ==> Delayed(ticks, began, delays[i], i)
      invariant k == 0 ==> now == began && clock.tickDeadline == 0
      invariant k > 0 ==>
        && now == ticks[k - 1].returned
        && clock.lastTick == ticks[k - 1].start && clock.tickDeadline == ticks[k - 1].deadline
    {
      var start := clock.Begin(now + delays[k].before);
      var paced := start + delays[k].body;
      var wait := clock.Pace(start, paced, cyclePeriod);
      now := paced + Slept(wait) + delays[k].late;
      ghost var run := ticks;
      ticks := ticks + [Tick(start, paced, clock.tickDeadline, now)];
      TickRunGrows(run, ticks, cyclePeriod, began, delays);
    }
  }

  lemma TickRunGrows(run: seq<Tick>, ticks: seq<Tick>, cyclePeriod: nat, began: nat, delays: seq<Delay>)
    requires |ticks| == |run| + 1 && ticks[..|run|] == run && |run| < |delays|
    requires TickRun(run, cyclePeriod) && TickFollows(ticks, cyclePeriod, |run|)
    requires forall i :: 0 <= i < |run| ==> Delayed(run, began, delays[i], i)
    ensures TickRun(ticks, cyclePeriod)
    ensures forall i :: 0 <= i < |run| ==> Delayed(ticks, began, delays[i], i)
  {
    forall i | 0 <= i < |run|
      ensures TickFollows(ticks, cyclePeriod, i) && Delayed(ticks, began, delays[i], i)
    {
      assert TickFollows(run, cyclePeriod, i) && Delayed(run, began, delays[i], i);
      assert run[i] == ticks[i] && (i > 0 ==> run[i - 1] == ticks[i - 1]);
    }
  }

  /** A tick never returns before its deadline, and never sleeps longer than
      one whole period. */
  lemma {:induction false} ReturnsAtDeadline(ticks: seq<Tick>, cyclePeriod: nat, i: nat)
    requires TickRun(ticks, cyclePeriod) && i < |ticks|
    ensures ticks[i].returned >= ticks[i].deadline
    ensures var wait := WaitUntil(ticks[i].paced, ticks[i].deadline);
      wait.SleepMillis? ==> wait.ms <= cyclePeriod
  {
    var t := ticks[i];
    if i > 0 {
      ReturnsAtDeadline(ticks, cyclePeriod, i - 1);
    }
    assert TickFollows(ticks, cyclePeriod, i);
    assert t.deadline <= t.paced + cyclePeriod * 1000;
    if t.paced < t.deadline {
      RoundUp(t.deadline - t.paced, cyclePeriod);
    }
  }

  /** One tick to the next: at least a period between deadlines, exactly one when the
      tick began within a period of the deadline before it, and otherwise the late tick
      gets one whole period from its own start. */
  lemma NextTick(ticks: seq<Tick>, cyclePeriod: nat, i: nat)
    requires TickRun(ticks, cyclePeriod) && cyclePeriod > 0 && 0 < i < |ticks|
    ensures ticks[i - 1].deadline > 0 && ticks[i].start >= ticks[i - 1].deadline
    ensures ticks[i].deadline >= ticks[i - 1].deadline + cyclePeriod * 1000
    ensures ticks[i].deadline == ticks[i - 1].deadline + cyclePeriod * 1000
       <==> ticks[i].start < ticks[i - 1].deadline + cyclePeriod * 1000
    ensures ticks[i].start >= ticks[i - 1].deadline + cyclePeriod * 1000 ==>
              ticks[i].deadline == ticks[i].start + cyclePeriod * 1000
  {
    ReturnsAtDeadline(ticks, cyclePeriod, i - 1);
    assert TickFollows(ticks, cyclePeriod, i) && TickFollows(ticks, cyclePeriod, i - 1);
  }

  function Periods(k: nat, cyclePeriod: nat): nat {
    if k == 0 then 0 else Periods(k - 1, cyclePeriod) + cyclePeriod * 1000
  }

  lemma {:induction false} PeriodsIsProduct(k: nat, cyclePeriod: nat)
    ensures Periods(k, cyclePeriod) == k * (cyclePeriod * 1000)
  {
    if k > 0 {
      PeriodsIsProduct(k - 1, cyclePeriod);
    }
  }

  /** Deadlines are a period apart or more: a late tick is never made up for. */
  lemma {:induction false} NoCatchUpBurst(ticks: seq<Tick>, cyclePeriod: nat, i: nat, j: nat)
    requires TickRun(ticks, cyclePeriod) && cyclePeriod > 0 && i <= j < |ticks|
    ensures ticks[j].deadline >= ticks[i].deadline + Periods(j - i, cyclePeriod)
    ensures i < j ==> ticks[j].start >= ticks[i].deadline
  {
    if i < j {
      NoCatchUpBurst(ticks, cyclePeriod, i, j - 1);
      NextTick(ticks, cyclePeriod, j);
    }
  }

  /** Tick i + 1 began within a period of tick i's deadline, up to tick k. */
  ghost predicate Uninterrupted(ticks: seq<Tick>, cyclePeriod: nat, k: nat)
    requires k < |ticks|
  {
    forall i :: 0 < i <= k ==> ticks[i].start < ticks[i - 1].deadline + cyclePeriod * 1000
  }

  /** The cadence does not drift: the first tick has one whole period, and the k-th
      deadline is the first plus k periods exactly when no tick on the way was a period
      late. */
  lemma {:induction false} CadenceIsExact(ticks: seq<Tick>, cyclePeriod: nat, k: nat)
    requires TickRun(ticks, cyclePeriod) && cyclePeriod > 0 && k < |ticks|
    ensures ticks[0].deadline == ticks[0].start + cyclePeriod * 1000
    ensures Uninterrupted(ticks, cyclePeriod, k)
       <==> ticks[k].deadline == ticks[0].deadline + Periods(k, cyclePeriod)
  {
    assert TickFollows(ticks, cyclePeriod, 0);
    if k > 0 {
      CadenceIsExact(ticks, cyclePeriod, k - 1);
      NoCatchUpBurst(ticks, cyclePeriod, 0, k - 1);
      NextTick(ticks, cyclePeriod, k);
      assert Uninterrupted(ticks, cyclePeriod, k)
        <==> Uninterrupted(ticks, cyclePeriod, k - 1) && ticks[k].start < ticks[k - 1].deadline + cyclePeriod * 1000;
    }
  }

  // ---- the watchdog -------------------------------------------------------------

  /** The watchdog's freshness signal at `now`: the latest tick begun by then. */
  function LastTick(starts: seq<nat>, now: nat): (t: nat) {
    if |starts| == 0 then 0
    else if starts[|starts| - 1] <= now then starts[|starts| - 1]
    else LastTick(starts[..|starts| - 1], now)
  }

  /** While ticks keep starting at most 100 ms apart the watchdog stays quiet. */
  lemma {:induction false} LiveTicksNeverStopped(starts: seq<nat>, now: nat, active: bool)
    requires |starts| > 0 && starts[0] <= now <= starts[|starts| - 1] + 100000
    requires forall i :: 0 < i < |starts| ==> starts[i - 1] <= starts[i] <= starts[i - 1] + 100000
    ensures !WatchdogFires(LastTick(starts, now), now, active)
  {
    if starts[|starts| - 1] > now {
      LiveTicksNeverStopped(starts[..|starts| - 1], now, active);
    }
  }

  /** Once ticking has ceased with the drive still active, the first poll past the
      timeout stops the robot, no later after it than the polls are apart. An inactive
      drive is never stopped. */
  lemma {:induction false} StarvationStopsInTime(last: nat, polls: seq<nat>, gap: nat) returns (i: nat)
    requires |polls| > 0 && last <= polls[0] <= last + 100000 < polls[|polls| - 1]
    requires forall k :: 0 < k < |polls| ==> polls[k - 1] <= polls[k] <= polls[k - 1] + gap
    ensures i < |polls| && polls[i] <= last + 100000 + gap
    ensures WatchdogFires(last, polls[i], true)
    ensures forall k :: 0 <= k < i ==> !WatchdogFires(last, polls[k], true)
    ensures forall k :: 0 <= k < |polls| ==> !WatchdogFires(last, polls[k], false)
  {
    if polls[|polls| - 2] > last + 100000 {
      i := StarvationStopsInTime(last, polls[..|polls| - 1], gap);
    } else {
      i := |polls| - 1;
      forall k | 0 <= k < i ensures polls[k] <= polls[i - 1] {
        PollsAscend(polls, k, i - 1);
      }
    }
  }

  lemma {:induction false} PollsAscend(polls: seq<nat>, a: nat, b: nat)
    requires a <= b < |polls|
    requires forall k :: 0 < k < |polls| ==> polls[k - 1] <= polls[k]
    ensures polls[a] <= polls[b]
  {
    if a < b {
      PollsAscend(polls, a, b - 1);
    }
  }
}
