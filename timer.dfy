/** The per-question countdown: what one tick of the one-second interval does
    to the remaining time, and what a run of ticks does. */
module Timer {

  /** The new remaining time, and whether this tick fired the timeout. */
  datatype TickResult = TickResult(next: int, timeout: bool)

  /** The updater each tick hands to the remaining-time state: at one second
      or less it fires the timeout and lands on zero, otherwise it counts one
      second down. */
  function TickUpdate(prevTime: int): (r: TickResult)
    ensures r.timeout <==> prevTime <= 1
    ensures r.next >= 0
    ensures r.timeout <==> r.next == 0
    ensures prevTime >= 1 ==> r.next == prevTime - 1
    ensures prevTime >= 0 ==> r.next <= prevTime
  {
    if prevTime <= 1 then TickResult(0, true) else TickResult(prevTime - 1, false)
  }

  /** The remaining time after a run of ticks, and how many timeouts fired. */
  datatype Run = Run(time: int, fired: nat)

  function Max(a: int, b: int): (m: int)
  {
    if a < b then b else a
  }

  /** `n` ticks of an interval started with `t` seconds left. The interval is
      cleared by the tick that fires the timeout, so later ticks do not occur. */
  function Countdown(t: int, n: nat): (r: Run)
    ensures r.fired <= 1
    ensures r.time >= 0 || r.time == t
    ensures t >= 0 ==> r.time <= t
  {
    if n == 0 then Run(t, 0)
    else
      var s := TickUpdate(t);
      if s.timeout then Run(s.next, 1) else Countdown(s.next, n - 1)
  }

  /** Started from a non-negative time `t`, the timeout fires exactly once,
      on tick number max(t, 1); before that each tick takes one second off. */
  lemma {:induction false} CountdownFiresOnce(t: int, n: nat)
    requires t >= 0
    ensures Countdown(t, n).fired == (if n >= Max(t, 1) then 1 else 0)
    ensures Countdown(t, n).time == (if n >= Max(t, 1) then 0 else t - n)
  {
    if n > 0 && t > 1 {
      CountdownFiresOnce(t - 1, n - 1);
    }
  }
}
