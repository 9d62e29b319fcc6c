/** The one-second countdown used twice on the exam page: the reflection modal's
    dismissal delay and the evaluate button's cooldown. Both run an interval
    whose callback maps the previous value `prev` to `prev - 1`, or, once
    `prev <= 1`, to 0 while clearing the interval. */
module Countdown {

  /** The outcome of one interval callback: the new value, and whether the
      interval cleared itself. */
  datatype Tick = Tick(next: int, stopped: bool)

  function Step(prev: int): (t: Tick)
    ensures t.stopped <==> prev <= 1
    ensures t.next == if t.stopped then 0 else prev - 1
    ensures 0 <= t.next < prev || (prev <= 0 && t.next == 0)
  {
    if prev <= 1 then Tick(0, true) else Tick(prev - 1, false)
  }

  /** The value and the running flag after `k` callbacks of an interval that is
      running when `running` holds; once it has stopped nothing fires. */
  function Run(value: int, running: bool, k: nat): (int, bool)
    decreases k
  {
    if k == 0 || !running then (value, running)
    else
      var t := Step(value);
      Run(t.next, !t.stopped, k - 1)
  }

  /** Started at `n >= 1`, the countdown shows `n - k` and is still running after
      `k < n` ticks, and is at 0 and stopped from the `n`-th tick on. */
  lemma {:induction false} RunFrom(n: int, k: nat)
    requires n >= 1
    ensures k < n ==> Run(n, true, k) == (n - k, true)
    ensures k >= n ==> Run(n, true, k) == (0, false)
  {
    if k > 0 {
      if n == 1 {
        assert Run(n, true, k) == Run(0, false, k - 1);
      } else {
        RunFrom(n - 1, k - 1);
      }
    }
  }
}
