/** The violation banner in the exam header: a count of charged violations and
    the time spent away, shown as minutes and seconds. */
module FraudAlert {
  import opened Common

  /** Minutes and seconds of a duration in whole seconds. */
  datatype Clock = Clock(minutes: nat, seconds: nat)

  /** `Math.floor(t / 60)` and `t % 60` for a positive `t`. */
  function SplitTime(t: nat): (c: Clock)
    ensures 60 * c.minutes + c.seconds == t
    ensures c.seconds < 60
  {
    Clock(t / 60, t % 60)
  }

  /** The split is the only minutes/seconds pair with seconds below 60 that
      adds up to the duration. */
  lemma SplitTimeUnique(t: nat, m: nat, s: nat)
    requires 60 * m + s == t && s < 60
    ensures SplitTime(t) == Clock(m, s)
  {
  }

  /** What the banner shows: the violation badge with its count, the separator,
      and the time badge with its minutes and seconds. */
  datatype AlertView = AlertView(fraudBadge: Option<int>, separator: bool, timeBadge: Option<Clock>)

  /** The banner for the two counters; `None` when nothing is rendered. */
  function Render(fraudAttempts: int, timeOutsideEval: int): (v: Option<AlertView>)
    ensures v.None? <==> fraudAttempts == 0 && timeOutsideEval == 0
    ensures v.Some? ==> (v.value.fraudBadge.Some? <==> fraudAttempts > 0)
    ensures v.Some? && v.value.fraudBadge.Some? ==> v.value.fraudBadge.value == fraudAttempts
    ensures v.Some? ==> (v.value.separator <==> fraudAttempts > 0 && timeOutsideEval > 0)
    ensures v.Some? ==> (v.value.timeBadge.Some? <==> timeOutsideEval > 0)
    ensures v.Some? && v.value.timeBadge.Some? ==>
      60 * v.value.timeBadge.value.minutes + v.value.timeBadge.value.seconds == timeOutsideEval
      && v.value.timeBadge.value.seconds < 60
  {
    if fraudAttempts == 0 && timeOutsideEval == 0 then None
    else
      Some(AlertView(
        if fraudAttempts > 0 then Some(fraudAttempts) else None,
        fraudAttempts > 0 && timeOutsideEval > 0,
        if timeOutsideEval > 0 then Some(SplitTime(timeOutsideEval)) else None))
  }

  /** The banner is hidden only for two exact zeros: a negative counter (which
      the no-clamp away time can produce) with the other at or below zero gives
      a banner with no badge in it. */
  lemma EmptyBannerForNonPositiveCounters(fraudAttempts: int, timeOutsideEval: int)
    requires fraudAttempts <= 0 && timeOutsideEval <= 0
    requires fraudAttempts < 0 || timeOutsideEval < 0
    ensures Render(fraudAttempts, timeOutsideEval) == Some(AlertView(None, false, None))
  {
  }
}
