/** Timestamps of the customs server: optional stamps, bans that expire, and
    the whole-second retry delay reported for them. All times are in ms. */
module Clock {

  /** A record field such as `rl` or `bk`, which is missing until first set. */
  datatype Stamp = Unset | At(ms: int)

  /** The stamp is set (and truthy) and younger than `interval`. */
  predicate Active(s: Stamp, interval: int, now: int) {
    s.At? && s.ms != 0 && now - s.ms < interval
  }

  /** Milliseconds until the stamp is `interval` old; a missing stamp counts from 0. */
  function MsLeft(s: Stamp, interval: int, now: int): int {
    (if s.At? then s.ms else 0) + interval - now
  }

  function Max(a: int, b: int): int {
    if a < b then b else a
  }

  function Min(a: int, b: int): int {
    if a < b then a else b
  }

  /** `Math.ceil(ms / 1000)`. */
  function CeilSeconds(ms: int): int {
    -(-ms / 1000)
  }

  /** Whole seconds to wait, never negative. */
  function RetrySeconds(ms: int): nat {
    Max(0, CeilSeconds(ms))
  }

  /** The rounding is upwards and tight: the delay covers `ms`, one second less does not. */
  lemma RetrySecondsTight(ms: int)
    ensures RetrySeconds(ms) > 0 <==> ms > 0
    ensures ms <= 1000 * RetrySeconds(ms)
    ensures ms > 0 ==> 1000 * (RetrySeconds(ms) - 1) < ms
  {
  }

  /** The stamp with everything forgotten that can no longer matter at `now`. */
  function Fade(s: Stamp, interval: int, now: int): Stamp {
    if Active(s, interval, now) then s else Unset
  }

  /** Stamps that fade to the same value are equally active and leave the same delay. */
  lemma FadeDecides(a: Stamp, b: Stamp, interval: nat, now: int)
    requires Fade(a, interval, now) == Fade(b, interval, now)
    requires now >= interval && now > 0
    ensures Active(a, interval, now) == Active(b, interval, now)
    ensures RetrySeconds(MsLeft(a, interval, now)) == RetrySeconds(MsLeft(b, interval, now))
  {
    RetrySecondsTight(MsLeft(a, interval, now));
    RetrySecondsTight(MsLeft(b, interval, now));
  }

  /** The stamp is missing or not later than `bound`. */
  predicate Past(s: Stamp, bound: int) {
    s.At? ==> s.ms <= bound
  }

  /** `b` is at least as late as `a`. */
  predicate NotEarlier(a: Stamp, b: Stamp) {
    a.At? ==> b.At? && a.ms <= b.ms
  }
}
