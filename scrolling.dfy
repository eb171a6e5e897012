/**
 * The scrolling helpers of the synced-lyrics view: `clamp` and the constant
 * tables the scroll animation reads. Numbers are JavaScript numbers, modelled
 * as exact reals.
 */
module Scrolling {

  /** `Math.max(min, Math.min(max, n))`. */
  function Clamp(n: real, min: real, max: real): (r: real)
    ensures min <= max ==> min <= r <= max
    ensures min <= n <= max ==> r == n
    ensures min > max ==> r == min
    ensures r == n || r == min || r == max
  {
    var upper := if max <= n then max else n;
    if min >= upper then min else upper
  }

  /** Clamping a second time changes nothing. */
  lemma ClampIdempotent(n: real, min: real, max: real)
    ensures Clamp(Clamp(n, min, max), min, max) == Clamp(n, min, max)
  {
  }

  /** Clamping keeps the order of its inputs. */
  lemma ClampMonotone(n: real, n': real, min: real, max: real)
    requires n <= n'
    ensures Clamp(n, min, max) <= Clamp(n', min, max)
  {
  }

  /** One group of `SCROLL_DURATION`: a base, a multiplier and the bounds the duration is clamped to. */
  datatype ScrollTiming = ScrollTiming(base: real, mult: real, min: real, max: real)

  const Fast := ScrollTiming(260.0, 0.28, 240.0, 680.0)
  const Normal := ScrollTiming(550.0, 0.7, 850.0, 1650.0)
  const Jump1 := ScrollTiming(700.0, 0.8, 1000.0, 1800.0)
  const Jump4 := ScrollTiming(400.0, 0.6, 600.0, 1400.0)

  /** `SCROLL_DURATION` as a list of its four groups. */
  const ScrollDuration := [Fast, Normal, Jump1, Jump4]

  /** `LEAD_IN_TIME_MS`. */
  const LeadInTimeMs := 130

  /** Every group's bounds are in order, so a duration clamped to them lies between them. */
  lemma ScrollDurationBounds(i: nat, n: real)
    requires i < |ScrollDuration|
    ensures ScrollDuration[i].min <= ScrollDuration[i].max
    ensures var g := ScrollDuration[i]; g.min <= Clamp(n, g.min, g.max) <= g.max
  {
  }
}
