/** The quadratic ease-in-out curve `easeInOutQuad`, on exact rationals. */
module Easing {

  /** The first half of the curve, at normalised time `u = t / (d / 2)` below 1. */
  function EaseInBranch(u: real, cover: real, begin: real): real
  {
    cover / 2.0 * (u * u) + begin
  }

  /** The second half of the curve, at `u' = u - 1`. */
  function EaseOutBranch(u': real, cover: real, begin: real): real
  {
    -cover / 2.0 * (u' * (u' - 2.0) - 1.0) + begin
  }

  /**
   * Position at `time` on the way from `begin` to `end` over `duration`;
   * `pow(newTime, 2)` is `newTime * newTime`.
   */
  function EaseInOutQuad(time: real, begin: real, end: real, duration: real): real
    requires duration != 0.0
  {
    var coverDistance := end - begin;
    var newTime := time / (duration / 2.0);
    if newTime < 1.0 then EaseInBranch(newTime, coverDistance, begin)
    else EaseOutBranch(newTime - 1.0, coverDistance, begin)
  }

  /** The curve starts at `begin`. */
  lemma EaseStart(begin: real, end: real, duration: real)
    requires duration != 0.0
    ensures EaseInOutQuad(0.0, begin, end, duration) == begin
  {
  }

  /** The curve ends exactly at `end`. */
  lemma EaseEnd(begin: real, end: real, duration: real)
    requires duration != 0.0
    ensures EaseInOutQuad(duration, begin, end, duration) == end
  {
    assert duration / (duration / 2.0) == 2.0;
  }

  /**
   * The curve is continuous where its branches meet: at `t = d / 2` the
   * second branch gives the half-way point, which is also the limit of the
   * first branch at `u = 1`.
   */
  lemma EaseMidpoint(begin: real, end: real, duration: real)
    requires duration != 0.0
    ensures EaseInOutQuad(duration / 2.0, begin, end, duration) == begin + (end - begin) / 2.0
    ensures EaseInBranch(1.0, end - begin, begin) == EaseOutBranch(0.0, end - begin, begin)
  {
    assert (duration / 2.0) / (duration / 2.0) == 1.0;
  }

  /** The fraction of the distance covered at normalised time `u`, for `u` in [0, 2]. */
  function Progress(u: real): (f: real)
    requires 0.0 <= u <= 2.0
    ensures 0.0 <= f <= 1.0
  {
    if u < 1.0 then
      assert u * u <= u * 1.0;
      u * u / 2.0
    else
      var v := u - 1.0;
      assert v * v <= v * 1.0;
      -(v * (v - 2.0) - 1.0) / 2.0
  }

  /** Within the duration, the position is `begin` plus the fraction `Progress(u)` of the distance. */
  lemma EaseProgress(time: real, begin: real, end: real, duration: real)
    requires 0.0 <= time <= duration && duration > 0.0
    ensures var u := time / (duration / 2.0);
      0.0 <= u <= 2.0 &&
      EaseInOutQuad(time, begin, end, duration) == begin + (end - begin) * Progress(u)
  {
    var u := time / (duration / 2.0);
    assert u == 2.0 * time / duration;
    assert 2.0 * time <= 2.0 * duration;
  }

  /** Within the duration the position never leaves the segment between `begin` and `end`. */
  lemma EaseBetween(time: real, begin: real, end: real, duration: real)
    requires 0.0 <= time <= duration && duration > 0.0
    ensures begin <= end ==> begin <= EaseInOutQuad(time, begin, end, duration) <= end
    ensures end <= begin ==> end <= EaseInOutQuad(time, begin, end, duration) <= begin
  {
    EaseProgress(time, begin, end, duration);
    var f := Progress(time / (duration / 2.0));
    Between(begin, end, f, EaseInOutQuad(time, begin, end, duration));
  }

  /** A point `begin + (end - begin) * f` with `f` in [0, 1] lies between `begin` and `end`. */
  lemma Between(begin: real, end: real, f: real, r: real)
    requires 0.0 <= f <= 1.0 && r == begin + (end - begin) * f
    ensures begin <= end ==> begin <= r <= end
    ensures end <= begin ==> end <= r <= begin
  {
    assert r - begin == (end - begin) * f;
    assert end - r == (end - begin) * (1.0 - f);
    if begin <= end {
      NonNegProduct(end - begin, f);
      NonNegProduct(end - begin, 1.0 - f);
    } else {
      NonNegProduct(begin - end, f);
      NonNegProduct(begin - end, 1.0 - f);
      assert begin - r == (begin - end) * f;
      assert r - end == (begin - end) * (1.0 - f);
    }
  }

  lemma NonNegProduct(a: real, b: real)
    requires a >= 0.0 && b >= 0.0
    ensures a * b >= 0.0
  {
  }
}
