/** The particle record `BZParticle` and the values it is made of. */
module Particles {
  import opened Wrappers

  /** One byte of the decoded RGBA8 pixel buffer. */
  type Byte = x: int | 0 <= x < 256

  /** A colour as UIColor holds it: red, green, blue and alpha components. */
  datatype Color = Color(red: real, green: real, blue: real, alpha: real)

  /** A CGPoint, with exact rationals in place of CGFloat. */
  datatype Point = Point(x: real, y: real)

  /**
   * A particle: its colour, its target point in the image's coordinates, and
   * the two random delays fixed when the struct is created.
   */
  datatype Particle = Particle(color: Color, point: Point, delayTime: nat, delayDuration: nat)

  /**
   * The random numbers one particle consumes, in the order the code draws
   * them: `delayTime` and `delayDuration` when the struct is initialised,
   * then one jitter value per axis if a jitter range is applied.
   */
  datatype Draws = Draws(delayTime: nat, delayDuration: nat, jitterX: nat, jitterY: nat)

  /** `r` is a possible result of `arc4random_uniform(bound)`: 0 for a bound of 0, otherwise below the bound. */
  predicate UniformDraw(r: nat, bound: nat)
  {
    if bound == 0 then r == 0 else r < bound
  }

  /** Upper bounds of the two delay draws. */
  const DelayTimeBound: nat := 30
  const DelayDurationBound: nat := 10

  /**
   * Swift's `UInt32(v)` for a CGFloat: truncation toward zero; it traps
   * unless the truncated value fits in 32 bits without sign.
   */
  function UInt32Of(v: real): (n: nat)
    requires -1.0 < v < 4294967296.0
    ensures n < 0x1_0000_0000
    ensures v <= 0.0 ==> n == 0
    ensures v >= 0.0 ==> n as real <= v < n as real + 1.0
  {
    if v <= 0.0 then 0 else v.Floor
  }

  /** The value a `CGFloat?` setter works with: `newValue ?? 0`. */
  function OrZero(newValue: Option<real>): real
  {
    if newValue.Some? then newValue.value else 0.0
  }

  /** The getter of `customColor`: it always answers the current colour. */
  function CustomColor(p: Particle): Option<Color>
  {
    Some(p.color)
  }

  /**
   * The setter of `customColor`: a non-nil value replaces the colour, nil
   * leaves the particle as it was.
   */
  function SetCustomColor(p: Particle, newValue: Option<Color>): (q: Particle)
    ensures CustomColor(q) == if newValue.Some? then newValue else CustomColor(p)
    ensures q.point == p.point
    ensures q.delayTime == p.delayTime && q.delayDuration == p.delayDuration
  {
    if newValue.Some? then p.(color := newValue.value) else p
  }

  /**
   * The jitter draws suit a range `value`: each is a result of
   * `arc4random_uniform(UInt32(value) * 2)`.
   */
  predicate JitterFits(value: real, jitterX: nat, jitterY: nat)
    requires -1.0 < value < 2147483648.0
  {
    var bound := 2 * UInt32Of(value);
    UniformDraw(jitterX, bound) && UniformDraw(jitterY, bound)
  }

  /**
   * The setter of `randomPointRange`: a nonzero value moves each axis to
   * `p - value + r`, with `r` the axis's jitter draw; zero or nil leaves the
   * particle as it was.  `UInt32(value) * 2` traps unless `value` lies in
   * (-1, 2^31).
   */
  function SetRandomPointRange(p: Particle, newValue: Option<real>, jitterX: nat, jitterY: nat): (q: Particle)
    requires -1.0 < OrZero(newValue) < 2147483648.0
    requires JitterFits(OrZero(newValue), jitterX, jitterY)
    ensures OrZero(newValue) == 0.0 ==> q == p
    ensures OrZero(newValue) != 0.0 ==>
      q.point == Point(p.point.x - OrZero(newValue) + jitterX as real, p.point.y - OrZero(newValue) + jitterY as real)
    ensures q.color == p.color
    ensures q.delayTime == p.delayTime && q.delayDuration == p.delayDuration
  {
    var value := OrZero(newValue);
    if value != 0.0 then
      p.(point := Point(p.point.x - value + jitterX as real, p.point.y - value + jitterY as real))
    else
      p
  }

  /**
   * Reading the colour back after setting `customColor`: a colour set is the
   * colour read; nil changes nothing; of two settings the later one wins.
   */
  lemma CustomColorRoundTrip(p: Particle, c: Color, d: Color)
    ensures CustomColor(SetCustomColor(p, Some(c))) == Some(c)
    ensures SetCustomColor(p, None) == p
    ensures SetCustomColor(SetCustomColor(p, Some(c)), Some(d)) == SetCustomColor(p, Some(d))
  {
  }

  /**
   * A positive jitter range keeps each axis within [p - value, p + value):
   * the draw is below `2 * UInt32(value)`, which is at most `2 * value`.
   * Below 1 the truncation gives a bound of 0, and the point moves by
   * exactly `-value`.
   */
  lemma JitterWithinRange(p: Particle, value: real, jitterX: nat, jitterY: nat)
    requires 0.0 < value < 2147483648.0
    requires JitterFits(value, jitterX, jitterY)
    ensures var q := SetRandomPointRange(p, Some(value), jitterX, jitterY);
      p.point.x - value <= q.point.x < p.point.x + value &&
      p.point.y - value <= q.point.y < p.point.y + value
    ensures value < 1.0 ==>
      SetRandomPointRange(p, Some(value), jitterX, jitterY).point == Point(p.point.x - value, p.point.y - value)
  {
    var n := UInt32Of(value);
    if n == 0 {
      assert jitterX == 0 && jitterY == 0;
    } else {
      assert jitterX < 2 * n && jitterY < 2 * n;
      assert (jitterX as real) + 1.0 <= 2.0 * n as real;
      assert (jitterY as real) + 1.0 <= 2.0 * n as real;
      assert 2.0 * n as real <= 2.0 * value;
    }
  }
}
