/**
 * The colour of a point in the move list (main.js:843-863): each of the
 * three values is placed in its channel's range through a power curve and
 * scaled to an intensity between `minIntensity` and 255.
 */
module Color {
  import opened Wrappers

  /** The observed minimum, maximum and average of one channel. */
  datatype Range = Range(min: real, max: real, avg: real)

  /** The colour string `rgb(r,g,b)`, kept as its three intensities. */
  datatype Rgb = Rgb(r: int, g: int, b: int)

  /** `Math.pow(base, exponent)`; the curve's shape is not modelled. */
  type Pow = (real, real) -> real

  /** `Math.round`: halves round up. */
  function Round(x: real): (n: int)
    ensures n as real <= x + 0.5 < n as real + 1.0
  {
    (x + 0.5).Floor
  }

  /** `distribution(value, range)`; `shape` stands for `log(0.5) / log((avg - min) / (max - min))`. */
  function Distribution(pow: Pow, shape: real, value: real, range: Range): real
    requires range.max != range.min
  {
    if value <= range.min then 0.0
    else pow((value - range.min) / (range.max - range.min), shape)
  }

  /** One channel of `colorOfPoint`. */
  function Channel(pow: Pow, shape: real, minIntensity: int, value: real, range: Range): int
  {
    if range.min == range.max then 204
    else Round(minIntensity as real + (255 - minIntensity) as real * Distribution(pow, shape, value, range))
  }

  /** `colorOfPoint(point, ranges)`: grey when no ranges were computed yet. */
  function ColorOfPoint(pow: Pow, shapes: seq<real>, point: seq<real>, ranges: Option<seq<Range>>, minIntensity: int): (c: Rgb)
    requires |point| >= 3 && |shapes| >= 3
    requires ranges.Some? ==> |ranges.value| >= 3
  {
    if ranges.None? then Rgb(204, 204, 204)
    else
      var rs := ranges.value;
      Rgb(Channel(pow, shapes[0], minIntensity, point[0], rs[0]),
          Channel(pow, shapes[1], minIntensity, point[1], rs[1]),
          Channel(pow, shapes[2], minIntensity, point[2], rs[2]))
  }

  /** A value at or below its range's minimum gets the dimmest intensity. */
  lemma AtMinimumDimmest(pow: Pow, shape: real, minIntensity: int, value: real, range: Range)
    requires range.min != range.max && value <= range.min
    ensures Channel(pow, shape, minIntensity, value, range) == minIntensity
  {
  }

  /** A channel whose range is one value shows 80% intensity, whatever the value. */
  lemma FlatRangeGrey(pow: Pow, shape: real, minIntensity: int, value: real, range: Range)
    requires range.min == range.max
    ensures Channel(pow, shape, minIntensity, value, range) == 204
  {
  }

  /**
   * For a value within its range, and a power curve that maps [0, 1] into
   * [0, 1] (as a positive exponent does), every intensity lies between
   * `minIntensity` and 255.
   */
  lemma ChannelBounded(pow: Pow, shape: real, minIntensity: int, value: real, range: Range)
    requires 0 <= minIntensity <= 204
    requires forall x :: 0.0 <= x <= 1.0 ==> 0.0 <= pow(x, shape) <= 1.0
    requires range.min <= value <= range.max
    ensures minIntensity <= Channel(pow, shape, minIntensity, value, range) <= 255
  {
    if range.min != range.max {
      if value > range.min {
        UnitQuotient(value - range.min, range.max - range.min);
      }
      var d := Distribution(pow, shape, value, range);
      assert 0.0 <= d <= 1.0;
      var span := (255 - minIntensity) as real;
      assert 0.0 <= span * d <= span by {
        assert span * d <= span * 1.0;
      }
    }
  }

  /** A quotient of a number by one at least as large lies in [0, 1]. */
  lemma UnitQuotient(num: real, den: real)
    requires 0.0 <= num <= den && 0.0 < den
    ensures 0.0 <= num / den <= 1.0
  {
    assert num / den * den == num;
  }
}
