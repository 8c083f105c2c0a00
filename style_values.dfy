/**
 * The value types a style property can hold, and the generic interpolation of
 * Paper/Utilities/StyleUtils.cs (Interpolate, InterpolateColor).
 *
 * Types whose code is not part of this model (Gradient, BoxShadow, UnitValue,
 * Vector4, Transform2D) are opaque stand-ins; their Lerp operations are passed
 * in as a ForeignLerps record, so every property proved here holds for every
 * possible implementation of them. Doubles are modelled as reals.
 */
module StyleValues {
  import IntInputs

  /** System.Drawing.Color by its four channels. */
  datatype Color = Color(a: int, r: int, g: int, b: int)

  /** Color.Transparent is ARGB(0, 255, 255, 255) in System.Drawing. */
  const Transparent := Color(0, 255, 255, 255)
  const White := Color(255, 255, 255, 255)
  const Black := Color(255, 0, 0, 0)

  predicate ValidColor(c: Color) {
    0 <= c.a <= 255 && 0 <= c.r <= 255 && 0 <= c.g <= 255 && 0 <= c.b <= 255
  }

  datatype Gradient = GradientNone | GradientOf(id: nat)
  datatype BoxShadow = ShadowNone | ShadowOf(id: nat)
  datatype Vector4 = Vector4(x: real, y: real, z: real, w: real)
  /** Layout lengths: the constructors SetDefaultValues uses, plus any other length. */
  datatype UnitValue = Auto | Stretch | Pixels(px: real) | UnitOf(id: nat)

  /**
   * A 2D affine transform kept symbolically: the product of its primitive
   * factors, left to right (a * b applies a first, then b). Matrix(id) stands
   * for any factor not built from the primitives (for instance a Lerp result).
   */
  datatype Prim =
    | Translation(tx: real, ty: real)
    | Rotation(degrees: real)
    | Scaling(sx: real, sy: real)
    | ShearX(ax: real)
    | ShearY(ay: real)
    | Matrix(id: nat)

  datatype Transform2D = Transform2D(factors: seq<Prim>)

  const Identity := Transform2D([])

  /** Transform2D's operator *. */
  function Mul(x: Transform2D, y: Transform2D): (r: Transform2D)
    ensures r.factors == x.factors + y.factors
  {
    Transform2D(x.factors + y.factors)
  }

  /** The runtime types the generic code distinguishes with typeof(T). */
  datatype ValueType =
    | ColorT | GradientT | BoxShadowT | Transform2DT | Vector4T
    | DoubleT | IntT | UnitValueT | FloatT | StringT | OtherT

  /** A boxed value of one of those types. */
  datatype Value =
    | ColorV(color: Color)
    | GradientV(gradient: Gradient)
    | ShadowV(shadow: BoxShadow)
    | TransformV(transform: Transform2D)
    | Vector4V(vector: Vector4)
    | DoubleV(d: real)
    | IntV(i: IntInputs.int32)
    | UnitV(unit: UnitValue)
    | FloatV(f: real)
    | StringV(s: string)
    | OtherV(id: nat)

  function TypeOf(v: Value): ValueType {
    match v
    case ColorV(_) => ColorT
    case GradientV(_) => GradientT
    case ShadowV(_) => BoxShadowT
    case TransformV(_) => Transform2DT
    case Vector4V(_) => Vector4T
    case DoubleV(_) => DoubleT
    case IntV(_) => IntT
    case UnitV(_) => UnitValueT
    case FloatV(_) => FloatT
    case StringV(_) => StringT
    case OtherV(_) => OtherT
  }

  /** The Lerp functions of the foreign value types. */
  datatype ForeignLerps = ForeignLerps(
    gradient: (Gradient, Gradient, real) -> Gradient,
    shadow: (BoxShadow, BoxShadow, real) -> BoxShadow,
    unit: (UnitValue, UnitValue, real) -> UnitValue,
    transform: (Transform2D, Transform2D, real) -> Transform2D,
    vector: (Vector4, Vector4, real) -> Vector4)

  /** C#'s (int) cast of a double: truncation toward zero. */
  function Trunc(x: real): (r: int)
    ensures 0.0 <= x ==> r as real <= x < r as real + 1.0
    ensures x < 0.0 ==> r as real - 1.0 < x <= r as real
  {
    if x >= 0.0 then x.Floor else -((-x).Floor)
  }

  /** One channel of InterpolateColor: (int)(start + (end - start) * t). */
  function Channel(start: int, end: int, t: real): int {
    Trunc(start as real + (end - start) as real * t)
  }

  function InterpolateColor(start: Color, end: Color, t: real): Color {
    Color(Channel(start.a, end.a, t), Channel(start.r, end.r, t),
          Channel(start.g, end.g, t), Channel(start.b, end.b, t))
  }

  /**
   * The int branch, start + (int)((end - start) * t): the subtraction and the
   * addition are 32-bit int operations and wrap around.
   */
  function IntStep(start: IntInputs.int32, end: IntInputs.int32, t: real): IntInputs.int32 {
    IntInputs.Wrap(start as int + Trunc(IntInputs.Wrap(end as int - start as int) as real * t))
  }

  /**
   * StyleUtils.Interpolate<T>: dispatch on the type of the two endpoints.
   * Both endpoints have the same type T in the source.
   */
  function Interpolate(lerps: ForeignLerps, start: Value, end: Value, t: real): (r: Value)
    requires TypeOf(start) == TypeOf(end)
    ensures TypeOf(r) == TypeOf(start)
  {
    match start
    case DoubleV(x) => DoubleV(x + (end.d - x) * t)
    case FloatV(x) => FloatV(x + (end.f - x) * t)
    case IntV(x) => IntV(IntStep(x, end.i, t))
    case ColorV(c) => ColorV(InterpolateColor(c, end.color, t))
    case Vector4V(v) => Vector4V(lerps.vector(v, end.vector, t))
    case UnitV(u) => UnitV(lerps.unit(u, end.unit, t))
    case TransformV(m) => TransformV(lerps.transform(m, end.transform, t))
    case StringV(_) => if t > 0.5 then end else start
    case GradientV(g) => GradientV(lerps.gradient(g, end.gradient, t))
    case ShadowV(s) => ShadowV(lerps.shadow(s, end.shadow, t))
    case OtherV(_) => end
  }

  /** Scaling an integer by t in [0, 1] keeps the product between 0 and the integer. */
  lemma ScaledIntBetween(d: int, t: real)
    requires 0.0 <= t <= 1.0
    ensures 0 <= d ==> 0.0 <= d as real * t <= d as real
    ensures d < 0 ==> d as real <= d as real * t <= 0.0
  {
    if 0 <= d {
      assert d as real * t <= d as real * 1.0;
    } else {
      assert d as real * 1.0 <= d as real * t;
    }
  }

  /** Truncation keeps a value inside any integer interval around it. */
  lemma TruncBetween(x: real, lo: int, hi: int)
    requires lo as real <= x <= hi as real
    ensures lo <= Trunc(x) <= hi
  {
  }

  /** The linear step start + (end - start) * t stays between its endpoints for t in [0, 1]. */
  lemma LinearStepBetween(start: int, end: int, t: real)
    requires 0.0 <= t <= 1.0
    ensures var x := start as real + (end - start) as real * t;
      (start <= end ==> start as real <= x <= end as real) &&
      (end < start ==> end as real <= x <= start as real)
  {
    ScaledIntBetween(end - start, t);
  }

  /** The truncated linear step hits both endpoints exactly. */
  lemma ChannelEndpoints(start: int, end: int)
    ensures Channel(start, end, 0.0) == start && Channel(start, end, 1.0) == end
  {
    var d := (end - start) as real;
    assert start as real + d * 0.0 == start as real;
    TruncBetween(start as real, start, start);
    assert start as real + d * 1.0 == end as real;
    TruncBetween(end as real, end, end);
  }

  /** The truncated linear step stays between its endpoints for t in [0, 1]. */
  lemma ChannelBetween(start: int, end: int, t: real)
    requires 0.0 <= t <= 1.0
    ensures Channel(start, end, 0.0) == start && Channel(start, end, 1.0) == end
    ensures start <= end ==> start <= Channel(start, end, t) <= end
    ensures end < start ==> end <= Channel(start, end, t) <= start
  {
    ChannelEndpoints(start, end);
    LinearStepBetween(start, end, t);
    var x := start as real + (end - start) as real * t;
    if start <= end {
      TruncBetween(x, start, end);
    } else {
      TruncBetween(x, end, start);
    }
  }

  /** The truncated offset trunc(d * t) lies between 0 and d. */
  lemma OffsetBetween(d: int, t: real)
    requires 0.0 <= t <= 1.0
    ensures 0 <= d ==> 0 <= Trunc(d as real * t) <= d
    ensures d < 0 ==> d <= Trunc(d as real * t) <= 0
  {
    if 0 <= d {
      NonNegOffset(d, t);
    } else {
      NegOffset(d, t);
    }
  }

  lemma NonNegOffset(d: int, t: real)
    requires 0.0 <= t <= 1.0 && 0 <= d
    ensures 0 <= Trunc(d as real * t) <= d
  {
    ScaledIntBetween(d, t);
    TruncBetween(d as real * t, 0, d);
  }

  lemma NegOffset(d: int, t: real)
    requires 0.0 <= t <= 1.0 && d < 0
    ensures d <= Trunc(d as real * t) <= 0
  {
    ScaledIntBetween(d, t);
    TruncBetween(d as real * t, d, 0);
  }

  /** Integers that differ by a multiple of 2^32 wrap to the same 32-bit value. */
  lemma WrapCongruent(x: int, y: int)
    requires (x - y) % 0x1_0000_0000 == 0
    ensures IntInputs.Wrap(x) == IntInputs.Wrap(y)
  {
    var a, b := IntInputs.Wrap(x) as int, IntInputs.Wrap(y) as int;
    var m := 0x1_0000_0000;
    assert a - x == m * ((a - x) / m);
    assert b - y == m * ((b - y) / m);
    assert x - y == m * ((x - y) / m);
    var k := (a - x) / m - (b - y) / m + (x - y) / m;
    assert a - b == m * k;
  }

  /** The int step hits both endpoints exactly, even when end - start wraps. */
  lemma IntStepEndpoints(start: IntInputs.int32, end: IntInputs.int32)
    ensures IntStep(start, end, 0.0) == start && IntStep(start, end, 1.0) == end
  {
    var w := IntInputs.Wrap(end as int - start as int) as int;
    assert w as real * 0.0 == 0.0;
    TruncBetween(0.0, 0, 0);
    assert w as real * 1.0 == w as real;
    TruncBetween(w as real, w, w);
    WrapCongruent(start as int + w, end as int);
  }

  /** Without overflow of end - start the int step stays between its endpoints. */
  lemma IntStepBetween(start: IntInputs.int32, end: IntInputs.int32, t: real)
    requires 0.0 <= t <= 1.0
    requires IntInputs.MinValue <= end as int - start as int <= IntInputs.MaxValue
    ensures start <= end ==> start <= IntStep(start, end, t) <= end
    ensures end < start ==> end <= IntStep(start, end, t) <= start
  {
    var d := end as int - start as int;
    assert IntInputs.Wrap(d) as int == d;
    var o := Trunc(d as real * t);
    OffsetBetween(d, t);
    assert IntInputs.MinValue <= start as int + o <= IntInputs.MaxValue;
    assert IntStep(start, end, t) as int == start as int + o;
  }

  /**
   * Int interpolation: start at t = 0 and end at t = 1 whatever the two ints,
   * since the wrapped difference added back wraps to end; never outside
   * [start, end] in between when end - start fits in 32 bits.
   */
  lemma IntInterpolationBounds(lerps: ForeignLerps, start: IntInputs.int32, end: IntInputs.int32, t: real)
    requires 0.0 <= t <= 1.0
    ensures Interpolate(lerps, IntV(start), IntV(end), 0.0) == IntV(start)
    ensures Interpolate(lerps, IntV(start), IntV(end), 1.0) == IntV(end)
    ensures IntInputs.MinValue <= end as int - start as int <= IntInputs.MaxValue ==>
      var r := Interpolate(lerps, IntV(start), IntV(end), t).i;
      (start <= end ==> start <= r <= end) && (end < start ==> end <= r <= start)
  {
    IntStepEndpoints(start, end);
    if IntInputs.MinValue <= end as int - start as int <= IntInputs.MaxValue {
      IntStepBetween(start, end, t);
    }
  }

  /**
   * When end - start overflows, the wrapped difference has the wrong sign:
   * halfway from -1 to int.MaxValue lands below start.
   */
  lemma IntInterpolationOverflow(lerps: ForeignLerps)
    ensures var r := Interpolate(lerps, IntV(-1), IntV(0x7FFF_FFFF), 0.5).i;
      r == -1_073_741_825 && r < -1
  {
    assert IntInputs.Wrap(0x7FFF_FFFF - -1) == -0x8000_0000;
    assert (-0x8000_0000) as real * 0.5 == -1_073_741_824.0;
    TruncBetween(-1_073_741_824.0, -1_073_741_824, -1_073_741_824);
  }

  /**
   * Colour interpolation is channel-wise truncation: t = 0 gives start, t = 1
   * gives end, and for t in [0, 1] every channel stays between its endpoints,
   * so two valid colours always interpolate to a valid colour.
   */
  lemma ColorInterpolationBounds(start: Color, end: Color, t: real)
    requires 0.0 <= t <= 1.0
    ensures InterpolateColor(start, end, 0.0) == start && InterpolateColor(start, end, 1.0) == end
    ensures ValidColor(start) && ValidColor(end) ==> ValidColor(InterpolateColor(start, end, t))
  {
    ChannelBetween(start.a, end.a, t);
    ChannelBetween(start.r, end.r, t);
    ChannelBetween(start.g, end.g, t);
    ChannelBetween(start.b, end.b, t);
  }

  /**
   * Color.FromArgb throws ArgumentException for a channel outside 0..255: the
   * inputs on which the colour branch of Interpolate throws in the source.
   */
  predicate InterpolationThrows(start: Value, end: Value, t: real)
    requires TypeOf(start) == TypeOf(end)
  {
    start.ColorV? && !ValidColor(InterpolateColor(start.color, end.color, t))
  }

  /** Between two valid colours only an eased fraction outside [0, 1] can make FromArgb throw. */
  lemma ColorThrowsOnlyOnOvershoot(start: Color, end: Color, t: real)
    requires ValidColor(start) && ValidColor(end)
    ensures InterpolationThrows(ColorV(start), ColorV(end), t) ==> t < 0.0 || 1.0 < t
  {
    if 0.0 <= t <= 1.0 {
      ColorInterpolationBounds(start, end, t);
    }
  }

  /** An easing that overshoots to 2 takes black to white out of range, so FromArgb throws. */
  lemma ColorOvershootThrows()
    ensures InterpolationThrows(ColorV(Black), ColorV(White), 2.0)
    ensures InterpolateColor(Black, White, 2.0).r == 510
  {
    assert 0.0 + 255.0 * 2.0 == 510.0;
    TruncBetween(510.0, 510, 510);
  }

  /** Double interpolation is the exact linear blend, so it hits both endpoints. */
  lemma DoubleInterpolation(lerps: ForeignLerps, start: real, end: real, t: real)
    ensures Interpolate(lerps, DoubleV(start), DoubleV(end), t) == DoubleV(start + (end - start) * t)
    ensures Interpolate(lerps, DoubleV(start), DoubleV(end), 0.0) == DoubleV(start)
    ensures Interpolate(lerps, DoubleV(start), DoubleV(end), 1.0) == DoubleV(end)
  {
  }

  /**
   * Strings never blend: the result is one endpoint, the end one exactly when
   * t > 0.5 (or both are equal). A type with no branch of its own yields end.
   */
  lemma NonBlendingInterpolation(lerps: ForeignLerps, start: Value, end: Value, t: real)
    requires TypeOf(start) == TypeOf(end)
    ensures TypeOf(start) == StringT ==>
      var r := Interpolate(lerps, start, end, t);
      (r == start || r == end) && (r == end <==> t > 0.5 || start == end)
    ensures TypeOf(start) == OtherT ==> Interpolate(lerps, start, end, t) == end
  {
  }
}
