/**
 * TransformBuilder (Paper/Paper.Styles.cs): a mutable builder that composes an
 * element's transform from translate, rotate, scale and skew settings around a
 * pivot point of the element's rectangle.
 *
 * Transform2D is symbolic (StyleValues.Transform2D), so the order in which
 * primitives are composed, and which of them are left out, are visible in the
 * result. Translations and scalings are also given their meaning on points
 * (MapPoint), enough to show that the pivot cancels out.
 */
module Transforms {
  import opened Wrappers
  import opened StyleValues

  datatype Rect = Rect(x: real, y: real, width: real, height: real)

  /** The builder's fields, as one value. */
  datatype BuilderState = BuilderState(
    translateX: real, translateY: real,
    scaleX: real, scaleY: real,
    rotate: real,
    skewX: real, skewY: real,
    originX: real, originY: real,
    custom: Option<Transform2D>)

  /** The field values Reset restores (every field but the custom transform). */
  predicate IsResetState(st: BuilderState) {
    st.translateX == 0.0 && st.translateY == 0.0 && st.scaleX == 1.0 && st.scaleY == 1.0 &&
    st.rotate == 0.0 && st.skewX == 0.0 && st.skewY == 0.0 &&
    st.originX == 0.5 && st.originY == 0.5
  }

  /** The pivot: the origin fractions applied to the rectangle. */
  function Pivot(st: BuilderState, rect: Rect): (real, real) {
    (rect.x + st.originX * rect.width, rect.y + st.originY * rect.height)
  }

  /**
   * The built-in primitives Build composes, in order: translate, rotate,
   * scale, skew-x, skew-y, each only when it differs from the neutral value.
   */
  function BuiltIn(st: BuilderState): seq<Prim> {
    (if st.translateX != 0.0 || st.translateY != 0.0 then [Translation(st.translateX, st.translateY)] else []) +
    (if st.rotate != 0.0 then [Rotation(st.rotate)] else []) +
    (if st.scaleX != 1.0 || st.scaleY != 1.0 then [Scaling(st.scaleX, st.scaleY)] else []) +
    (if st.skewX != 0.0 then [ShearX(st.skewX)] else []) +
    (if st.skewY != 0.0 then [ShearY(st.skewY)] else [])
  }

  /** Everything Build composes between the two pivot translations: the built-ins, then the custom transform. */
  function Steps(st: BuilderState): seq<Prim> {
    BuiltIn(st) + (if st.custom.Some? then st.custom.value.factors else [])
  }

  /** Position of each primitive kind in Build's fixed order. */
  function Rank(p: Prim): nat {
    match p
    case Translation(_, _) => 0
    case Rotation(_) => 1
    case Scaling(_, _) => 2
    case ShearX(_) => 3
    case ShearY(_) => 4
    case Matrix(_) => 5
  }

  /** One coordinate scaled by one factor. */
  function Scaled(c: real, factor: real): real {
    c * factor
  }

  /** A point under a product of translations and scalings (None once another kind occurs). */
  function MapPoint(fs: seq<Prim>, x: real, y: real): Option<(real, real)>
    decreases |fs|
  {
    if fs == [] then Some((x, y))
    else match fs[0]
      case Translation(tx, ty) => MapPoint(fs[1..], x + tx, y + ty)
      case Scaling(sx, sy) => MapPoint(fs[1..], Scaled(x, sx), Scaled(y, sy))
      case _ => None
  }

  class TransformBuilder {
    var translateX: real
    var translateY: real
    var scaleX: real
    var scaleY: real
    var rotate: real
    var skewX: real
    var skewY: real
    var originX: real
    var originY: real
    var customTransform: Option<Transform2D>

    function State(): BuilderState
      reads this
    {
      BuilderState(translateX, translateY, scaleX, scaleY, rotate, skewX, skewY,
                   originX, originY, customTransform)
    }

    /** A new builder: neutral settings, centre pivot, no custom transform. */
    constructor()
      ensures IsResetState(State()) && State().custom == None
    {
      translateX, translateY := 0.0, 0.0;
      scaleX, scaleY := 1.0, 1.0;
      rotate, skewX, skewY := 0.0, 0.0, 0.0;
      originX, originY := 0.5, 0.5;
      customTransform := None;
    }

    /** Restores the neutral settings, but keeps the custom transform. */
    method Reset()
      modifies this
      ensures IsResetState(State())
      ensures State().custom == old(State().custom)
    {
      translateX, translateY := 0.0, 0.0;
      scaleX, scaleY := 1.0, 1.0;
      rotate, skewX, skewY := 0.0, 0.0, 0.0;
      originX, originY := 0.5, 0.5;
    }

    method SetTranslateX(x: real)
      modifies this
      ensures State() == old(State()).(translateX := x)
    {
      translateX := x;
    }

    method SetTranslateY(y: real)
      modifies this
      ensures State() == old(State()).(translateY := y)
    {
      translateY := y;
    }

    method SetScaleX(x: real)
      modifies this
      ensures State() == old(State()).(scaleX := x)
    {
      scaleX := x;
    }

    method SetScaleY(y: real)
      modifies this
      ensures State() == old(State()).(scaleY := y)
    {
      scaleY := y;
    }

    method SetRotate(angleInDegrees: real)
      modifies this
      ensures State() == old(State()).(rotate := angleInDegrees)
    {
      rotate := angleInDegrees;
    }

    method SetSkewX(angle: real)
      modifies this
      ensures State() == old(State()).(skewX := angle)
    {
      skewX := angle;
    }

    method SetSkewY(angle: real)
      modifies this
      ensures State() == old(State()).(skewY := angle)
    {
      skewY := angle;
    }

    method SetOriginX(x: real)
      modifies this
      ensures State() == old(State()).(originX := x)
    {
      originX := x;
    }

    method SetOriginY(y: real)
      modifies this
      ensures State() == old(State()).(originY := y)
    {
      originY := y;
    }

    method SetCustomTransform(transform: Transform2D)
      modifies this
      ensures State() == old(State()).(custom := Some(transform))
    {
      customTransform := Some(transform);
    }

    /**
     * Build: move the pivot to the origin, apply the steps, move it back.
     * The result always starts and ends with the two pivot translations.
     */
    function Build(rect: Rect): (r: Transform2D)
      reads this
      ensures |r.factors| >= 2
      ensures r.factors[0] == Translation(-Pivot(State(), rect).0, -Pivot(State(), rect).1)
      ensures r.factors[|r.factors| - 1] == Translation(Pivot(State(), rect).0, Pivot(State(), rect).1)
      ensures r.factors[1..|r.factors| - 1] == Steps(State())
    {
      var (px, py) := Pivot(State(), rect);
      var originMatrix := Transform2D([Translation(-px, -py)]);
      var transformMatrix := Transform2D(Steps(State()));
      Mul(Mul(originMatrix, transformMatrix), Transform2D([Translation(px, py)]))
    }
  }

  predicate RanksIncrease(s: seq<Prim>) {
    forall i, j :: 0 <= i < j < |s| ==> Rank(s[i]) < Rank(s[j])
  }

  /** Two rank-ordered sequences, all ranks of the first below those of the second, concatenate in order. */
  lemma ConcatRanksIncrease(a: seq<Prim>, b: seq<Prim>)
    requires RanksIncrease(a) && RanksIncrease(b)
    requires forall x, y :: x in a && y in b ==> Rank(x) < Rank(y)
    ensures RanksIncrease(a + b)
  {
    forall i, j | 0 <= i < j < |a + b| ensures Rank((a + b)[i]) < Rank((a + b)[j]) {
      if j < |a| {
      } else if i >= |a| {
        assert (a + b)[i] == b[i - |a|] && (a + b)[j] == b[j - |a|];
      } else {
        assert (a + b)[i] in a && (a + b)[j] in b;
      }
    }
  }

  /**
   * Order: the built-in steps appear at most once each, in the order
   * translate, rotate, scale, skew-x, skew-y.
   */
  lemma BuiltInOrder(st: BuilderState)
    ensures |BuiltIn(st)| <= 5 && RanksIncrease(BuiltIn(st))
  {
    var t := if st.translateX != 0.0 || st.translateY != 0.0 then [Translation(st.translateX, st.translateY)] else [];
    var r := if st.rotate != 0.0 then [Rotation(st.rotate)] else [];
    var s := if st.scaleX != 1.0 || st.scaleY != 1.0 then [Scaling(st.scaleX, st.scaleY)] else [];
    var kx := if st.skewX != 0.0 then [ShearX(st.skewX)] else [];
    var ky := if st.skewY != 0.0 then [ShearY(st.skewY)] else [];
    assert BuiltIn(st) == t + r + s + kx + ky;
    ConcatRanksIncrease(t, r);
    ConcatRanksIncrease(t + r, s);
    ConcatRanksIncrease(t + r + s, kx);
    ConcatRanksIncrease(t + r + s + kx, ky);
  }

  /** Omission: each built-in step is present exactly when its setting differs from the neutral one. */
  lemma BuiltInPresence(st: BuilderState)
    ensures Translation(st.translateX, st.translateY) in BuiltIn(st) <==> st.translateX != 0.0 || st.translateY != 0.0
    ensures Rotation(st.rotate) in BuiltIn(st) <==> st.rotate != 0.0
    ensures Scaling(st.scaleX, st.scaleY) in BuiltIn(st) <==> st.scaleX != 1.0 || st.scaleY != 1.0
    ensures ShearX(st.skewX) in BuiltIn(st) <==> st.skewX != 0.0
    ensures ShearY(st.skewY) in BuiltIn(st) <==> st.skewY != 0.0
  {
    var t := if st.translateX != 0.0 || st.translateY != 0.0 then [Translation(st.translateX, st.translateY)] else [];
    var r := if st.rotate != 0.0 then [Rotation(st.rotate)] else [];
    var s := if st.scaleX != 1.0 || st.scaleY != 1.0 then [Scaling(st.scaleX, st.scaleY)] else [];
    var kx := if st.skewX != 0.0 then [ShearX(st.skewX)] else [];
    var ky := if st.skewY != 0.0 then [ShearY(st.skewY)] else [];
    var b := t + r + s + kx + ky;
    assert BuiltIn(st) == b;
    assert forall x :: x in b <==> x in t || x in r || x in s || x in kx || x in ky;
  }

  /**
   * A reset builder with no custom transform yields only the two pivot
   * translations, which cancel: every point stays where it is.
   */
  lemma ResetBuildsIdentity(b: TransformBuilder, rect: Rect, x: real, y: real)
    requires IsResetState(b.State()) && b.State().custom == None
    ensures b.Build(rect).factors == [Translation(-Pivot(b.State(), rect).0, -Pivot(b.State(), rect).1),
                                      Translation(Pivot(b.State(), rect).0, Pivot(b.State(), rect).1)]
    ensures MapPoint(b.Build(rect).factors, x, y) == Some((x, y))
  {
    var f := b.Build(rect).factors;
    var (px, py) := Pivot(b.State(), rect);
    assert Steps(b.State()) == [];
    assert f == [f[0]] + f[1..|f| - 1] + [f[|f| - 1]];
    assert f[1..] == [Translation(px, py)];
    assert MapPoint(f, x, y) == MapPoint(f[1..], x + -px, y + -py);
    assert MapPoint(f[1..], x + -px, y + -py) == MapPoint([], x, y);
  }

  /** With only a translation set, the pivot cancels and every point moves by the translation. */
  lemma TranslationOnly(b: TransformBuilder, rect: Rect, x: real, y: real)
    requires b.State().custom == None
    requires IsResetState(b.State().(translateX := 0.0, translateY := 0.0))
    requires b.translateX != 0.0 || b.translateY != 0.0
    ensures MapPoint(b.Build(rect).factors, x, y) == Some((x + b.translateX, y + b.translateY))
  {
    var f := b.Build(rect).factors;
    var (px, py) := Pivot(b.State(), rect);
    var (tx, ty) := (b.translateX, b.translateY);
    assert BuiltIn(b.State()) == [Translation(tx, ty)];
    assert f == [f[0]] + f[1..|f| - 1] + [f[|f| - 1]];
    assert f[1..] == [Translation(tx, ty), Translation(px, py)];
    assert f[2..] == [Translation(px, py)];
    assert MapPoint(f, x, y) == MapPoint(f[1..], x + -px, y + -py);
    assert MapPoint(f[1..], x + -px, y + -py) == MapPoint(f[2..], x + -px + tx, y + -py + ty);
    assert MapPoint(f[2..], x + -px + tx, y + -py + ty) == MapPoint([], x + -px + tx + px, y + -py + ty + py);
  }

  /** With only a scaling set, points scale about the pivot, which stays fixed. */
  lemma ScalingAboutPivot(b: TransformBuilder, rect: Rect, x: real, y: real)
    requires b.State().custom == None
    requires IsResetState(b.State().(scaleX := 1.0, scaleY := 1.0))
    requires b.scaleX != 1.0 || b.scaleY != 1.0
    ensures var (px, py) := Pivot(b.State(), rect);
      MapPoint(b.Build(rect).factors, x, y) == Some((px + Scaled(x - px, b.scaleX), py + Scaled(y - py, b.scaleY)))
  {
    var f := b.Build(rect).factors;
    var (px, py) := Pivot(b.State(), rect);
    var (sx, sy) := (b.scaleX, b.scaleY);
    assert BuiltIn(b.State()) == [Scaling(sx, sy)];
    assert f == [f[0]] + f[1..|f| - 1] + [f[|f| - 1]];
    assert f[1..] == [Scaling(sx, sy), Translation(px, py)];
    assert f[2..] == [Translation(px, py)];
    assert MapPoint(f, x, y) == MapPoint(f[1..], x + -px, y + -py);
    assert MapPoint(f[1..], x + -px, y + -py) == MapPoint(f[2..], Scaled(x + -px, sx), Scaled(y + -py, sy));
    assert MapPoint(f[2..], Scaled(x + -px, sx), Scaled(y + -py, sy))
        == MapPoint([], Scaled(x + -px, sx) + px, Scaled(y + -py, sy) + py);
  }

  /**
   * Reset does not clear the custom transform: once set, it is composed into
   * every later Build, even after Reset.
   */
  lemma CustomTransformSurvivesReset(b: TransformBuilder, rect: Rect, m: Transform2D)
    requires IsResetState(b.State()) && b.State().custom == Some(m)
    ensures b.Build(rect).factors[1..|b.Build(rect).factors| - 1] == m.factors
  {
    assert Steps(b.State()) == m.factors;
  }
}
