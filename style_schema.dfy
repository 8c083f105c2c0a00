/**
 * The style property schema: the GuiProp enumeration, the one value type of
 * each property (the StyleUtils.GuiPropTypes table), the GuiProperties record with its
 * defaults, and the type-guarded field accessors of StyleUtils.
 *
 * A GuiProperties struct is modelled as a map from every property to a value
 * of that property's type (predicate WellTyped); a field write through `ref`
 * becomes a functional map update.
 */
module StyleSchema {
  import opened Wrappers
  import opened StyleValues

  /**
   * GuiProp is a C# enum, so a property is its integer value: the members
   * are numbered 0 to 50 in declaration order.
   */
  newtype GuiProp = x: int | 0 <= x < 51 {
    // Visual
    static const BackgroundColor: GuiProp := 0
    static const BackgroundGradient: GuiProp := 1
    static const BorderColor: GuiProp := 2
    static const BorderWidth: GuiProp := 3
    static const Rounded: GuiProp := 4
    static const BoxShadow: GuiProp := 5
    // Layout: sizing
    static const AspectRatio: GuiProp := 6
    static const Width: GuiProp := 7
    static const Height: GuiProp := 8
    static const MinWidth: GuiProp := 9
    static const MaxWidth: GuiProp := 10
    static const MinHeight: GuiProp := 11
    static const MaxHeight: GuiProp := 12
    // Layout: positioning
    static const Left: GuiProp := 13
    static const Right: GuiProp := 14
    static const Top: GuiProp := 15
    static const Bottom: GuiProp := 16
    static const MinLeft: GuiProp := 17
    static const MaxLeft: GuiProp := 18
    static const MinRight: GuiProp := 19
    static const MaxRight: GuiProp := 20
    static const MinTop: GuiProp := 21
    static const MaxTop: GuiProp := 22
    static const MinBottom: GuiProp := 23
    static const MaxBottom: GuiProp := 24
    // Layout: child spacing
    static const ChildLeft: GuiProp := 25
    static const ChildRight: GuiProp := 26
    static const ChildTop: GuiProp := 27
    static const ChildBottom: GuiProp := 28
    static const RowBetween: GuiProp := 29
    static const ColBetween: GuiProp := 30
    static const BorderLeft: GuiProp := 31
    static const BorderRight: GuiProp := 32
    static const BorderTop: GuiProp := 33
    static const BorderBottom: GuiProp := 34
    // Transform
    static const TranslateX: GuiProp := 35
    static const TranslateY: GuiProp := 36
    static const ScaleX: GuiProp := 37
    static const ScaleY: GuiProp := 38
    static const Rotate: GuiProp := 39
    static const OriginX: GuiProp := 40
    static const OriginY: GuiProp := 41
    static const SkewX: GuiProp := 42
    static const SkewY: GuiProp := 43
    static const Transform: GuiProp := 44
    // Text
    static const TextColor: GuiProp := 45
    static const WordSpacing: GuiProp := 46
    static const LetterSpacing: GuiProp := 47
    static const LineHeight: GuiProp := 48
    static const TabSize: GuiProp := 49
    static const FontSize: GuiProp := 50
  }

  /**
   * StyleUtils.GuiPropTypes: the read-only dictionary from each property to
   * the one value type its GuiProperties field holds. Every property has an
   * entry. The layout lengths are the declaration block Width .. BorderBottom.
   */
  function PropType(p: GuiProp): ValueType {
    if p == GuiProp.BackgroundColor || p == GuiProp.BorderColor || p == GuiProp.TextColor then ColorT
    else if p == GuiProp.BackgroundGradient then GradientT
    else if p == GuiProp.BoxShadow then BoxShadowT
    else if p == GuiProp.Transform then Transform2DT
    else if p == GuiProp.Rounded then Vector4T
    else if p == GuiProp.TabSize then IntT
    else if GuiProp.Width <= p <= GuiProp.BorderBottom then UnitValueT
    else DoubleT
  }

  /** The double-valued entries of the table, listed. */
  lemma DoubleProps(p: GuiProp)
    ensures PropType(p) == DoubleT <==>
      p in {GuiProp.BorderWidth, GuiProp.AspectRatio, GuiProp.TranslateX, GuiProp.TranslateY,
            GuiProp.ScaleX, GuiProp.ScaleY, GuiProp.Rotate, GuiProp.OriginX, GuiProp.OriginY,
            GuiProp.SkewX, GuiProp.SkewY, GuiProp.WordSpacing, GuiProp.LetterSpacing,
            GuiProp.LineHeight, GuiProp.FontSize}
  {
  }

  /** The layout-length entries of the table, listed. */
  lemma UnitValueProps(p: GuiProp)
    ensures PropType(p) == UnitValueT <==>
      p in {GuiProp.Width, GuiProp.Height, GuiProp.MinWidth, GuiProp.MaxWidth, GuiProp.MinHeight,
            GuiProp.MaxHeight, GuiProp.Left, GuiProp.Right, GuiProp.Top, GuiProp.Bottom,
            GuiProp.MinLeft, GuiProp.MaxLeft, GuiProp.MinRight, GuiProp.MaxRight, GuiProp.MinTop,
            GuiProp.MaxTop, GuiProp.MinBottom, GuiProp.MaxBottom, GuiProp.ChildLeft,
            GuiProp.ChildRight, GuiProp.ChildTop, GuiProp.ChildBottom, GuiProp.RowBetween,
            GuiProp.ColBetween, GuiProp.BorderLeft, GuiProp.BorderRight, GuiProp.BorderTop,
            GuiProp.BorderBottom}
  {
  }

  /** None of the table's types is string, float or a type Update's dispatch does not handle. */
  lemma PropTypesHandled(p: GuiProp)
    ensures PropType(p) in {ColorT, GradientT, BoxShadowT, Transform2DT, Vector4T, DoubleT, IntT, UnitValueT}
    ensures PropType(p) != StringT && PropType(p) != FloatT && PropType(p) != OtherT
  {
  }

  /** The largest finite double, exactly. */
  const DoubleMax: real := 179769313486231570814527423731704356798070567525844996598917476803157260780028538760589558632766878171540458953514382464234321326889464182768467546703537516986049910576551282076245490090389328944075868508455133942304583236903222948165808559332123348274797826204144723168738177180919299881250404026184124858368.0

  /** The value GuiProperties.SetDefaultValues gives each field. */
  function DefaultValue(p: GuiProp): (v: Value)
    ensures TypeOf(v) == PropType(p)
  {
    if p == GuiProp.BackgroundColor || p == GuiProp.BorderColor then ColorV(Transparent)
    else if p == GuiProp.TextColor then ColorV(White)
    else if p == GuiProp.BackgroundGradient then GradientV(GradientNone)
    else if p == GuiProp.BoxShadow then ShadowV(ShadowNone)
    else if p == GuiProp.Transform then TransformV(Identity)
    else if p == GuiProp.Rounded then Vector4V(Vector4(0.0, 0.0, 0.0, 0.0))
    else if p == GuiProp.TabSize then IntV(4)
    else if p == GuiProp.Width || p == GuiProp.Height then UnitV(Stretch)
    else if p == GuiProp.MinWidth || p == GuiProp.MinHeight || p == GuiProp.MinLeft
         || p == GuiProp.MinRight || p == GuiProp.MinTop || p == GuiProp.MinBottom
         || GuiProp.BorderLeft <= p <= GuiProp.BorderBottom then UnitV(Pixels(0.0))
    else if p == GuiProp.MaxWidth || p == GuiProp.MaxHeight || p == GuiProp.MaxLeft
         || p == GuiProp.MaxRight || p == GuiProp.MaxTop || p == GuiProp.MaxBottom then UnitV(Pixels(DoubleMax))
    else if GuiProp.Width <= p <= GuiProp.BorderBottom then UnitV(Auto)
    else if p == GuiProp.AspectRatio then DoubleV(-1.0)
    else if p == GuiProp.ScaleX || p == GuiProp.ScaleY || p == GuiProp.LineHeight then DoubleV(1.0)
    else if p == GuiProp.OriginX || p == GuiProp.OriginY then DoubleV(0.5)
    else if p == GuiProp.FontSize then DoubleV(16.0)
    else DoubleV(0.0)
  }

  /** A GuiProperties struct: one field per property, each holding a value of its type. */
  type GuiProperties = map<GuiProp, Value>

  predicate WellTyped(s: GuiProperties) {
    forall p: GuiProp :: p in s && TypeOf(s[p]) == PropType(p)
  }

  /** new GuiProperties(), which runs SetDefaultValues. */
  function Defaults(): (s: GuiProperties)
    ensures WellTyped(s)
    ensures forall p: GuiProp :: s[p] == DefaultValue(p)
  {
    map p: GuiProp | true :: DefaultValue(p)
  }

  datatype StyleError =
    /** InvalidOperationException: the property does not have the requested type. */
    | UnsupportedPropertyOrType(property: GuiProp, requested: ValueType)

  /**
   * StyleUtils.GetValueFromStruct<T>: the field of `property`, when T is the
   * property's type; otherwise the exception.
   */
  function GetValueFromStruct(property: GuiProp, t: ValueType, s: GuiProperties): (r: Result<Value, StyleError>)
    requires WellTyped(s)
    ensures r.Success? <==> t == PropType(property)
    ensures r.Success? ==> TypeOf(r.value) == t
    ensures r.Failure? ==> r.error == UnsupportedPropertyOrType(property, t)
  {
    if t == PropType(property) then Success(s[property])
    else Failure(UnsupportedPropertyOrType(property, t))
  }

  /**
   * StyleUtils.SetValueInStruct<T>: the struct with the field of `property`
   * replaced, when the value has the property's type; otherwise the exception
   * (and the struct is left as it was). The targetValue flag is not read.
   */
  function SetValueInStruct(property: GuiProp, s: GuiProperties, value: Value, targetValue: bool): (r: Result<GuiProperties, StyleError>)
    requires WellTyped(s)
    ensures r.Success? <==> TypeOf(value) == PropType(property)
    ensures r.Success? ==> WellTyped(r.value)
    ensures r.Failure? ==> r.error == UnsupportedPropertyOrType(property, TypeOf(value))
  {
    if TypeOf(value) == PropType(property) then Success(s[property := value])
    else Failure(UnsupportedPropertyOrType(property, TypeOf(value)))
  }

  /** Reading back a field that was just written yields the written value. */
  lemma SetThenGet(property: GuiProp, s: GuiProperties, value: Value, flag: bool)
    requires WellTyped(s)
    requires SetValueInStruct(property, s, value, flag).Success?
    ensures GetValueFromStruct(property, TypeOf(value), SetValueInStruct(property, s, value, flag).value) == Success(value)
  {
  }

  /** A write changes no field but its own. */
  lemma SetLeavesOthers(property: GuiProp, s: GuiProperties, value: Value, flag: bool, other: GuiProp)
    requires WellTyped(s)
    requires SetValueInStruct(property, s, value, flag).Success?
    requires other != property
    ensures SetValueInStruct(property, s, value, flag).value[other] == s[other]
    ensures GetValueFromStruct(other, PropType(other), SetValueInStruct(property, s, value, flag).value)
         == GetValueFromStruct(other, PropType(other), s)
  {
  }

  /** Writing back a field's own value leaves the struct as it was. */
  lemma GetThenSet(property: GuiProp, s: GuiProperties, flag: bool)
    requires WellTyped(s)
    ensures GetValueFromStruct(property, PropType(property), s).Success?
    ensures SetValueInStruct(property, s, GetValueFromStruct(property, PropType(property), s).value, flag) == Success(s)
  {
    assert s[property := s[property]] == s;
  }

  /** The targetValue flag has no effect. */
  lemma TargetFlagIgnored(property: GuiProp, s: GuiProperties, value: Value)
    requires WellTyped(s)
    ensures SetValueInStruct(property, s, value, true) == SetValueInStruct(property, s, value, false)
  {
  }
}
