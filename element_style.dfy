/**
 * ElementStyle (Paper/Paper.Styles.cs): the per-element style store. Its
 * fields are the source's; every method is proved to move the store's state
 * as the matching function of module StoreSpec says, and the parent link is
 * kept acyclic by a ghost depth and ancestor set so that lookups terminate.
 */
module ElementStyles {
  import opened Wrappers
  import opened StyleValues
  import opened StyleSchema
  import opened StoreSpec
  import opened Transforms

  class ElementStyle {
    var current: GuiProperties
    var target: GuiProperties
    var setThisFrame: set<GuiProp>
    var withTransitions: set<GuiProp>
    var firstFrame: bool
    var hasValue: set<GuiProp>
    var targeted: set<GuiProp>
    var configs: map<GuiProp, TransitionConfig>
    var interps: map<GuiProp, Interpolation>
    var parent: ElementStyle?

    /** Strictly decreases along the parent link. */
    ghost var depth: nat
    /** Every store reachable through the parent link. */
    ghost var ancestors: set<ElementStyle>

    function State(): StoreState
      reads this
    {
      StoreState(current, target, setThisFrame, withTransitions, firstFrame,
                 hasValue, targeted, configs, interps)
    }

    ghost predicate Valid()
      reads this, ancestors
      decreases depth
    {
      Inv(State()) && Linked() && (parent != null ==> parent.Valid())
    }

    /**
     * The parent link is acyclic: the parent is among the ancestors and has a
     * smaller depth. It reads only the link fields, so a method that changes
     * the store's values keeps it without proof.
     */
    ghost predicate Linked()
      reads this`parent, this`depth, this`ancestors, ancestors
    {
      this !in ancestors &&
      (parent == null ==> ancestors == {}) &&
      (parent != null ==> parent in ancestors && parent.ancestors <= ancestors && parent.depth < depth)
    }

    /**
     * A change that leaves the link fields of `e` and every store above it
     * alone keeps the link acyclic and the stores above valid.
     */
    static twostate lemma ChainKept(e: ElementStyle)
      requires old(e.Valid())
      requires unchanged(e`parent, e`depth, e`ancestors)
      requires unchanged(old(e.ancestors))
      ensures e.Linked() && (e.parent != null ==> e.parent.Valid())
    {
    }

    /** A new store: default structs, nothing set, in its first frame, with no parent. */
    constructor()
      ensures Valid() && parent == null
      ensures State() == Fresh()
    {
      current, target := Defaults(), Defaults();
      setThisFrame, withTransitions := {}, {};
      firstFrame := true;
      hasValue, targeted := {}, {};
      configs, interps := map[], map[];
      parent := null;
      depth, ancestors := 0, {};
    }

    predicate HasValue(p: GuiProp)
      reads this
    {
      p in hasValue
    }

    /**
     * GetValue<T>: the store's own value when it has one, else the parent's
     * lookup, else the schema default; the read is guarded by the property's
     * type at whichever level answers.
     */
    function GetValue(p: GuiProp, t: ValueType): (r: Result<Value, StyleError>)
      requires Valid()
      reads this, ancestors
      decreases depth
      ensures r.Success? <==> t == PropType(p)
      ensures r.Failure? ==> r.error == UnsupportedPropertyOrType(p, t)
      ensures r.Success? && HasValue(p) ==> r.value == current[p]
      ensures r.Success? && !HasValue(p) && parent == null ==> r.value == DefaultValue(p)
      ensures r.Success? && !HasValue(p) && parent != null ==> r == parent.GetValue(p, t)
    {
      if HasValue(p) then GetValueFromStruct(p, t, current)
      else if parent != null then parent.GetValue(p, t)
      else GetValueFromStruct(p, t, Defaults())
    }

    /** What the parent offers Update: its current value of every property it has a value for. */
    function ParentValues(): (pv: map<GuiProp, Value>)
      requires Valid()
      reads this, ancestors
      ensures ParentValuesTyped(pv)
      ensures forall q :: q in pv <==> parent != null && parent.HasValue(q)
      ensures forall q :: q in pv ==> parent != null && q in parent.current && pv[q] == parent.current[q]
    {
      if parent == null then map[]
      else
        assert parent.Valid();
        map q | q in parent.hasValue :: parent.current[q]
    }

    /** Each value the parent offers is what a lookup on the parent returns. */
    lemma ParentValuesAreLookups()
      requires Valid()
      ensures forall q :: q in ParentValues() ==> Success(ParentValues()[q]) == parent.GetValue(q, PropType(q))
    {
    }

    /** SetParent: requires that the new parent does not lead back to this store. */
    method SetParent(p: ElementStyle?)
      requires Valid()
      requires p != null ==> p.Valid() && p != this && this !in p.ancestors
      modifies this`parent, this`depth, this`ancestors
      ensures Valid() && parent == p
    {
      parent := p;
      if p == null {
        depth, ancestors := 0, {};
      } else {
        depth, ancestors := p.depth + 1, {p} + p.ancestors;
      }
    }

    method ReturnToPool()
      requires Valid()
      modifies this`setThisFrame, this`withTransitions, this`targeted, this`hasValue
      modifies this`current, this`target, this`interps
      ensures Valid()
      ensures State() == StoreSpec.ReturnToPool(old(State()))
    {
      setThisFrame := {};
      withTransitions := {};
      targeted := {};
      hasValue := {};
      current := Defaults();
      target := Defaults();
      interps := map[];
      ChainKept(this);
    }

    method EndOfFrame()
      requires Valid()
      modifies this`setThisFrame, this`firstFrame
      ensures Valid()
      ensures State() == StoreSpec.EndOfFrame(old(State()))
    {
      setThisFrame := {};
      firstFrame := false;
      ChainKept(this);
    }

    /**
     * SetDirectValue<T>; `err` is the InvalidOperationException raised when
     * the value does not have the property's type, after the property was
     * marked set-this-frame. On success the store reads back the value.
     */
    method SetDirectValue(p: GuiProp, v: Value) returns (err: Option<StyleError>)
      requires Valid()
      modifies this`setThisFrame, this`current, this`target, this`hasValue, this`targeted, this`interps
      ensures Valid()
      ensures State() == SetDirect(old(State()), p, v)
      ensures err.Some? <==> TypeMismatch(p, v)
      ensures err.Some? ==> err.value == UnsupportedPropertyOrType(p, TypeOf(v))
      ensures err.None? ==> HasValue(p) && GetValue(p, TypeOf(v)) == Success(v)
    {
      setThisFrame := setThisFrame + {p};
      var written := SetValueInStruct(p, current, v, false);
      if written.Failure? {
        err := Some(written.error);
      } else {
        StoreDirect(p, v, written.value);
        err := None;
      }
      ChainKept(this);
    }

    /** The rest of SetDirectValue once the write to the current struct succeeded. */
    method StoreDirect(p: GuiProp, v: Value, written: GuiProperties)
      requires Inv(State()) && TypeOf(v) == PropType(p) && written == current[p := v]
      modifies this`current, this`target, this`hasValue, this`targeted, this`interps
      ensures State() == SetDirect(old(State()), p, v).(setThisFrame := setThisFrame)
    {
      current := written;
      var retargeted := SetValueInStruct(p, target, v, true);
      target := retargeted.value;
      hasValue := hasValue + {p};
      targeted := targeted + {p};
      RemoveInterpolation(p);
    }

    /** SetNextValue<T>: records the target only; `err` as for SetDirectValue. */
    method SetNextValue(p: GuiProp, v: Value) returns (err: Option<StyleError>)
      requires Valid()
      modifies this`setThisFrame, this`target, this`targeted
      ensures Valid()
      ensures State() == SetNext(old(State()), p, v)
      ensures err.Some? <==> TypeMismatch(p, v)
      ensures err.Some? ==> err.value == UnsupportedPropertyOrType(p, TypeOf(v))
    {
      setThisFrame := setThisFrame + {p};
      var retargeted := SetValueInStruct(p, target, v, true);
      if retargeted.Failure? {
        ChainKept(this);
        return Some(retargeted.error);
      }
      target := retargeted.value;
      targeted := targeted + {p};
      err := None;
      ChainKept(this);
    }

    method SetTransitionConfig(p: GuiProp, duration: real, easing: Option<real -> real>)
      requires Valid()
      modifies this`configs, this`withTransitions
      ensures Valid()
      ensures State() == SetTransition(old(State()), p, duration, easing)
    {
      configs := configs[p := TransitionConfig(duration, easing)];
      withTransitions := withTransitions + {p};
      ChainKept(this);
    }

    /** ClearValue: afterwards lookups of the property fall back to the parent or the default. */
    method ClearValue(p: GuiProp)
      requires Valid()
      modifies this`hasValue, this`targeted, this`configs, this`interps
      ensures Valid()
      ensures State() == Clear(old(State()), p)
      ensures !HasValue(p)
      ensures parent != null ==> GetValue(p, PropType(p)) == parent.GetValue(p, PropType(p))
      ensures parent == null ==> GetValue(p, PropType(p)) == Success(DefaultValue(p))
    {
      hasValue := hasValue - {p};
      targeted := targeted - {p};
      configs := configs - {p};
      RemoveInterpolation(p);
      ChainKept(this);
    }

    method RemoveInterpolation(p: GuiProp)
      modifies this`interps
      ensures interps == old(interps) - {p}
    {
      interps := interps - {p};
    }

    /**
     * Update: seeds transition properties unless this is the first frame,
     * processes every targeted property, removes the finished transitions
     * and clears the configurations.
     */
    method Update(dt: real, lerps: ForeignLerps)
      requires Valid() && dt >= 0.0
      modifies this`current, this`hasValue, this`interps, this`configs
      ensures Valid()
      ensures State() == UpdateSpec(old(State()), old(ParentValues()), dt, lerps)
    {
      var pv := ParentValues();
      if !firstFrame {
        InitializeTransitionProperties(pv);
      }
      ghost var s1 := State();
      assert s1 == Prepared(old(State()), pv);
      ghost var m := StepAll(s1, pv, dt, lerps);
      var completed := ProcessTargetValues(pv, dt, lerps);
      RemoveCompleted(completed);
      configs := map[];
      assert State() == Commit(s1, m);
      ChainKept(this);
    }

    /**
     * Update's loop over the targeted properties: each is stepped from the
     * state the loop started in (the steps do not interfere) and marked as
     * having a value. Returns the properties whose transition finished.
     */
    method ProcessTargetValues(pv: map<GuiProp, Value>, dt: real, lerps: ForeignLerps)
      returns (completed: seq<GuiProp>)
      requires Inv(State()) && ParentValuesTyped(pv) && dt >= 0.0
      modifies this`current, this`hasValue, this`interps
      ensures var m := StepAll(old(State()), pv, dt, lerps);
        State() == Partial(old(State()), m, m.Keys) && (set q | q in completed) == Finished(m)
    {
      ghost var s1 := State();
      ghost var m := StepAll(s1, pv, dt, lerps);
      PartialNone(s1, m);
      completed := [];
      var todo := targeted;
      ghost var done: set<GuiProp> := {};
      while todo != {}
        invariant todo !! done && todo + done == s1.targeted
        invariant State() == Partial(s1, m, done)
        invariant forall q :: q in completed <==> q in done && m[q].finished
        decreases todo
      {
        var p :| p in todo;
        var finished := ProcessTargetValue(s1, m, done, p, pv, dt, lerps);
        if finished {
          completed := completed + [p];
        }
        todo := todo - {p};
        done := done + {p};
      }
    }

    /** One pass of that loop: the property's step, and it is marked as having a value. */
    method ProcessTargetValue(ghost s1: StoreState, ghost m: map<GuiProp, Step>, ghost done: set<GuiProp>,
                              p: GuiProp, pv: map<GuiProp, Value>, dt: real, lerps: ForeignLerps)
      returns (finished: bool)
      requires Inv(s1) && ParentValuesTyped(pv) && dt >= 0.0 && m == StepAll(s1, pv, dt, lerps)
      requires done <= s1.targeted && p in s1.targeted && p !in done
      requires State() == Partial(s1, m, done)
      modifies this`current, this`hasValue, this`interps
      ensures State() == Partial(s1, m, done + {p}) && finished == m[p].finished
    {
      LoopStep(s1, pv, dt, lerps, done, p);
      finished := ProcessPropertyForAnimation(p, dt, lerps, pv);
      hasValue := hasValue + {p};
    }

    /** Update's clean-up loop: RemoveInterpolation for every completed property. */
    method RemoveCompleted(completed: seq<GuiProp>)
      modifies this`interps
      ensures interps == old(interps) - (set q | q in completed)
    {
      var i := 0;
      while i < |completed|
        invariant 0 <= i <= |completed|
        invariant interps == old(interps) - (set q | q in completed[..i])
      {
        assert completed[..i + 1] == completed[..i] + [completed[i]];
        RemoveInterpolation(completed[i]);
        i := i + 1;
      }
      assert completed[..i] == completed;
    }

    /** InitializeTransitionProperties: seeds every transition property that has no value yet. */
    method InitializeTransitionProperties(pv: map<GuiProp, Value>)
      requires Inv(State()) && ParentValuesTyped(pv)
      modifies this`current
      ensures State() == Seeded(old(State()), pv)
    {
      SeededWithNone(State(), pv);
      var todo := withTransitions;
      ghost var done: set<GuiProp> := {};
      while todo != {}
        invariant todo !! done && todo + done == withTransitions
        invariant State() == SeededWith(old(State()), pv, done)
        decreases todo
      {
        var p :| p in todo;
        SeedStep(old(State()), pv, done, p);
        if !HasValue(p) {
          InitializeTransitionProperty(p, pv);
        }
        todo := todo - {p};
        done := done + {p};
      }
    }

    /** InitializeTransitionProperty<T>: writes the seed value; the property is not marked as having a value. */
    method InitializeTransitionProperty(p: GuiProp, pv: map<GuiProp, Value>)
      requires Inv(State()) && ParentValuesTyped(pv)
      modifies this`current
      ensures current == old(current)[p := SeedValue(pv, p)]
    {
      var seed := if p in pv then pv[p] else DefaultValue(p);
      var written := SetValueInStruct(p, current, seed, false);
      current := written.value;
    }

    /**
     * ProcessPropertyForAnimation<T>: the resolved target is written at once
     * when the property has no transition configuration, otherwise handed to
     * ProcessPropertyWithTransition. Reports whether a transition finished.
     */
    method ProcessPropertyForAnimation(p: GuiProp, dt: real, lerps: ForeignLerps, pv: map<GuiProp, Value>)
      returns (finished: bool)
      requires Inv(State()) && ParentValuesTyped(pv) && dt >= 0.0
      modifies this`current, this`interps
      ensures var st := PropStep(old(State()), pv, p, dt, lerps);
        finished == st.finished && State() == WithStep(old(State()), p, st)
    {
      var tv := ResolvedTarget(State(), pv, p);
      if p in configs {
        finished := ProcessPropertyWithTransition(p, tv, configs[p], dt, lerps);
      } else {
        var written := SetValueInStruct(p, current, tv, false);
        current := written.value;
        assert p in interps ==> interps[p := interps[p]] == interps;
        finished := false;
      }
    }

    /**
     * ProcessPropertyWithTransition<T>: a property with no value takes the
     * target at once; one already at the target is left alone; otherwise
     * HandleInterpolationState.
     */
    method ProcessPropertyWithTransition(p: GuiProp, tv: Value, cfg: TransitionConfig, dt: real, lerps: ForeignLerps)
      returns (finished: bool)
      requires Inv(State()) && p in configs && configs[p] == cfg && TypeOf(tv) == PropType(p) && dt >= 0.0
      modifies this`current, this`interps
      ensures var st := WithTransition(old(State()), p, tv, dt, lerps);
        finished == st.finished && State() == WithStep(old(State()), p, st)
    {
      if !HasValue(p) {
        var written := SetValueInStruct(p, current, tv, false);
        current := written.value;
        assert p in interps ==> interps[p := interps[p]] == interps;
        return false;
      }
      var cv := GetValueFromStruct(p, PropType(p), current).value;
      if cv == tv {
        assert current[p := cv] == current;
        assert p in interps ==> interps[p := interps[p]] == interps;
        return false;
      }
      finished := HandleInterpolationState(p, cv, tv, cfg, dt, lerps);
    }

    /**
     * HandleInterpolationState<T>: a new record from the current value when
     * none is stored; a restart from the current value at time 0 when the
     * stored one heads elsewhere; then the clock step and
     * InterpolationState.Update. The record stays stored.
     */
    method HandleInterpolationState(p: GuiProp, cv: Value, tv: Value, cfg: TransitionConfig, dt: real, lerps: ForeignLerps)
      returns (finished: bool)
      requires Inv(State()) && p in configs && configs[p] == cfg && cv == current[p]
      requires TypeOf(tv) == PropType(p) && dt >= 0.0
      modifies this`current, this`interps
      ensures var st := Advance(Chosen(old(State()), p, tv), dt, lerps);
        finished == st.finished && State() == WithStep(old(State()), p, st)
    {
      var rec := ChooseInterpolation(p, cv, tv, cfg);
      ghost var chosen := rec;
      rec := rec.(time := rec.time + dt);
      var moved;
      moved, finished := TickInterpolation(p, rec, dt, lerps);
      ghost var st := Tick(rec, dt, lerps);
      AdvanceTicks(chosen, dt, lerps);
      interps := interps[p := moved];
      assert interps == old(interps)[p := st.interp.value];
    }

    /**
     * The first half of HandleInterpolationState: the stored record, stored
     * anew from the current value when there is none, restarted from the
     * current value at time 0 when it heads to a different target.
     */
    method ChooseInterpolation(p: GuiProp, cv: Value, tv: Value, cfg: TransitionConfig)
      returns (rec: Interpolation)
      requires Inv(State()) && p in configs && configs[p] == cfg && cv == current[p]
      requires TypeOf(tv) == PropType(p)
      modifies this`interps
      ensures rec == Chosen(old(State()), p, tv)
      ensures p in interps && InterpTyped(p, interps[p]) && interps == old(interps)[p := interps[p]]
    {
      if p !in interps {
        rec := Interpolation(cv, tv, cfg.duration, cfg.easing, 0.0);
        interps := interps[p := rec];
      } else {
        rec := interps[p];
      }
      if rec.target != tv {
        rec := Interpolation(cv, tv, cfg.duration, cfg.easing, 0.0);
      }
    }

    /** InterpolationState.Update for the record `rec` of property `p`. */
    method TickInterpolation(p: GuiProp, rec: Interpolation, dt: real, lerps: ForeignLerps)
      returns (moved: Interpolation, finished: bool)
      requires Inv(State()) && InterpTyped(p, rec) && dt >= 0.0
      modifies this`current
      ensures var st := Tick(rec, dt, lerps);
        st.interp == Some(moved) && finished == st.finished && current == old(current)[p := st.value]
    {
      moved := rec.(time := rec.time + dt);
      if moved.time >= moved.duration {
        var written := SetValueInStruct(p, current, moved.target, false);
        current := written.value;
        return moved, true;
      }
      var ratio := moved.time / moved.duration;
      var t := if ratio < 1.0 then ratio else 1.0;
      if moved.easing.Some? {
        t := moved.easing.value(t);
      }
      var written := SetValueInStruct(p, current, Interpolate(lerps, moved.start, moved.target, t), false);
      current := written.value;
      finished := false;
    }

    /**
     * GetTransformForElement with the shared builder: Reset, then one setter
     * per transform property the store has a value for, then Build.
     */
    method GetTransformForElement(rect: Rect, builder: TransformBuilder) returns (r: Transform2D)
      requires Valid()
      modifies builder
      ensures builder.State() == TransformSettings(State(), old(builder.State().custom))
      ensures r == builder.Build(rect)
    {
      builder.Reset();
      ApplyTranslation(builder);
      ApplyScale(builder);
      ApplyRotationAndSkew(builder);
      ApplyOrigin(builder);
      ApplyCustomTransform(builder);
      r := builder.Build(rect);
    }

    /** The TranslateX and TranslateY steps of GetTransformForElement. */
    method ApplyTranslation(builder: TransformBuilder)
      requires Inv(State())
      modifies builder
      ensures builder.State() == old(builder.State()).(
        translateX := OwnOr(State(), GuiProp.TranslateX, old(builder.translateX)),
        translateY := OwnOr(State(), GuiProp.TranslateY, old(builder.translateY)))
    {
      if HasValue(GuiProp.TranslateX) {
        builder.SetTranslateX(GetValueFromStruct(GuiProp.TranslateX, DoubleT, current).value.d);
      }
      if HasValue(GuiProp.TranslateY) {
        builder.SetTranslateY(GetValueFromStruct(GuiProp.TranslateY, DoubleT, current).value.d);
      }
    }

    /** The ScaleX and ScaleY steps of GetTransformForElement. */
    method ApplyScale(builder: TransformBuilder)
      requires Inv(State())
      modifies builder
      ensures builder.State() == old(builder.State()).(
        scaleX := OwnOr(State(), GuiProp.ScaleX, old(builder.scaleX)),
        scaleY := OwnOr(State(), GuiProp.ScaleY, old(builder.scaleY)))
    {
      if HasValue(GuiProp.ScaleX) {
        builder.SetScaleX(GetValueFromStruct(GuiProp.ScaleX, DoubleT, current).value.d);
      }
      if HasValue(GuiProp.ScaleY) {
        builder.SetScaleY(GetValueFromStruct(GuiProp.ScaleY, DoubleT, current).value.d);
      }
    }

    /** The GuiProp.Rotate, SkewX and SkewY steps of GetTransformForElement. */
    method ApplyRotationAndSkew(builder: TransformBuilder)
      requires Inv(State())
      modifies builder
      ensures builder.State() == old(builder.State()).(
        rotate := OwnOr(State(), GuiProp.Rotate, old(builder.rotate)),
        skewX := OwnOr(State(), GuiProp.SkewX, old(builder.skewX)),
        skewY := OwnOr(State(), GuiProp.SkewY, old(builder.skewY)))
    {
      if HasValue(GuiProp.Rotate) {
        builder.SetRotate(GetValueFromStruct(GuiProp.Rotate, DoubleT, current).value.d);
      }
      if HasValue(GuiProp.SkewX) {
        builder.SetSkewX(GetValueFromStruct(GuiProp.SkewX, DoubleT, current).value.d);
      }
      if HasValue(GuiProp.SkewY) {
        builder.SetSkewY(GetValueFromStruct(GuiProp.SkewY, DoubleT, current).value.d);
      }
    }

    /** The OriginX and OriginY steps of GetTransformForElement. */
    method ApplyOrigin(builder: TransformBuilder)
      requires Inv(State())
      modifies builder
      ensures builder.State() == old(builder.State()).(
        originX := OwnOr(State(), GuiProp.OriginX, old(builder.originX)),
        originY := OwnOr(State(), GuiProp.OriginY, old(builder.originY)))
    {
      if HasValue(GuiProp.OriginX) {
        builder.SetOriginX(GetValueFromStruct(GuiProp.OriginX, DoubleT, current).value.d);
      }
      if HasValue(GuiProp.OriginY) {
        builder.SetOriginY(GetValueFromStruct(GuiProp.OriginY, DoubleT, current).value.d);
      }
    }

    /** The Transform step of GetTransformForElement. */
    method ApplyCustomTransform(builder: TransformBuilder)
      requires Inv(State())
      modifies builder
      ensures builder.State() == old(builder.State()).(
        custom := if GuiProp.Transform in hasValue then Some(current[GuiProp.Transform].transform) else old(builder.customTransform))
    {
      if HasValue(GuiProp.Transform) {
        builder.SetCustomTransform(GetValueFromStruct(GuiProp.Transform, Transform2DT, current).value.transform);
      }
    }
  }

  /** The double a store holds for `p` when it has one, else `fallback`. */
  function OwnOr(s: StoreState, p: GuiProp, fallback: real): real
    requires Inv(s) && PropType(p) == DoubleT
  {
    if p in s.hasValue then s.current[p].d else fallback
  }

  /** The double a store holds for `p`: its own when it has one, else the schema default. */
  function OwnOrDefault(s: StoreState, p: GuiProp): real
    requires Inv(s) && PropType(p) == DoubleT
  {
    OwnOr(s, p, DefaultValue(p).d)
  }

  /**
   * The builder settings GetTransformForElement leaves behind: the builder's
   * reset values overwritten by the store's own values; the custom transform
   * is the store's own, or else whatever the shared builder held before.
   */
  function TransformSettings(s: StoreState, previousCustom: Option<Transform2D>): (b: BuilderState)
    requires Inv(s)
    ensures GuiProp.Transform in s.hasValue ==> b.custom == Some(s.current[GuiProp.Transform].transform)
    ensures GuiProp.Transform !in s.hasValue ==> b.custom == previousCustom
  {
    BuilderState(
      OwnOr(s, GuiProp.TranslateX, 0.0), OwnOr(s, GuiProp.TranslateY, 0.0),
      OwnOr(s, GuiProp.ScaleX, 1.0), OwnOr(s, GuiProp.ScaleY, 1.0),
      OwnOr(s, GuiProp.Rotate, 0.0),
      OwnOr(s, GuiProp.SkewX, 0.0), OwnOr(s, GuiProp.SkewY, 0.0),
      OwnOr(s, GuiProp.OriginX, 0.5), OwnOr(s, GuiProp.OriginY, 0.5),
      if GuiProp.Transform in s.hasValue then Some(s.current[GuiProp.Transform].transform) else previousCustom)
  }

  /**
   * Each built-in transform setting an element leaves in the builder is the
   * value the element holds, or else the schema default of that property.
   */
  lemma TransformSettingsUseDefaults(s: StoreState, previousCustom: Option<Transform2D>)
    requires Inv(s)
    ensures var b := TransformSettings(s, previousCustom);
      b.translateX == OwnOrDefault(s, GuiProp.TranslateX) && b.translateY == OwnOrDefault(s, GuiProp.TranslateY) &&
      b.scaleX == OwnOrDefault(s, GuiProp.ScaleX) && b.scaleY == OwnOrDefault(s, GuiProp.ScaleY) &&
      b.rotate == OwnOrDefault(s, GuiProp.Rotate) &&
      b.skewX == OwnOrDefault(s, GuiProp.SkewX) && b.skewY == OwnOrDefault(s, GuiProp.SkewY) &&
      b.originX == OwnOrDefault(s, GuiProp.OriginX) && b.originY == OwnOrDefault(s, GuiProp.OriginY)
  {
    ResetValuesAreDefaults();
  }

  /** The values TransformBuilder.Reset restores are the schema defaults of the transform properties. */
  lemma ResetValuesAreDefaults()
    ensures DefaultValue(GuiProp.TranslateX) == DoubleV(0.0) && DefaultValue(GuiProp.TranslateY) == DoubleV(0.0)
    ensures DefaultValue(GuiProp.ScaleX) == DoubleV(1.0) && DefaultValue(GuiProp.ScaleY) == DoubleV(1.0)
    ensures DefaultValue(GuiProp.Rotate) == DoubleV(0.0)
    ensures DefaultValue(GuiProp.SkewX) == DoubleV(0.0) && DefaultValue(GuiProp.SkewY) == DoubleV(0.0)
    ensures DefaultValue(GuiProp.OriginX) == DoubleV(0.5) && DefaultValue(GuiProp.OriginY) == DoubleV(0.5)
    ensures DefaultValue(GuiProp.Transform) == TransformV(Identity)
  {
  }

  /**
   * The shared builder leaks: a store without a Transform value builds with
   * the custom transform of whichever element used the builder before it.
   */
  lemma CustomTransformLeaks(s: StoreState, m: Transform2D, rect: Rect)
    requires Inv(s) && GuiProp.Transform !in s.hasValue
    ensures var b := TransformSettings(s, Some(m));
      var steps := Steps(b);
      |steps| >= |m.factors| && steps[|steps| - |m.factors|..] == m.factors
  {
  }

  /** With no transform value at all and no earlier custom transform, the element builds the identity around its pivot. */
  lemma NoTransformValuesBuildNothing(s: StoreState)
    requires Inv(s)
    requires GuiProp.TranslateX !in s.hasValue && GuiProp.TranslateY !in s.hasValue
    requires GuiProp.ScaleX !in s.hasValue && GuiProp.ScaleY !in s.hasValue && GuiProp.Rotate !in s.hasValue
    requires GuiProp.SkewX !in s.hasValue && GuiProp.SkewY !in s.hasValue && GuiProp.Transform !in s.hasValue
    ensures Steps(TransformSettings(s, None)) == []
  {
  }
}
