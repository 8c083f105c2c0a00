/**
 * The state of one element's style store (ElementStyle in
 * Paper/Paper.Styles.cs) as a value, and every operation of the store as a
 * function from the old state to the new one. The class ElementStyle
 * (module ElementStyles) is proved to follow these functions; the lemmas at
 * the end of this module state what the operations promise.
 */
module StoreSpec {
  import opened Wrappers
  import opened StyleValues
  import opened StyleSchema

  /** TransitionConfig: a duration in seconds and an optional easing function. */
  datatype TransitionConfig = TransitionConfig(duration: real, easing: Option<real -> real>)

  /** InterpolationState<T>: one running transition of one property. */
  datatype Interpolation = Interpolation(
    start: Value, target: Value, duration: real, easing: Option<real -> real>, time: real)

  /**
   * The fields of an ElementStyle (the parent link aside):
   *  current / target   _currentGuiValues / _targetGuiValues
   *  hasValue           _currentValues (what HasValue reports)
   *  targeted           _targetValues (what Update processes)
   *  setThisFrame       _propertiesSetThisFrame
   *  withTransitions    _propertiesWithTransitions
   *  configs, interps   _transitionConfigs, _interpolations
   */
  datatype StoreState = StoreState(
    current: GuiProperties,
    target: GuiProperties,
    setThisFrame: set<GuiProp>,
    withTransitions: set<GuiProp>,
    firstFrame: bool,
    hasValue: set<GuiProp>,
    targeted: set<GuiProp>,
    configs: map<GuiProp, TransitionConfig>,
    interps: map<GuiProp, Interpolation>)

  /** A running transition of `p` holds values of p's type and a non-negative clock. */
  predicate InterpTyped(p: GuiProp, rec: Interpolation) {
    TypeOf(rec.start) == PropType(p) && TypeOf(rec.target) == PropType(p) && rec.time >= 0.0
  }

  /** What every operation preserves. */
  predicate Inv(s: StoreState) {
    WellTyped(s.current) && WellTyped(s.target) &&
    (forall p :: p in s.interps ==> InterpTyped(p, s.interps[p]))
  }

  /** Values a parent store exposes: its own current value for each property it has a value for. */
  predicate ParentValuesTyped(pv: map<GuiProp, Value>) {
    forall p :: p in pv ==> TypeOf(pv[p]) == PropType(p)
  }

  /** A new ElementStyle. */
  function Fresh(): (s: StoreState)
    ensures Inv(s)
  {
    StoreState(Defaults(), Defaults(), {}, {}, true, {}, {}, map[], map[])
  }

  // ---------------------------------------------------------------------------
  // Setters

  /**
   * SetDirectValue: the property is marked set-this-frame first; then, when
   * the value has the property's type, it becomes both the current and the
   * target value, the property gains a value and a target, and any running
   * transition of it is dropped. A value of the wrong type raises the
   * exception after the set-this-frame mark (TypeMismatch).
   */
  function SetDirect(s: StoreState, p: GuiProp, v: Value): (r: StoreState)
    requires Inv(s)
    ensures Inv(r)
  {
    var marked := s.(setThisFrame := s.setThisFrame + {p});
    if TypeOf(v) != PropType(p) then marked
    else marked.(current := s.current[p := v], target := s.target[p := v],
                 hasValue := s.hasValue + {p}, targeted := s.targeted + {p},
                 interps := s.interps - {p})
  }

  /**
   * SetNextValue: marks the property set-this-frame, then (type permitting)
   * records the value as its target and the property as targeted. The current
   * value and HasValue are not touched.
   */
  function SetNext(s: StoreState, p: GuiProp, v: Value): (r: StoreState)
    requires Inv(s)
    ensures Inv(r)
  {
    var marked := s.(setThisFrame := s.setThisFrame + {p});
    if TypeOf(v) != PropType(p) then marked
    else marked.(target := s.target[p := v], targeted := s.targeted + {p})
  }

  /** Both setters raise InvalidOperationException exactly when the value has the wrong type. */
  predicate TypeMismatch(p: GuiProp, v: Value) {
    TypeOf(v) != PropType(p)
  }

  /** SetTransitionConfig: stores the configuration and marks the property as having transitions. */
  function SetTransition(s: StoreState, p: GuiProp, duration: real, easing: Option<real -> real>): (r: StoreState)
    requires Inv(s)
    ensures Inv(r)
  {
    s.(configs := s.configs[p := TransitionConfig(duration, easing)],
       withTransitions := s.withTransitions + {p})
  }

  /** ClearValue: forgets the value, the target, the configuration and the running transition. */
  function Clear(s: StoreState, p: GuiProp): (r: StoreState)
    requires Inv(s)
    ensures Inv(r)
  {
    s.(hasValue := s.hasValue - {p}, targeted := s.targeted - {p},
       configs := s.configs - {p}, interps := s.interps - {p})
  }

  /**
   * ReturnToPool: clears the per-frame and per-value sets and the running
   * transitions and restores default structs; the first-frame flag and the
   * transition configurations are left as they were.
   */
  function ReturnToPool(s: StoreState): (r: StoreState)
    requires Inv(s)
    ensures Inv(r)
  {
    s.(setThisFrame := {}, withTransitions := {}, targeted := {}, hasValue := {},
       current := Defaults(), target := Defaults(), interps := map[])
  }

  /** EndOfFrame: forgets what was set this frame; the store is no longer in its first frame. */
  function EndOfFrame(s: StoreState): (r: StoreState)
    requires Inv(s)
    ensures Inv(r)
  {
    s.(setThisFrame := {}, firstFrame := false)
  }

  // ---------------------------------------------------------------------------
  // Update

  /**
   * GetTargetValue: the explicit target when the property was set this frame,
   * else the parent's value when the parent has one, else the default.
   */
  function ResolvedTarget(s: StoreState, pv: map<GuiProp, Value>, p: GuiProp): (v: Value)
    requires Inv(s) && ParentValuesTyped(pv)
    ensures TypeOf(v) == PropType(p)
  {
    if p in s.setThisFrame then s.target[p]
    else if p in pv then pv[p]
    else DefaultValue(p)
  }

  /**
   * InitializeTransitionProperties: every property that has ever had a
   * transition and has no value yet gets the parent's or the default value
   * written into the current struct. It is not marked as having a value.
   */
  function Seeded(s: StoreState, pv: map<GuiProp, Value>): (r: StoreState)
    requires Inv(s) && ParentValuesTyped(pv)
    ensures Inv(r)
    ensures r == s.(current := r.current)
    ensures forall q :: q in s.hasValue ==> r.current[q] == s.current[q]
    ensures forall q :: q in s.withTransitions && q !in s.hasValue ==> r.current[q] == SeedValue(pv, q)
    ensures forall q :: q !in s.withTransitions ==> r.current[q] == s.current[q]
  {
    SeededWith(s, pv, s.withTransitions)
  }

  /** InitializeTransitionProperty: the parent's value when the parent has one, else the default. */
  function SeedValue(pv: map<GuiProp, Value>, p: GuiProp): (v: Value)
    requires ParentValuesTyped(pv)
    ensures TypeOf(v) == PropType(p)
    ensures p in pv ==> v == pv[p]
    ensures p !in pv ==> v == DefaultValue(p)
  {
    if p in pv then pv[p] else DefaultValue(p)
  }

  /** Seeding carried out for the properties in `done` only. */
  function SeededWith(s: StoreState, pv: map<GuiProp, Value>, done: set<GuiProp>): (r: StoreState)
    requires Inv(s) && ParentValuesTyped(pv)
    ensures Inv(r) && r == s.(current := r.current)
  {
    s.(current := map q | q in s.current ::
         if q in done && q !in s.hasValue then SeedValue(pv, q) else s.current[q])
  }

  /** Seeding nothing leaves the state as it was. */
  lemma SeededWithNone(s: StoreState, pv: map<GuiProp, Value>)
    requires Inv(s) && ParentValuesTyped(pv)
    ensures SeededWith(s, pv, {}) == s
  {
    assert SeededWith(s, pv, {}).current == s.current;
  }

  /** Seeding one more property writes its seed when it has no value, and nothing otherwise. */
  lemma SeedStep(s: StoreState, pv: map<GuiProp, Value>, done: set<GuiProp>, p: GuiProp)
    requires Inv(s) && ParentValuesTyped(pv) && p !in done
    ensures var r := SeededWith(s, pv, done);
      SeededWith(s, pv, done + {p}) ==
        if p in s.hasValue then r else r.(current := r.current[p := SeedValue(pv, p)])
  {
    SeedCurrentStep(s, pv, done, p);
  }

  lemma SeedCurrentStep(s: StoreState, pv: map<GuiProp, Value>, done: set<GuiProp>, p: GuiProp)
    requires Inv(s) && ParentValuesTyped(pv) && p !in done
    ensures var c := SeededWith(s, pv, done).current;
      SeededWith(s, pv, done + {p}).current == if p in s.hasValue then c else c[p := SeedValue(pv, p)]
  {
  }

  /** The outcome for one property: its new current value, its transition record, and whether that finished. */
  datatype Step = Step(value: Value, interp: Option<Interpolation>, finished: bool)

  function Lookup(m: map<GuiProp, Interpolation>, p: GuiProp): Option<Interpolation> {
    if p in m then Some(m[p]) else None
  }

  /** `next` is `rec` with its clock moved on by 2 * dt and nothing else changed. */
  ghost predicate Ticked(next: Interpolation, rec: Interpolation, dt: real) {
    next.start == rec.start && next.target == rec.target && next.duration == rec.duration &&
    next.easing == rec.easing && next.time == rec.time + 2.0 * dt
  }

  /**
   * InterpolationState.Update: the clock moves on by dt; at or past the
   * duration the target is written and the record is finished, otherwise the
   * eased fraction min(1, time / duration) of the way from start to target.
   */
  function Tick(rec: Interpolation, dt: real, lerps: ForeignLerps): (r: Step)
    requires TypeOf(rec.start) == TypeOf(rec.target) && rec.time >= 0.0 && dt >= 0.0
    ensures r.interp.Some? && r.interp.value == rec.(time := rec.time + dt)
    ensures TypeOf(r.value) == TypeOf(rec.target)
    ensures r.finished <==> rec.time + dt >= rec.duration
    ensures r.finished ==> r.value == rec.target
  {
    var moved := rec.(time := rec.time + dt);
    if moved.time >= moved.duration then Step(moved.target, Some(moved), true)
    else
      var ratio := moved.time / moved.duration;
      var t := if ratio < 1.0 then ratio else 1.0;
      var eased := if moved.easing.Some? then moved.easing.value(t) else t;
      Step(Interpolate(lerps, moved.start, moved.target, eased), Some(moved), false)
  }

  /**
   * HandleInterpolationState's own clock step followed by
   * InterpolationState.Update: every Update moves a record by 2 * dt.
   */
  function Advance(rec: Interpolation, dt: real, lerps: ForeignLerps): (r: Step)
    requires TypeOf(rec.start) == TypeOf(rec.target) && rec.time >= 0.0 && dt >= 0.0
    ensures r.interp.Some? && Ticked(r.interp.value, rec, dt)
    ensures TypeOf(r.value) == TypeOf(rec.target)
    ensures r.finished <==> rec.time + 2.0 * dt >= rec.duration
    ensures r.finished ==> r.value == rec.target
  {
    Tick(rec.(time := rec.time + dt), dt, lerps)
  }

  /** Advance is the clock step followed by one Tick. */
  lemma AdvanceTicks(rec: Interpolation, dt: real, lerps: ForeignLerps)
    requires TypeOf(rec.start) == TypeOf(rec.target) && rec.time >= 0.0 && dt >= 0.0
    ensures Advance(rec, dt, lerps) == Tick(rec.(time := rec.time + dt), dt, lerps)
  {
  }

  /**
   * ProcessPropertyForAnimation for one targeted property: with no
   * configuration the resolved target is written at once; otherwise the
   * transition step below.
   */
  function PropStep(s: StoreState, pv: map<GuiProp, Value>, p: GuiProp, dt: real, lerps: ForeignLerps): (r: Step)
    requires Inv(s) && ParentValuesTyped(pv) && dt >= 0.0
    ensures TypeOf(r.value) == PropType(p)
    ensures r.interp.Some? ==> InterpTyped(p, r.interp.value)
    ensures p in s.interps ==> r.interp.Some?
  {
    var tv := ResolvedTarget(s, pv, p);
    if p !in s.configs then Step(tv, Lookup(s.interps, p), false)
    else WithTransition(s, p, tv, dt, lerps)
  }

  /**
   * ProcessPropertyWithTransition: a property with no value yet takes the
   * target at once; a value already equal to the target is left alone;
   * otherwise the stored transition continues if it heads to the same
   * target, or a new one starts from the current value at time 0, and it
   * advances.
   */
  function WithTransition(s: StoreState, p: GuiProp, tv: Value, dt: real, lerps: ForeignLerps): (r: Step)
    requires Inv(s) && p in s.configs && TypeOf(tv) == PropType(p) && dt >= 0.0
    ensures TypeOf(r.value) == PropType(p)
    ensures r.interp.Some? ==> InterpTyped(p, r.interp.value)
    ensures p in s.interps ==> r.interp.Some?
  {
    if p !in s.hasValue then Step(tv, Lookup(s.interps, p), false)
    else if s.current[p] == tv then Step(s.current[p], Lookup(s.interps, p), false)
    else Advance(Chosen(s, p, tv), dt, lerps)
  }

  /**
   * The record a changing property advances: the stored one while it heads to
   * the same target, otherwise a new one from the current value at time 0
   * with the property's configuration.
   */
  function Chosen(s: StoreState, p: GuiProp, tv: Value): (rec: Interpolation)
    requires Inv(s) && p in s.configs && TypeOf(tv) == PropType(p)
    ensures InterpTyped(p, rec) && rec.target == tv
  {
    if p in s.interps && s.interps[p].target == tv then s.interps[p]
    else Interpolation(s.current[p], tv, s.configs[p].duration, s.configs[p].easing, 0.0)
  }

  /** A state with one property's step written: its new value, and its record when it has one. */
  function WithStep(s: StoreState, p: GuiProp, st: Step): StoreState {
    s.(current := s.current[p := st.value],
       interps := if st.interp.Some? then s.interps[p := st.interp.value] else s.interps)
  }

  /** The state Update steps from: seeded, except in the store's first frame. */
  function Prepared(s: StoreState, pv: map<GuiProp, Value>): (r: StoreState)
    requires Inv(s) && ParentValuesTyped(pv)
    ensures Inv(r) && r == s.(current := r.current)
    ensures forall q :: q in s.hasValue ==> r.current[q] == s.current[q]
  {
    if s.firstFrame then s else Seeded(s, pv)
  }

  predicate StepsTyped(m: map<GuiProp, Step>) {
    forall q :: q in m ==>
      TypeOf(m[q].value) == PropType(q) && (m[q].interp.Some? ==> InterpTyped(q, m[q].interp.value))
  }

  /** The step of every targeted property, all taken from the same state. */
  function StepAll(s: StoreState, pv: map<GuiProp, Value>, dt: real, lerps: ForeignLerps): (m: map<GuiProp, Step>)
    requires Inv(s) && ParentValuesTyped(pv) && dt >= 0.0
    ensures m.Keys == s.targeted && StepsTyped(m)
    ensures forall q :: q in m ==> m[q] == PropStep(s, pv, q, dt, lerps)
  {
    map q | q in s.targeted :: PropStep(s, pv, q, dt, lerps)
  }

  /** The properties whose transition finished in this step. */
  function Finished(m: map<GuiProp, Step>): set<GuiProp> {
    set q | q in m && m[q].finished
  }

  /**
   * Update part way through its loop: the steps of the properties in `done`
   * written and those properties marked as having a value; finished records
   * are still kept.
   */
  function Partial(s: StoreState, m: map<GuiProp, Step>, done: set<GuiProp>): (r: StoreState)
    requires Inv(s) && StepsTyped(m) && done <= m.Keys
    ensures Inv(r)
    ensures r == s.(current := r.current, hasValue := s.hasValue + done, interps := r.interps)
  {
    s.(current := map q | q in s.current :: if q in done then m[q].value else s.current[q],
       hasValue := s.hasValue + done,
       interps := map q | q in s.interps.Keys + done && (q in done ==> m[q].interp.Some?) ::
         if q in done then m[q].interp.value else s.interps[q])
  }

  /** Before the loop nothing is written. */
  lemma PartialNone(s: StoreState, m: map<GuiProp, Step>)
    requires Inv(s) && StepsTyped(m)
    ensures Partial(s, m, {}) == s
  {
    var r := Partial(s, m, {});
    assert r.current == s.current;
    assert r.interps == s.interps;
  }

  /** One more loop iteration writes one more step and marks its property as having a value. */
  lemma PartialStep(s: StoreState, m: map<GuiProp, Step>, done: set<GuiProp>, p: GuiProp)
    requires Inv(s) && StepsTyped(m) && done <= m.Keys && p in m && p !in done
    requires p in s.interps ==> m[p].interp.Some?
    ensures var r := Partial(s, m, done);
      Partial(s, m, done + {p}) == WithStep(r, p, m[p]).(hasValue := r.hasValue + {p})
  {
    PartialCurrentStep(s, m, done, p);
    PartialInterpsStep(s, m, done, p);
  }

  lemma PartialCurrentStep(s: StoreState, m: map<GuiProp, Step>, done: set<GuiProp>, p: GuiProp)
    requires Inv(s) && StepsTyped(m) && done <= m.Keys && p in m && p !in done
    ensures Partial(s, m, done + {p}).current == Partial(s, m, done).current[p := m[p].value]
  {
  }

  lemma PartialInterpsStep(s: StoreState, m: map<GuiProp, Step>, done: set<GuiProp>, p: GuiProp)
    requires Inv(s) && StepsTyped(m) && done <= m.Keys && p in m && p !in done
    requires p in s.interps ==> m[p].interp.Some?
    ensures var st := m[p]; var r := Partial(s, m, done);
      Partial(s, m, done + {p}).interps == if st.interp.Some? then r.interps[p := st.interp.value] else r.interps
  {
  }

  /** A property the loop has not reached yet reads what it read before the loop. */
  lemma PartialKeepsOthers(s: StoreState, m: map<GuiProp, Step>, done: set<GuiProp>, p: GuiProp)
    requires Inv(s) && StepsTyped(m) && done <= m.Keys && p !in done
    ensures SameForProp(s, Partial(s, m, done), p)
  {
  }

  /**
   * One iteration of Update's loop: stepping `p` from the partly written
   * state gives the step StepAll computed from the loop's starting state,
   * and writing it extends the written part by `p`.
   */
  lemma LoopStep(s: StoreState, pv: map<GuiProp, Value>, dt: real, lerps: ForeignLerps, done: set<GuiProp>, p: GuiProp)
    requires Inv(s) && ParentValuesTyped(pv) && dt >= 0.0
    requires done <= s.targeted && p in s.targeted && p !in done
    ensures var m := StepAll(s, pv, dt, lerps);
      var r := Partial(s, m, done);
      var st := PropStep(r, pv, p, dt, lerps);
      st == m[p] && WithStep(r, p, st).(hasValue := r.hasValue + {p}) == Partial(s, m, done + {p})
  {
    var m := StepAll(s, pv, dt, lerps);
    PartialKeepsOthers(s, m, done, p);
    StepIsLocal(s, Partial(s, m, done), pv, p, dt, lerps);
    PartialStep(s, m, done, p);
  }

  /**
   * Writing the steps back: each stepped property gets its new value and
   * keeps its record only while that has not finished; every targeted
   * property is marked as having a value; the configurations are cleared.
   */
  function Commit(s: StoreState, m: map<GuiProp, Step>): (r: StoreState)
    requires Inv(s) && m.Keys == s.targeted && StepsTyped(m)
    ensures Inv(r)
    ensures forall q :: q in m ==> r.current[q] == m[q].value
    ensures forall q :: q !in m ==> r.current[q] == s.current[q]
    ensures forall q :: q in m ==>
      (q in r.interps <==> m[q].interp.Some? && !m[q].finished) &&
      (q in r.interps ==> r.interps[q] == m[q].interp.value)
    ensures forall q :: q !in m ==>
      (q in r.interps <==> q in s.interps) && (q in r.interps ==> r.interps[q] == s.interps[q])
    ensures r == s.(current := r.current, interps := r.interps,
                    hasValue := s.hasValue + s.targeted, configs := map[])
  {
    var c := Partial(s, m, m.Keys);
    c.(interps := c.interps - Finished(m), configs := map[])
  }

  /**
   * ElementStyle.Update: seeds transition properties (except in the first
   * frame), steps every targeted property, marks them all as having a value,
   * drops finished transitions, and clears the transition configurations.
   */
  function UpdateSpec(s: StoreState, pv: map<GuiProp, Value>, dt: real, lerps: ForeignLerps): (r: StoreState)
    requires Inv(s) && ParentValuesTyped(pv) && dt >= 0.0
    ensures Inv(r)
    ensures r.hasValue == s.hasValue + s.targeted
    ensures r.configs == map[]
    ensures r.targeted == s.targeted && r.setThisFrame == s.setThisFrame && r.target == s.target
    ensures r.firstFrame == s.firstFrame && r.withTransitions == s.withTransitions
  {
    var s1 := Prepared(s, pv);
    Commit(s1, StepAll(s1, pv, dt, lerps))
  }

  /** Two states agree on everything the step of `p` reads. */
  ghost predicate SameForProp(s: StoreState, s': StoreState, p: GuiProp)
    requires WellTyped(s.current) && WellTyped(s.target) && WellTyped(s'.current) && WellTyped(s'.target)
  {
    s.current[p] == s'.current[p] && s.target[p] == s'.target[p] &&
    (p in s.setThisFrame <==> p in s'.setThisFrame) && (p in s.hasValue <==> p in s'.hasValue) &&
    (p in s.configs <==> p in s'.configs) && (p in s.configs ==> s.configs[p] == s'.configs[p]) &&
    (p in s.interps <==> p in s'.interps) && (p in s.interps ==> s.interps[p] == s'.interps[p])
  }

  /** A property's step reads only that property's entries, so Update may process properties in any order. */
  lemma StepIsLocal(s: StoreState, s': StoreState, pv: map<GuiProp, Value>, p: GuiProp, dt: real, lerps: ForeignLerps)
    requires Inv(s) && Inv(s') && ParentValuesTyped(pv) && dt >= 0.0
    requires SameForProp(s, s', p)
    ensures PropStep(s, pv, p, dt, lerps) == PropStep(s', pv, p, dt, lerps)
  {
    TargetIsLocal(s, s', pv, p);
    if p in s.configs {
      TransitionIsLocal(s, s', p, ResolvedTarget(s, pv, p), dt, lerps);
    }
  }

  lemma TargetIsLocal(s: StoreState, s': StoreState, pv: map<GuiProp, Value>, p: GuiProp)
    requires Inv(s) && Inv(s') && ParentValuesTyped(pv)
    requires SameForProp(s, s', p)
    ensures ResolvedTarget(s, pv, p) == ResolvedTarget(s', pv, p)
    ensures Lookup(s.interps, p) == Lookup(s'.interps, p)
  {
  }

  lemma TransitionIsLocal(s: StoreState, s': StoreState, p: GuiProp, tv: Value, dt: real, lerps: ForeignLerps)
    requires Inv(s) && Inv(s') && p in s.configs && TypeOf(tv) == PropType(p) && dt >= 0.0
    requires SameForProp(s, s', p)
    ensures WithTransition(s, p, tv, dt, lerps) == WithTransition(s', p, tv, dt, lerps)
  {
    assert Lookup(s.interps, p) == Lookup(s'.interps, p);
    if p in s.hasValue && s.current[p] != tv {
      assert Chosen(s, p, tv) == Chosen(s', p, tv);
    }
  }

  // ---------------------------------------------------------------------------
  // Properties

  /** SetNextValue changes only the target side: current values and HasValue stay as they were. */
  lemma SetNextKeepsCurrent(s: StoreState, p: GuiProp, v: Value)
    requires Inv(s)
    ensures SetNext(s, p, v).current == s.current && SetNext(s, p, v).hasValue == s.hasValue
    ensures p in SetNext(s, p, v).setThisFrame
    ensures !TypeMismatch(p, v) ==> SetNext(s, p, v).target[p] == v && p in SetNext(s, p, v).targeted
    ensures TypeMismatch(p, v) ==> SetNext(s, p, v) == s.(setThisFrame := s.setThisFrame + {p})
  {
  }

  /**
   * SetDirectValue followed by Update keeps the value: whatever transition
   * configuration is present, the property's current value is v afterwards.
   */
  lemma SetDirectSurvivesUpdate(s: StoreState, pv: map<GuiProp, Value>, p: GuiProp, v: Value, dt: real, lerps: ForeignLerps)
    requires Inv(s) && ParentValuesTyped(pv) && dt >= 0.0
    requires !TypeMismatch(p, v)
    ensures var r := UpdateSpec(SetDirect(s, p, v), pv, dt, lerps);
      r.current[p] == v && p in r.hasValue && p !in r.interps
  {
    var s0 := SetDirect(s, p, v);
    var s1 := Prepared(s0, pv);
    assert s1.current[p] == v && p in s1.hasValue && p in s1.setThisFrame && s1.target[p] == v;
    assert ResolvedTarget(s1, pv, p) == v;
    assert p !in s1.interps;
  }

  /**
   * Update without a transition configuration writes the resolved target:
   * the value set this frame, else the parent's, else the default; and the
   * property is then marked as having a value.
   */
  lemma UpdateWithoutConfig(s: StoreState, pv: map<GuiProp, Value>, p: GuiProp, dt: real, lerps: ForeignLerps)
    requires Inv(s) && ParentValuesTyped(pv) && dt >= 0.0
    requires p in s.targeted && p !in s.configs
    ensures var r := UpdateSpec(s, pv, dt, lerps);
      p in r.hasValue &&
      r.current[p] == (if p in s.setThisFrame then s.target[p] else if p in pv then pv[p] else DefaultValue(p))
  {
    var s1 := Prepared(s, pv);
    assert s1.setThisFrame == s.setThisFrame && s1.target == s.target && s1.configs == s.configs;
  }

  /**
   * A property that is not set again after EndOfFrame reverts: the next
   * Update (with no configuration) writes the parent's or the default value.
   */
  lemma RevertsWhenNotReset(s: StoreState, pv: map<GuiProp, Value>, p: GuiProp, dt: real, lerps: ForeignLerps)
    requires Inv(s) && ParentValuesTyped(pv) && dt >= 0.0
    requires p in s.targeted && p !in s.configs
    ensures UpdateSpec(EndOfFrame(s), pv, dt, lerps).current[p] == (if p in pv then pv[p] else DefaultValue(p))
  {
    UpdateWithoutConfig(EndOfFrame(s), pv, p, dt, lerps);
  }

  /**
   * With a configuration but no value yet, Update snaps to the target and
   * starts no transition.
   */
  lemma SnapWithoutValue(s: StoreState, pv: map<GuiProp, Value>, p: GuiProp, dt: real, lerps: ForeignLerps)
    requires Inv(s) && ParentValuesTyped(pv) && dt >= 0.0
    requires p in s.targeted && p in s.configs && p !in s.hasValue && p !in s.interps
    ensures var r := UpdateSpec(s, pv, dt, lerps);
      r.current[p] == ResolvedTarget(s, pv, p) && p !in r.interps && p in r.hasValue
  {
    var s1 := Prepared(s, pv);
    assert ResolvedTarget(s1, pv, p) == ResolvedTarget(s, pv, p);
  }

  /**
   * With a configuration and a value: a value already at the target is left
   * alone (and any record kept); otherwise a record aimed elsewhere, or none,
   * is replaced by one starting at the current value, and the clock of the
   * record in use moves by 2 * dt.
   */
  lemma TransitionStep(s: StoreState, pv: map<GuiProp, Value>, p: GuiProp, dt: real, lerps: ForeignLerps)
    requires Inv(s) && ParentValuesTyped(pv) && dt >= 0.0
    requires p in s.configs && p in s.hasValue
    ensures var tv := ResolvedTarget(s, pv, p);
      var r := PropStep(s, pv, p, dt, lerps);
      (s.current[p] == tv ==> r.value == s.current[p] && r.interp == Lookup(s.interps, p) && !r.finished) &&
      (s.current[p] != tv && p in s.interps && s.interps[p].target == tv ==>
         r.interp.Some? && Ticked(r.interp.value, s.interps[p], dt)) &&
      (s.current[p] != tv && !(p in s.interps && s.interps[p].target == tv) ==>
         r.interp.Some? &&
         Ticked(r.interp.value, Interpolation(s.current[p], tv, s.configs[p].duration, s.configs[p].easing, 0.0), dt))
  {
  }

  /**
   * A transition that reaches its duration writes the target exactly, and
   * Update drops its record in the same call.
   */
  lemma FinishedTransitionIsPurged(s: StoreState, pv: map<GuiProp, Value>, p: GuiProp, dt: real, lerps: ForeignLerps)
    requires Inv(s) && ParentValuesTyped(pv) && dt >= 0.0
    requires p in s.targeted
    requires var s1 := Prepared(s, pv);
      PropStep(s1, pv, p, dt, lerps).finished
    ensures var r := UpdateSpec(s, pv, dt, lerps);
      p !in r.interps && r.current[p] == ResolvedTarget(s, pv, p)
  {
    var s1 := Prepared(s, pv);
    assert ResolvedTarget(s1, pv, p) == ResolvedTarget(s, pv, p);
    var m := StepAll(s1, pv, dt, lerps);
    assert UpdateSpec(s, pv, dt, lerps) == Commit(s1, m);
    assert m[p] == PropStep(s1, pv, p, dt, lerps);
  }

  /** Before the duration, the value written is the eased interpolation at min(1, time / duration). */
  lemma RunningTransitionValue(rec: Interpolation, dt: real, lerps: ForeignLerps)
    requires TypeOf(rec.start) == TypeOf(rec.target) && rec.time >= 0.0 && dt >= 0.0
    requires rec.time + 2.0 * dt < rec.duration
    ensures var time := rec.time + 2.0 * dt;
      var t := if time / rec.duration < 1.0 then time / rec.duration else 1.0;
      rec.duration > 0.0 && !Advance(rec, dt, lerps).finished &&
      Advance(rec, dt, lerps).value ==
        Interpolate(lerps, rec.start, rec.target, if rec.easing.Some? then rec.easing.value(t) else t)
  {
  }

  /** Configurations last one Update: a transition must be declared again every frame. */
  lemma ConfigsLastOneFrame(s: StoreState, pv: map<GuiProp, Value>, p: GuiProp, v: Value, dt: real, lerps: ForeignLerps)
    requires Inv(s) && ParentValuesTyped(pv) && dt >= 0.0
    requires !TypeMismatch(p, v)
    ensures var next := SetNext(EndOfFrame(UpdateSpec(s, pv, dt, lerps)), p, v);
      p !in next.configs && UpdateSpec(next, pv, dt, lerps).current[p] == v
  {
    var next := SetNext(EndOfFrame(UpdateSpec(s, pv, dt, lerps)), p, v);
    UpdateWithoutConfig(next, pv, p, dt, lerps);
  }

  /** ReturnToPool resets a store to a new one, except for the first-frame flag and the configurations. */
  lemma ReturnToPoolResets(s: StoreState)
    requires Inv(s)
    ensures ReturnToPool(s) == Fresh().(firstFrame := s.firstFrame, configs := s.configs)
    ensures ReturnToPool(ReturnToPool(s)) == ReturnToPool(s)
  {
  }

  // ---------------------------------------------------------------------------
  // Convergence over frames

  /** One frame that declares `p`'s target `v` with configuration `cfg`, runs Update and ends. */
  function Frame(s: StoreState, pv: map<GuiProp, Value>, p: GuiProp, v: Value, cfg: TransitionConfig, dt: real, lerps: ForeignLerps): (r: StoreState)
    requires Inv(s) && ParentValuesTyped(pv) && dt >= 0.0 && !TypeMismatch(p, v)
    ensures Inv(r)
    ensures p in s.hasValue ==> p in r.hasValue
  {
    EndOfFrame(UpdateSpec(SetTransition(SetNext(s, p, v), p, cfg.duration, cfg.easing), pv, dt, lerps))
  }

  function Frames(s: StoreState, pv: map<GuiProp, Value>, p: GuiProp, v: Value, cfg: TransitionConfig, dt: real, lerps: ForeignLerps, n: nat): (r: StoreState)
    requires Inv(s) && ParentValuesTyped(pv) && dt >= 0.0 && !TypeMismatch(p, v)
    ensures Inv(r)
    ensures p in s.hasValue ==> p in r.hasValue
    decreases n
  {
    if n == 0 then s else Frames(Frame(s, pv, p, v, cfg, dt, lerps), pv, p, v, cfg, dt, lerps, n - 1)
  }

  /** How much transition time is left before `p` reaches `v`. */
  function Remaining(s: StoreState, p: GuiProp, v: Value, cfg: TransitionConfig): real
    requires WellTyped(s.current)
  {
    if s.current[p] == v then 0.0
    else if p in s.interps && s.interps[p].target == v then s.interps[p].duration - s.interps[p].time
    else cfg.duration
  }

  /** The step of `p` from a state where `v` is its resolved target and `cfg` its configuration. */
  lemma StepProgress(a: StoreState, pv: map<GuiProp, Value>, p: GuiProp, v: Value, cfg: TransitionConfig, dt: real, lerps: ForeignLerps)
    requires Inv(a) && ParentValuesTyped(pv) && dt >= 0.0
    requires p in a.hasValue && p in a.configs && a.configs[p] == cfg && ResolvedTarget(a, pv, p) == v
    ensures var st := PropStep(a, pv, p, dt, lerps);
      (st.value == v ||
       (st.interp.Some? && !st.finished && st.interp.value.target == v &&
        st.interp.value.duration - st.interp.value.time <= Remaining(a, p, v, cfg) - 2.0 * dt)) &&
      (Remaining(a, p, v, cfg) <= 2.0 * dt ==> st.value == v)
  {
  }

  /** Every frame either reaches `v` or uses up 2 * dt of the remaining time, and one that has 2 * dt or less left reaches `v`. */
  lemma FrameProgress(s: StoreState, pv: map<GuiProp, Value>, p: GuiProp, v: Value, cfg: TransitionConfig, dt: real, lerps: ForeignLerps)
    requires Inv(s) && ParentValuesTyped(pv) && dt >= 0.0 && !TypeMismatch(p, v)
    requires p in s.hasValue
    ensures var r := Frame(s, pv, p, v, cfg, dt, lerps);
      (r.current[p] == v || Remaining(r, p, v, cfg) <= Remaining(s, p, v, cfg) - 2.0 * dt) &&
      (Remaining(s, p, v, cfg) <= 2.0 * dt ==> r.current[p] == v)
  {
    var a := SetTransition(SetNext(s, p, v), p, cfg.duration, cfg.easing);
    var s1 := Prepared(a, pv);
    assert s1.current[p] == s.current[p] && s1.interps == s.interps;
    assert Remaining(s1, p, v, cfg) == Remaining(s, p, v, cfg);
    StepProgress(s1, pv, p, v, cfg, dt, lerps);
    var m := StepAll(s1, pv, dt, lerps);
    var u := Commit(s1, m);
    assert UpdateSpec(a, pv, dt, lerps) == u;
    assert u.current[p] == m[p].value;
  }

  /**
   * Declaring the same target and configuration every frame brings the
   * property to exactly that target within n frames, as soon as n frames'
   * worth of clock (2 * dt each) covers the remaining transition time.
   */
  lemma {:induction false} Converges(s: StoreState, pv: map<GuiProp, Value>, p: GuiProp, v: Value, cfg: TransitionConfig, dt: real, lerps: ForeignLerps, n: nat)
    requires Inv(s) && ParentValuesTyped(pv) && dt >= 0.0 && !TypeMismatch(p, v)
    requires p in s.hasValue
    requires n >= 1 && Remaining(s, p, v, cfg) <= Clock(dt, n)
    ensures Frames(s, pv, p, v, cfg, dt, lerps, n).current[p] == v
    decreases n
  {
    var next := Frame(s, pv, p, v, cfg, dt, lerps);
    FrameProgress(s, pv, p, v, cfg, dt, lerps);
    if n > 1 {
      RemainingShrinks(s, next, p, v, cfg, dt, n);
      Converges(next, pv, p, v, cfg, dt, lerps, n - 1);
    }
  }

  /** A frame that reaches `v` or uses up 2 * dt of the remaining time leaves at most n - 1 frames' worth. */
  lemma RemainingShrinks(s: StoreState, next: StoreState, p: GuiProp, v: Value, cfg: TransitionConfig, dt: real, n: nat)
    requires WellTyped(s.current) && WellTyped(next.current) && dt >= 0.0 && n >= 1
    requires Remaining(s, p, v, cfg) <= Clock(dt, n)
    requires next.current[p] == v || Remaining(next, p, v, cfg) <= Remaining(s, p, v, cfg) - 2.0 * dt
    ensures Remaining(next, p, v, cfg) <= Clock(dt, n - 1)
  {
  }

  /** The clock time n frames advance a transition by: 2 * dt each. */
  function Clock(dt: real, n: nat): (c: real)
    ensures dt >= 0.0 ==> c >= 0.0
  {
    if n == 0 then 0.0 else Clock(dt, n - 1) + 2.0 * dt
  }

  /** The clock of n frames is 2 * dt * n. */
  lemma {:induction false} ClockIsLinear(dt: real, n: nat)
    ensures Clock(dt, n) == 2.0 * dt * n as real
  {
    if n > 0 {
      ClockIsLinear(dt, n - 1);
    }
  }
}
