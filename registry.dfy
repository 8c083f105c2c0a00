/**
 * The style registry of class Paper (Paper/Paper.Styles.cs, region Style
 * Management, and Paper/Paper.ObjectPools.cs): a store per element id, a
 * pool of recycled stores, the end-of-frame reclamation and the frame
 * counters.
 *
 * Every store the registry holds has no parent (nothing here calls
 * SetParent), is valid, and is held once: under one id, or in the pool.
 * The ConcurrentBag pool is therefore a set.
 */
module StyleRegistry {
  import opened Wrappers
  import opened StyleValues
  import opened StyleSchema
  import opened StoreSpec
  import opened ElementStyles
  import opened StyleTemplates

  /** A store the registry may hold: valid, and with no parent (so it reads only itself). */
  ghost predicate Detached(st: ElementStyle)
    reads st
  {
    st.parent == null && st.ancestors == {} && st.Valid()
  }

  /** The stores of the entries whose element was not created this frame. */
  function Dropped(active: map<nat, ElementStyle>, created: set<nat>): (r: set<ElementStyle>)
    ensures forall id :: id in active && id !in created ==> active[id] in r
    ensures forall st :: st in r ==> exists id :: id in active && id !in created && active[id] == st
  {
    set id | id in active && id !in created :: active[id]
  }

  /** What the end-of-frame clean-up does to one store's state, once it has been reached. */
  function Cleaned(s: StoreState, pending: bool, created: bool): StoreState
    requires Inv(s)
  {
    if pending then s else if created then StoreSpec.EndOfFrame(s) else StoreSpec.ReturnToPool(s)
  }

  predicate Injective(m: map<nat, ElementStyle>) {
    forall i, j :: i in m && j in m && i != j ==> m[i] != m[j]
  }

  lemma RemainingStep(a0: map<nat, ElementStyle>, todo: set<nat>, created: set<nat>, id: nat)
    requires id in todo && todo <= a0.Keys
    ensures var before := a0 - ((a0.Keys - todo) - created);
      a0 - ((a0.Keys - (todo - {id})) - created) == if id in created then before else before - {id}
  {
    var before := a0 - ((a0.Keys - todo) - created);
    var after := a0 - ((a0.Keys - (todo - {id})) - created);
    if id in created {
      assert after.Keys == before.Keys;
    } else {
      assert after.Keys == before.Keys - {id};
    }
  }

  lemma DroppedStep(a0: map<nat, ElementStyle>, todo: set<nat>, created: set<nat>, id: nat)
    requires id in todo && todo <= a0.Keys
    ensures Dropped(a0 - (todo - {id}), created) ==
      if id in created then Dropped(a0 - todo, created) else Dropped(a0 - todo, created) + {a0[id]}
  {
    var before := Dropped(a0 - todo, created);
    var after := Dropped(a0 - (todo - {id}), created);
    if id !in created {
      assert (a0 - (todo - {id}))[id] == a0[id];
      assert after == before + {a0[id]};
    } else {
      assert after == before;
    }
  }

  class Paper {
    /** _activeStyles: element id (a ulong) to its store. */
    var activeStyles: map<nat, ElementStyle>
    /** _stylePool. */
    var stylePool: set<ElementStyle>
    var currentStyleIndex: int
    var stylesLastFrame: int
    var currentBuilderIndex: int
    /** _builderPool, by the number of builders it holds; no member here changes it. */
    var builderPool: nat
    /** _styleTemplates. */
    var templates: Table

    ghost predicate Valid()
      reads this, activeStyles.Values, stylePool
    {
      (forall id :: id in activeStyles ==> Detached(activeStyles[id])) &&
      (forall st :: st in stylePool ==> Detached(st)) &&
      (forall i, j :: i in activeStyles && j in activeStyles && i != j ==> activeStyles[i] != activeStyles[j]) &&
      (forall id :: id in activeStyles ==> activeStyles[id] !in stylePool) &&
      // the only code that advanced _currentStyleIndex is commented out
      currentStyleIndex == 0
    }

    constructor()
      ensures Valid()
      ensures activeStyles == map[] && stylePool == {} && stylesLastFrame == 0 && templates == map[]
    {
      activeStyles := map[];
      stylePool := {};
      currentStyleIndex := 0;
      stylesLastFrame := 0;
      currentBuilderIndex := 0;
      builderPool := 0;
      templates := map[];
    }

    /**
     * UpdateStyles for one element: a store already registered for the id
     * runs Update (with no parent, so with nothing inherited); otherwise the
     * element's cached store, or a new one, is registered WITHOUT an Update
     * this frame. The store is returned to be cached on the element.
     */
    method UpdateStyles(dt: real, lerps: ForeignLerps, id: nat, cached: ElementStyle?) returns (style: ElementStyle)
      requires Valid() && dt >= 0.0
      requires cached != null ==> Detached(cached) && cached !in activeStyles.Values && cached !in stylePool
      modifies this`activeStyles, if id in activeStyles then {activeStyles[id]} else {}
      ensures Valid()
      ensures activeStyles == old(activeStyles)[id := style]
      ensures id in old(activeStyles) ==>
        style == old(activeStyles[id]) && style.State() == UpdateSpec(old(style.State()), map[], dt, lerps)
      ensures id !in old(activeStyles) && cached != null ==> style == cached && unchanged(style)
      ensures id !in old(activeStyles) && cached == null ==> fresh(style) && style.State() == Fresh()
    {
      if id in activeStyles {
        style := activeStyles[id];
        style.Update(dt, lerps);
        assert activeStyles == activeStyles[id := style];
      } else {
        if cached != null {
          style := cached;
        } else {
          style := new ElementStyle();
        }
        activeStyles := activeStyles[id := style];
      }
    }

    /** GetStyleFromPool: a pooled store when there is one (as it was pooled), else a new store. */
    method GetStyleFromPool() returns (style: ElementStyle)
      requires Valid()
      modifies this`stylePool
      ensures Detached(style) && style !in activeStyles.Values && style !in stylePool
      ensures old(stylePool) == {} ==> fresh(style) && style.State() == Fresh() && stylePool == {}
      ensures old(stylePool) != {} ==> style in old(stylePool) && stylePool == old(stylePool) - {style}
      ensures forall id :: id in activeStyles ==> Detached(activeStyles[id])
      ensures forall st :: st in stylePool ==> Detached(st)
    {
      if stylePool == {} {
        style := new ElementStyle();
        return;
      }
      style :| style in stylePool;
      stylePool := stylePool - {style};
    }

    /**
     * SetStyleProperty<T>: the element's store (a pooled or new one is
     * registered first when there is none) records the value as its next
     * target; `err` as for SetNextValue.
     */
    method SetStyleProperty(id: nat, p: GuiProp, v: Value) returns (err: Option<StyleError>)
      requires Valid()
      modifies this`activeStyles, this`stylePool, if id in activeStyles then {activeStyles[id]} else stylePool
      ensures Valid()
      ensures id in activeStyles && activeStyles == old(activeStyles)[id := activeStyles[id]]
      ensures err.Some? <==> TypeMismatch(p, v)
      ensures var st := activeStyles[id];
        (id in old(activeStyles) ==> st == old(activeStyles[id]) && stylePool == old(stylePool)) &&
        (id !in old(activeStyles) && old(stylePool) == {} ==> fresh(st) && stylePool == {}) &&
        (id !in old(activeStyles) && old(stylePool) != {} ==> st in old(stylePool) && stylePool == old(stylePool) - {st})
      ensures var st := activeStyles[id];
        st.State() == SetNext(if id !in old(activeStyles) && old(stylePool) == {} then Fresh() else old(st.State()), p, v)
    {
      var style := PooledStyleFor(id);
      assert activeStyles[id] == style;
      label Registered:
      err := style.SetNextValue(p, v);
      OneStoreChanged@Registered(style);
    }

    /** Changing one held store, validly and without a parent, keeps the registry valid. */
    twostate lemma OneStoreChanged(st: ElementStyle)
      requires old(Valid()) && unchanged(this)
      requires st in activeStyles.Values && Detached(st)
      requires forall o :: o in old(activeStyles.Values + stylePool) && o != st ==> unchanged(o)
      ensures Valid()
    {
      forall o | o in activeStyles.Values + stylePool && o != st
        ensures Detached(o)
      {
        assert old(Detached(o));
      }
    }

    /** The first half of SetStyleProperty: the element's store, taken from the pool and registered when missing. */
    method PooledStyleFor(id: nat) returns (style: ElementStyle)
      requires Valid()
      modifies this`activeStyles, this`stylePool
      ensures Valid() && Detached(style) && activeStyles == old(activeStyles)[id := style]
      ensures id in old(activeStyles) ==> style == old(activeStyles[id]) && stylePool == old(stylePool)
      ensures id !in old(activeStyles) && old(stylePool) == {} ==> fresh(style) && style.State() == Fresh() && stylePool == {}
      ensures id !in old(activeStyles) && old(stylePool) != {} ==> style in old(stylePool) && stylePool == old(stylePool) - {style}
    {
      if id in activeStyles {
        style := activeStyles[id];
        assert activeStyles == activeStyles[id := style];
      } else {
        style := GetStyleFromPool();
        activeStyles := activeStyles[id := style];
      }
    }

    /**
     * SetTransitionConfig: the element's store (a NEW one is registered when
     * there is none; the pool is not consulted) records the configuration.
     */
    method SetTransitionConfig(id: nat, p: GuiProp, duration: real, easing: Option<real -> real>)
      requires Valid()
      modifies this`activeStyles, if id in activeStyles then {activeStyles[id]} else {}
      ensures Valid()
      ensures id in activeStyles && activeStyles == old(activeStyles)[id := activeStyles[id]]
      ensures var st := activeStyles[id];
        (id in old(activeStyles) ==> st == old(activeStyles[id])) &&
        (id !in old(activeStyles) ==> fresh(st))
      ensures var st := activeStyles[id];
        st.State() == SetTransition(if id in old(activeStyles) then old(st.State()) else Fresh(), p, duration, easing)
    {
      var style: ElementStyle;
      if id in activeStyles {
        style := activeStyles[id];
      } else {
        style := new ElementStyle();
        activeStyles := activeStyles[id := style];
      }
      style.SetTransitionConfig(p, duration, easing);
    }

    /**
     * EndOfFrameCleanupStyles: every registered store whose element was not
     * created this frame is reset by ReturnToPool, pooled and unregistered;
     * every other one ends its frame. Removing entries while enumerating the
     * dictionary is allowed since .NET Core 3.0, so every entry is visited once.
     */
    method EndOfFrameCleanupStyles(created: set<nat>)
      requires Valid()
      modifies this`activeStyles, this`stylePool, activeStyles.Values
      ensures Valid()
      ensures activeStyles == old(activeStyles) - (old(activeStyles).Keys - created)
      ensures stylePool == old(stylePool) + Dropped(old(activeStyles), created)
      ensures forall id :: id in old(activeStyles) ==>
        var st := old(activeStyles[id]);
        st.State() == Cleaned(old(st.State()), false, id in created)
    {
      ghost var a0 := activeStyles;
      ghost var s0 := map id | id in activeStyles :: activeStyles[id].State();
      assert activeStyles == a0 - ((a0.Keys - a0.Keys) - created);
      assert Dropped(a0 - a0.Keys, created) == {};
      CleanupAll(a0, s0, created);
      assert a0 - {} == a0;
    }

    /** The enumeration of EndOfFrameCleanupStyles, from the first entry to the last. */
    method CleanupAll(ghost a0: map<nat, ElementStyle>, ghost s0: map<nat, StoreState>, created: set<nat>)
      requires Valid() && Injective(a0) && activeStyles == a0
      requires CleanedUpTo(a0, s0, stylePool, a0.Keys, created)
      modifies this`activeStyles, this`stylePool, a0.Values
      ensures Valid() && CleanedUpTo(a0, s0, old(stylePool), {}, created)
    {
      var todo := activeStyles.Keys;
      while todo != {}
        invariant Valid() && todo <= a0.Keys
        invariant CleanedUpTo(a0, s0, old(stylePool), todo, created)
        decreases todo
      {
        var id :| id in todo;
        CleanupStep(a0, s0, old(stylePool), todo, id, created);
        todo := todo - {id};
      }
    }

    /** The loop state of EndOfFrameCleanupStyles: the entries not in `todo` are handled. */
    ghost predicate CleanedUpTo(a0: map<nat, ElementStyle>, s0: map<nat, StoreState>, pool0: set<ElementStyle>,
                                todo: set<nat>, created: set<nat>)
      reads this, a0.Values
    {
      a0.Keys == s0.Keys && todo <= a0.Keys &&
      activeStyles == a0 - ((a0.Keys - todo) - created) &&
      stylePool == pool0 + Dropped(a0 - todo, created) &&
      (forall id :: id in a0 ==> Inv(s0[id]) && a0[id].State() == Cleaned(s0[id], id in todo, id in created))
    }

    /** One iteration: CleanupOne on an entry not handled yet. */
    method CleanupStep(ghost a0: map<nat, ElementStyle>, ghost s0: map<nat, StoreState>, ghost pool0: set<ElementStyle>,
                       ghost todo: set<nat>, id: nat, created: set<nat>)
      requires Valid() && Injective(a0) && id in todo
      requires CleanedUpTo(a0, s0, pool0, todo, created)
      modifies this`activeStyles, this`stylePool, a0[id]
      ensures Valid() && CleanedUpTo(a0, s0, pool0, todo - {id}, created)
    {
      assert activeStyles[id] == a0[id];
      CleanupOne(id, created);
      RemainingStep(a0, todo, created, id);
      DroppedStep(a0, todo, created, id);
      forall k | k in a0
        ensures a0[k].State() == Cleaned(s0[k], k in todo - {id}, k in created)
      {
        if k != id {
          assert a0[k] != a0[id];
        }
      }
    }

    /** One entry of that enumeration. */
    method CleanupOne(id: nat, created: set<nat>)
      requires Valid() && id in activeStyles
      modifies this`activeStyles, this`stylePool, activeStyles[id]
      ensures Valid()
      ensures var st := old(activeStyles[id]);
        if id in created then
          activeStyles == old(activeStyles) && stylePool == old(stylePool) &&
          st.State() == StoreSpec.EndOfFrame(old(st.State()))
        else
          activeStyles == old(activeStyles) - {id} && stylePool == old(stylePool) + {st} &&
          st.State() == StoreSpec.ReturnToPool(old(st.State()))
    {
      var st := activeStyles[id];
      if id !in created {
        st.ReturnToPool();
        stylePool := stylePool + {st};
        activeStyles := activeStyles - {id};
      } else {
        st.EndOfFrame();
      }
    }

    /** EndOfFramePoolCleanup: the style counter is recorded and both counters restart. */
    method EndOfFramePoolCleanup()
      requires Valid()
      modifies this`stylesLastFrame, this`currentBuilderIndex, this`currentStyleIndex
      ensures Valid()
      ensures stylesLastFrame == old(currentStyleIndex) && currentBuilderIndex == 0 && currentStyleIndex == 0
      ensures stylesLastFrame == 0
    {
      stylesLastFrame := currentStyleIndex;
      currentBuilderIndex := 0;
      currentStyleIndex := 0;
    }

    // -------------------------------------------------------------------------
    // Style templates

    /** DefineStyle(name): a new, empty template, registered under the name (replacing any). */
    method DefineStyle(name: string) returns (template: StyleTemplate)
      modifies this`templates
      ensures fresh(template) && template.inherited == []
      ensures templates == old(templates)[name := template]
      ensures TryGetStyle(name) == (true, template)
    {
      template := new StyleTemplate();
      templates := templates[name := template];
    }

    /**
     * DefineStyle(name, inheritFrom): a new template to which every parent
     * is applied in argument order, then registered under the name. The
     * first parent that is not registered raises the ArgumentException (a
     * registered null one the NullReferenceException) and nothing is
     * registered.
     */
    method DefineStyleInheriting(name: string, inheritFrom: seq<string>) returns (r: Result<StyleTemplate, TemplateError>)
      modifies this`templates
      ensures r.Failure? <==> FirstUnusable(old(templates), inheritFrom).Some?
      ensures r.Failure? ==> r.error == FirstUnusable(old(templates), inheritFrom).value && templates == old(templates)
      ensures r.Success? ==>
        fresh(r.value) && r.value.inherited == Parents(old(templates), inheritFrom) &&
        templates == old(templates)[name := r.value]
    {
      var template := new StyleTemplate();
      for i := 0 to |inheritFrom|
        invariant fresh(template) && templates == old(templates)
        invariant FirstUnusable(templates, inheritFrom[..i]).None?
        invariant template.inherited == Parents(templates, inheritFrom[..i])
      {
        var parent := inheritFrom[i];
        assert inheritFrom[..i + 1] == inheritFrom[..i] + [parent];
        FirstUnusableAppend(templates, inheritFrom[..i], [parent]);
        var (found, parentTemplate) := TryGetStyle(parent);
        if !found || parentTemplate == null {
          assert inheritFrom == inheritFrom[..i] + inheritFrom[i..];
          FirstUnusableAppend(templates, inheritFrom[..i], inheritFrom[i..]);
          r := Failure(if found then NullTemplate(parent) else MissingParent(parent));
          return;
        }
        parentTemplate.ApplyTo(template);
      }
      assert inheritFrom[..|inheritFrom|] == inheritFrom;
      templates := templates[name := template];
      r := Success(template);
    }

    /** RegisterStyle: the name now holds the template (null included). */
    method RegisterStyle(name: string, template: StyleTemplate?)
      modifies this`templates
      ensures templates == old(templates)[name := template]
      ensures TryGetStyle(name) == (true, template)
    {
      templates := templates[name := template];
    }

    /** TryGetStyle: whether the name is registered, and its template (null when it is not). */
    function TryGetStyle(name: string): (r: (bool, StyleTemplate?))
      reads this
      ensures r.0 <==> name in templates
      ensures r.0 ==> r.1 == templates[name]
      ensures !r.0 ==> r.1 == null
    {
      if name in templates then (true, templates[name]) else (false, null)
    }

    /**
     * ApplyStyleWithStates: the base template, then the overlay of each
     * pseudo-state that holds, in the order hovered, focused, active. A name
     * that is not registered is skipped; a registered null template raises
     * the NullReferenceException, after the templates applied before it.
     */
    method ApplyStyleWithStates(baseName: string, isHovered: bool, isFocused: bool, isActive: bool)
      returns (applied: seq<StyleTemplate>, err: Option<TemplateError>)
      ensures Applied(applied, err) == ApplyAll(templates, LookedUp(baseName, isHovered, isFocused, isActive))
    {
      var pseudoStates := PseudoStates(isHovered, isFocused, isActive);
      ApplyAllCons(templates, baseName, StateNames(baseName, pseudoStates));
      applied, err := [], None;
      var (found, baseStyle) := TryGetStyle(baseName);
      if found {
        if baseStyle == null {
          err := Some(NullTemplate(baseName));
          return;
        }
        applied := [baseStyle];
      }
      for i := 0 to |pseudoStates|
        invariant ApplyAll(templates, LookedUp(baseName, isHovered, isFocused, isActive)) ==
          After(applied, ApplyAll(templates, StateNames(baseName, pseudoStates[i..])))
        invariant err == None
      {
        var (state, isOn) := pseudoStates[i];
        StateNamesStep(baseName, pseudoStates, i);
        ghost var rest := StateNames(baseName, pseudoStates[i + 1..]);
        if isOn {
          var pseudoStyleName := OverlayName(baseName, state);
          ApplyAllCons(templates, pseudoStyleName, rest);
          var (foundState, pseudoStyle) := TryGetStyle(pseudoStyleName);
          if foundState {
            if pseudoStyle == null {
              err := Some(NullTemplate(pseudoStyleName));
              return;
            }
            AfterAfter(applied, [pseudoStyle], ApplyAll(templates, rest));
            applied := applied + [pseudoStyle];
          }
        } else {
          assert [] + rest == rest;
        }
      }
      assert pseudoStates[|pseudoStates|..] == [];
    }

    /** RegisterStyleFamily: the base under its name (even null), each given overlay under "{baseName}:{state}". */
    method RegisterStyleFamily(baseName: string, baseStyle: StyleTemplate?, normalStyle: StyleTemplate?,
                               hoveredStyle: StyleTemplate?, focusedStyle: StyleTemplate?, activeStyle: StyleTemplate?)
      modifies this`templates
      ensures templates == FamilyTable(old(templates), baseName, baseStyle, normalStyle, hoveredStyle, focusedStyle, activeStyle)
    {
      RegisterStyle(baseName, baseStyle);
      if normalStyle != null {
        RegisterStyle(OverlayName(baseName, "normal"), normalStyle);
      }
      if hoveredStyle != null {
        RegisterStyle(OverlayName(baseName, "hovered"), hoveredStyle);
      }
      if focusedStyle != null {
        RegisterStyle(OverlayName(baseName, "focused"), focusedStyle);
      }
      if activeStyle != null {
        RegisterStyle(OverlayName(baseName, "active"), activeStyle);
      }
    }

    /** CreateStyleFamily: a builder for the family, with nothing set yet. */
    method CreateStyleFamily(baseName: string) returns (builder: StyleFamilyBuilder)
      ensures fresh(builder) && builder.paper == this && builder.baseName == baseName
      ensures builder.baseStyle == null && builder.normalStyle == null && builder.hoveredStyle == null
      ensures builder.focusedStyle == null && builder.activeStyle == null
    {
      builder := new StyleFamilyBuilder(this, baseName);
    }
  }

  /** Paper.StyleFamilyBuilder: collects the templates of a family, then registers them together. */
  class StyleFamilyBuilder {
    const baseName: string
    const paper: Paper
    var activeStyle: StyleTemplate?
    var baseStyle: StyleTemplate?
    var focusedStyle: StyleTemplate?
    var hoveredStyle: StyleTemplate?
    var normalStyle: StyleTemplate?

    constructor(paper: Paper, baseName: string)
      ensures this.paper == paper && this.baseName == baseName
      ensures baseStyle == null && normalStyle == null && hoveredStyle == null
      ensures focusedStyle == null && activeStyle == null
    {
      this.paper := paper;
      this.baseName := baseName;
      activeStyle := null;
      baseStyle := null;
      focusedStyle := null;
      hoveredStyle := null;
      normalStyle := null;
    }

    method Base(style: StyleTemplate?) returns (builder: StyleFamilyBuilder)
      modifies this`baseStyle
      ensures builder == this && baseStyle == style
    {
      baseStyle := style;
      builder := this;
    }

    method Normal(style: StyleTemplate?) returns (builder: StyleFamilyBuilder)
      modifies this`normalStyle
      ensures builder == this && normalStyle == style
    {
      normalStyle := style;
      builder := this;
    }

    method Hovered(style: StyleTemplate?) returns (builder: StyleFamilyBuilder)
      modifies this`hoveredStyle
      ensures builder == this && hoveredStyle == style
    {
      hoveredStyle := style;
      builder := this;
    }

    method Focused(style: StyleTemplate?) returns (builder: StyleFamilyBuilder)
      modifies this`focusedStyle
      ensures builder == this && focusedStyle == style
    {
      focusedStyle := style;
      builder := this;
    }

    method Active(style: StyleTemplate?) returns (builder: StyleFamilyBuilder)
      modifies this`activeStyle
      ensures builder == this && activeStyle == style
    {
      activeStyle := style;
      builder := this;
    }

    /** Register: RegisterStyleFamily with what was collected (an unset base registers null). */
    method Register()
      modifies paper`templates
      ensures paper.templates ==
        FamilyTable(old(paper.templates), baseName, baseStyle, normalStyle, hoveredStyle, focusedStyle, activeStyle)
    {
      paper.RegisterStyleFamily(baseName, baseStyle, normalStyle, hoveredStyle, focusedStyle, activeStyle);
    }
  }
}
