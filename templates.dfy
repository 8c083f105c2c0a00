/**
 * The style-template table of class Paper (Paper/Paper.Styles.cs, region
 * Style Templates): named templates, inheritance by name, pseudo-state
 * overlays ("button:hovered") and style families.
 *
 * StyleTemplate's own code is not part of this model. A template is an
 * object whose only observable state here is the sequence of templates
 * that were applied to it with ApplyTo, in order. Applying a template to an
 * element is not modelled: ApplyStyleWithStates reports the templates it
 * applies, in order. The table maps a name to a template reference, which
 * may be null (RegisterStyle and RegisterStyleFamily accept null).
 */
module StyleTemplates {
  import opened Wrappers

  class StyleTemplate {
    /** The templates applied to this one with ApplyTo, oldest first. */
    var inherited: seq<StyleTemplate>

    constructor()
      ensures inherited == []
    {
      inherited := [];
    }

    /** StyleTemplate.ApplyTo(StyleTemplate): the target records this template as applied last. */
    method ApplyTo(target: StyleTemplate)
      modifies target
      ensures target.inherited == old(target.inherited) + [this]
    {
      target.inherited := target.inherited + [this];
    }
  }

  /** _styleTemplates: name to template. */
  type Table = map<string, StyleTemplate?>

  datatype TemplateError =
    /** ArgumentException: a parent named in DefineStyle is not registered (yet). */
    | MissingParent(name: string)
    /** NullReferenceException: the name is registered, with a null template. */
    | NullTemplate(name: string)

  /** A name DefineStyle can inherit from: registered, with a template. */
  predicate Usable(table: Table, name: string) {
    name in table && table[name] != null
  }

  /** The exception DefineStyle's loop raises at a name that is not usable. */
  function Unusable(table: Table, name: string): TemplateError {
    if name in table then NullTemplate(name) else MissingParent(name)
  }

  /** The exception DefineStyle raises for these parents, if any: the one of the first parent that is not usable. */
  function FirstUnusable(table: Table, parents: seq<string>): (r: Option<TemplateError>)
    ensures r.None? <==> forall i :: 0 <= i < |parents| ==> Usable(table, parents[i])
    ensures r.Some? ==> exists i :: (0 <= i < |parents| && !Usable(table, parents[i]) &&
                                     r.value == Unusable(table, parents[i]) &&
                                     forall j :: 0 <= j < i ==> Usable(table, parents[j]))
  {
    if parents == [] then None
    else if !Usable(table, parents[0]) then Some(Unusable(table, parents[0]))
    else
      var r := FirstUnusable(table, parents[1..]);
      assert forall i :: 1 <= i < |parents| ==> parents[i] == parents[1..][i - 1];
      r
  }

  /** The first unusable parent of a concatenation is found in the first part when there is one. */
  lemma {:induction false} FirstUnusableAppend(table: Table, xs: seq<string>, ys: seq<string>)
    ensures FirstUnusable(table, xs + ys) ==
      if FirstUnusable(table, xs).Some? then FirstUnusable(table, xs) else FirstUnusable(table, ys)
  {
    if xs == [] {
      assert xs + ys == ys;
    } else {
      assert (xs + ys)[0] == xs[0];
      assert (xs + ys)[1..] == xs[1..] + ys;
      FirstUnusableAppend(table, xs[1..], ys);
    }
  }

  /** The templates of a list of usable parents, in order. */
  function Parents(table: Table, parents: seq<string>): (r: seq<StyleTemplate>)
    requires forall i :: 0 <= i < |parents| ==> parents[i] in table && table[parents[i]] != null
    ensures |r| == |parents|
    ensures forall i :: 0 <= i < |parents| ==> r[i] == table[parents[i]]
  {
    if parents == [] then []
    else
      var first: StyleTemplate := table[parents[0]];
      [first] + Parents(table, parents[1..])
  }

  /** The pseudo-states ApplyStyleWithStates visits, in order, each with whether it holds. */
  function PseudoStates(hovered: bool, focused: bool, active: bool): seq<(string, bool)> {
    [("hovered", hovered), ("focused", focused), ("active", active)]
  }

  /** The overlay name of a pseudo-state: "{baseName}:{state}". */
  function OverlayName(baseName: string, state: string): string {
    baseName + ":" + state
  }

  /** The overlay names of the states that hold, in order. */
  function StateNames(baseName: string, states: seq<(string, bool)>): (r: seq<string>)
    ensures |r| <= |states|
    ensures forall n :: n in r <==> exists i :: 0 <= i < |states| && states[i].1 && n == OverlayName(baseName, states[i].0)
  {
    if states == [] then []
    else
      var rest := StateNames(baseName, states[1..]);
      assert forall i :: 1 <= i < |states| ==> states[i] == states[1..][i - 1];
      (if states[0].1 then [OverlayName(baseName, states[0].0)] else []) + rest
  }

  /** The names ApplyStyleWithStates looks up, in order: the base, then the overlays of the states that hold. */
  function LookedUp(baseName: string, hovered: bool, focused: bool, active: bool): seq<string> {
    [baseName] + StateNames(baseName, PseudoStates(hovered, focused, active))
  }

  /** Overlay names of different pseudo-states differ, and differ from the base name. */
  lemma OverlayNamesDistinct(b: string)
    ensures OverlayName(b, "hovered") != b && OverlayName(b, "focused") != b
    ensures OverlayName(b, "active") != b && OverlayName(b, "normal") != b
    ensures OverlayName(b, "hovered") != OverlayName(b, "focused")
    ensures OverlayName(b, "hovered") != OverlayName(b, "active")
    ensures OverlayName(b, "hovered") != OverlayName(b, "normal")
    ensures OverlayName(b, "focused") != OverlayName(b, "active")
    ensures OverlayName(b, "focused") != OverlayName(b, "normal")
    ensures OverlayName(b, "active") != OverlayName(b, "normal")
  {
    assert OverlayName(b, "hovered")[|b| + 1] == 'h';
    assert OverlayName(b, "focused")[|b| + 1] == 'f';
    assert OverlayName(b, "active")[|b| + 1] == 'a';
    assert OverlayName(b, "normal")[|b| + 1] == 'n';
  }

  /**
   * The looked-up names, written out: the base first, then hovered, focused
   * and active in that order, each only when it holds; the ":normal" overlay
   * is never looked up.
   */
  lemma LookedUpOrder(b: string, hovered: bool, focused: bool, active: bool)
    ensures LookedUp(b, hovered, focused, active) ==
      [b] + (if hovered then [OverlayName(b, "hovered")] else [])
          + (if focused then [OverlayName(b, "focused")] else [])
          + (if active then [OverlayName(b, "active")] else [])
    ensures OverlayName(b, "normal") !in LookedUp(b, hovered, focused, active)
  {
    var s := PseudoStates(hovered, focused, active);
    assert s[1..] == [("focused", focused), ("active", active)];
    assert s[1..][1..] == [("active", active)];
    assert s[1..][1..][1..] == [];
    assert StateNames(b, s[1..][1..]) == if active then [OverlayName(b, "active")] else [];
    assert StateNames(b, s[1..]) == (if focused then [OverlayName(b, "focused")] else []) + StateNames(b, s[1..][1..]);
    assert StateNames(b, s) == (if hovered then [OverlayName(b, "hovered")] else []) + StateNames(b, s[1..]);
    OverlayNamesDistinct(b);
  }

  /** What applying a list of names does: the templates applied, in order, and the exception that stopped it, if any. */
  datatype Applied = Applied(templates: seq<StyleTemplate>, err: Option<TemplateError>)

  /** `done` applied first, then the outcome `r`. */
  function After(done: seq<StyleTemplate>, r: Applied): Applied {
    Applied(done + r.templates, r.err)
  }

  lemma AfterAfter(a: seq<StyleTemplate>, b: seq<StyleTemplate>, r: Applied)
    ensures After(a, After(b, r)) == After(a + b, r)
  {
    assert a + (b + r.templates) == (a + b) + r.templates;
  }

  /**
   * Looking up each name in turn and applying the template found: an
   * unregistered name is skipped, a null template raises the
   * NullReferenceException and ends the walk.
   */
  function ApplyAll(table: Table, names: seq<string>): (r: Applied)
    ensures r.err.None? <==> forall i :: 0 <= i < |names| && names[i] in table ==> table[names[i]] != null
    ensures r.err.Some? ==> exists i :: (0 <= i < |names| && names[i] in table && table[names[i]] == null &&
                                         r.err.value == NullTemplate(names[i]))
    ensures forall t :: t in r.templates ==> exists i :: 0 <= i < |names| && names[i] in table && table[names[i]] == t
    ensures |r.templates| <= |names|
  {
    if names == [] then Applied([], None)
    else
      assert forall i :: 1 <= i < |names| ==> names[i] == names[1..][i - 1];
      if names[0] !in table then ApplyAll(table, names[1..])
      else if table[names[0]] == null then Applied([], Some(NullTemplate(names[0])))
      else After([table[names[0]]], ApplyAll(table, names[1..]))
  }

  /** The first name of a list, looked up and applied before the rest. */
  lemma ApplyAllCons(table: Table, n: string, rest: seq<string>)
    ensures ApplyAll(table, [n] + rest) ==
      if n !in table then ApplyAll(table, rest)
      else if table[n] == null then Applied([], Some(NullTemplate(n)))
      else After([table[n]], ApplyAll(table, rest))
  {
    assert ([n] + rest)[1..] == rest;
  }

  /** The overlay names from the i-th state on: its own (when it holds), then the rest. */
  lemma StateNamesStep(b: string, states: seq<(string, bool)>, i: nat)
    requires i < |states|
    ensures StateNames(b, states[i..]) ==
      (if states[i].1 then [OverlayName(b, states[i].0)] else []) + StateNames(b, states[i + 1..])
  {
    assert states[i..][1..] == states[i + 1..];
  }

  /** Applying two lists of names is applying the first, then (unless it raised) the second. */
  lemma {:induction false} ApplyAllAppend(table: Table, xs: seq<string>, ys: seq<string>)
    ensures ApplyAll(table, xs + ys) ==
      if ApplyAll(table, xs).err.Some? then ApplyAll(table, xs)
      else After(ApplyAll(table, xs).templates, ApplyAll(table, ys))
  {
    if xs == [] {
      assert xs + ys == ys;
    } else {
      assert (xs + ys)[0] == xs[0];
      assert (xs + ys)[1..] == xs[1..] + ys;
      ApplyAllAppend(table, xs[1..], ys);
    }
  }

  /** RegisterStyleFamily: the base always, each overlay only when given. */
  function FamilyTable(table: Table, b: string, base: StyleTemplate?, normal: StyleTemplate?,
                       hovered: StyleTemplate?, focused: StyleTemplate?, active: StyleTemplate?): (r: Table)
    ensures r.Keys == table.Keys + {b} +
      (if normal != null then {OverlayName(b, "normal")} else {}) +
      (if hovered != null then {OverlayName(b, "hovered")} else {}) +
      (if focused != null then {OverlayName(b, "focused")} else {}) +
      (if active != null then {OverlayName(b, "active")} else {})
  {
    var t0 := table[b := base];
    var t1 := if normal != null then t0[OverlayName(b, "normal") := normal] else t0;
    var t2 := if hovered != null then t1[OverlayName(b, "hovered") := hovered] else t1;
    var t3 := if focused != null then t2[OverlayName(b, "focused") := focused] else t2;
    if active != null then t3[OverlayName(b, "active") := active] else t3
  }

  /** After RegisterStyleFamily each family name holds what was given (or what it held before), and no other name changes. */
  lemma FamilyLookup(table: Table, b: string, base: StyleTemplate?, normal: StyleTemplate?,
                     hovered: StyleTemplate?, focused: StyleTemplate?, active: StyleTemplate?)
    ensures var r := FamilyTable(table, b, base, normal, hovered, focused, active);
      r[b] == base &&
      (normal != null ==> r[OverlayName(b, "normal")] == normal) &&
      (hovered != null ==> r[OverlayName(b, "hovered")] == hovered) &&
      (focused != null ==> r[OverlayName(b, "focused")] == focused) &&
      (active != null ==> r[OverlayName(b, "active")] == active) &&
      (forall n :: (n in table && n != b && n != OverlayName(b, "normal") && n != OverlayName(b, "hovered") &&
                    n != OverlayName(b, "focused") && n != OverlayName(b, "active")) ==> r[n] == table[n])
  {
    OverlayNamesDistinct(b);
  }

  /** A name that is registered with a template, looked up or not. */
  lemma ApplyOptional(table: Table, n: string, t: StyleTemplate, present: bool)
    requires n in table && table[n] == t
    ensures ApplyAll(table, if present then [n] else []) == Applied(if present then [t] else [], None)
  {
    if present {
      assert [n][1..] == [];
    }
  }

  /**
   * A complete family, applied with ApplyStyleWithStates: the base, then
   * the overlays of the states that hold in the order hovered, focused,
   * active; never the normal overlay.
   */
  lemma FamilyApplied(table: Table, b: string, base: StyleTemplate, normal: StyleTemplate,
                      hovered: StyleTemplate, focused: StyleTemplate, active: StyleTemplate,
                      isHovered: bool, isFocused: bool, isActive: bool)
    ensures ApplyAll(FamilyTable(table, b, base, normal, hovered, focused, active), LookedUp(b, isHovered, isFocused, isActive)) ==
      Applied([base] + (if isHovered then [hovered] else []) + (if isFocused then [focused] else [])
                     + (if isActive then [active] else []), None)
  {
    var r := FamilyTable(table, b, base, normal, hovered, focused, active);
    FamilyLookup(table, b, base, normal, hovered, focused, active);
    LookedUpOrder(b, isHovered, isFocused, isActive);
    var h := if isHovered then [OverlayName(b, "hovered")] else [];
    var f := if isFocused then [OverlayName(b, "focused")] else [];
    var a := if isActive then [OverlayName(b, "active")] else [];
    ApplyOptional(r, b, base, true);
    ApplyOptional(r, OverlayName(b, "hovered"), hovered, isHovered);
    ApplyOptional(r, OverlayName(b, "focused"), focused, isFocused);
    ApplyOptional(r, OverlayName(b, "active"), active, isActive);
    ApplyAllAppend(r, [b], h);
    ApplyAllAppend(r, [b] + h, f);
    ApplyAllAppend(r, [b] + h + f, a);
  }
}
