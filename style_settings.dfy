/**
 * The theme switch of the shared sample extensions
 * (Samples/Shared/Extensions/Settings/Themes/StyleSettings.cs): the active
 * palette, the palettes by type, the style definitions and a dark-mode flag.
 *
 * The static class becomes one object. A style definition's DefineStyle
 * hook is overridable code outside this model: the methods return the calls
 * they make to it, in order. Palette types are named by strings.
 */
module ThemeSettings {
  import opened Wrappers
  import ThemePalettes

  type PaletteType = string

  const DefaultThemeType: PaletteType := "DefaultTheme"

  /**
   * A style definition; only its identity matters to the theme switch. The
   * C# class has no state of its own: `name` only labels the definition so
   * that entries of a DefineCall trace can be told apart.
   */
  class StyleDefinition {
    const name: string

    constructor(name: string)
      ensures this.name == name
    {
      this.name := name;
    }
  }

  /** One call style.DefineStyle(palette, darkMode). */
  datatype DefineCall = DefineCall(style: StyleDefinition, palette: ThemePalettes.ThemePalette?, darkMode: bool)

  datatype SettingsError =
    /** InvalidOperationException: no palette registered for the type. */
    | NoPalette(t: PaletteType)

  /** The static class StyleSettings. */
  class StyleSettings {
    var activePalette: ThemePalettes.ThemePalette?
    var palettes: map<PaletteType, ThemePalettes.ThemePalette>
    var styles: seq<StyleDefinition>
    var darkMode: bool

    /** The static initialisers: no active palette, no palettes, no styles, dark mode on. */
    constructor()
      ensures Valid() && activePalette == null && styles == [] && darkMode
    {
      activePalette := null;
      palettes := map[];
      styles := [];
      darkMode := true;
    }

    /** _palettes is private and no member adds to it, so it stays empty. */
    ghost predicate Valid()
      reads this
    {
      palettes == map[]
    }

    /** DefineTheme: DefineStyle on every style definition, in list order. */
    method DefineTheme(palette: ThemePalettes.ThemePalette?, dark: bool) returns (calls: seq<DefineCall>)
      ensures |calls| == |styles|
      ensures forall i :: 0 <= i < |styles| ==> calls[i] == DefineCall(styles[i], palette, dark)
    {
      calls := [];
      for i := 0 to |styles|
        invariant |calls| == i
        invariant forall j :: 0 <= j < i ==> calls[j] == DefineCall(styles[j], palette, dark)
      {
        calls := calls + [DefineCall(styles[i], palette, dark)];
      }
    }

    /** SetActiveTheme<T>: fails for an unregistered type and changes nothing then. */
    method SetActiveTheme(t: PaletteType) returns (r: Result<seq<DefineCall>, SettingsError>)
      modifies this`activePalette
      ensures r.Failure? <==> t !in palettes
      ensures r.Failure? ==> r.error == NoPalette(t) && activePalette == old(activePalette)
      ensures r.Success? ==> activePalette == palettes[t]
      ensures r.Success? ==> |r.value| == |styles| && forall i :: 0 <= i < |styles| ==>
        r.value[i] == DefineCall(styles[i], palettes[t], darkMode)
    {
      if t !in palettes {
        return Failure(NoPalette(t));
      }
      activePalette := palettes[t];
      var calls := DefineTheme(activePalette, darkMode);
      r := Success(calls);
    }

    /** ToggleDarkMode: the flag flips and the styles are defined again for the active palette, which may be null. */
    method ToggleDarkMode() returns (calls: seq<DefineCall>)
      modifies this`darkMode
      ensures darkMode == !old(darkMode)
      ensures |calls| == |styles| && forall i :: 0 <= i < |styles| ==>
        calls[i] == DefineCall(styles[i], activePalette, darkMode)
    {
      darkMode := !darkMode;
      calls := DefineTheme(activePalette, darkMode);
    }

    /** Initialize activates DefaultTheme, which is never registered, so it always fails. */
    method Initialize() returns (r: Result<seq<DefineCall>, SettingsError>)
      requires Valid()
      modifies this`activePalette
      ensures r == Failure(NoPalette(DefaultThemeType)) && activePalette == old(activePalette)
    {
      r := SetActiveTheme(DefaultThemeType);
    }
  }
}
