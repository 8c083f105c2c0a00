/**
 * Theme palettes of the shared sample extensions
 * (Samples/Shared/Extensions/Settings/Themes/ThemePalette.cs): a palette's
 * colours, the shared tables SetAsActiveTheme fills from them, and the
 * shaded lookups over those tables.
 *
 * The tables and the dark-mode flag are static in the source, so they are
 * one ThemeTables object that every palette writes. The WCAG text-colour
 * choice (ThemeUtils.UseBlackText) and the colour blend
 * (ThemeUtils.LerpColor) are floating-point code outside this model and are
 * passed in as functions; float roundings and percentages are reals.
 */
module ThemePalettes {
  import opened Wrappers
  import opened StyleValues

  datatype ElementColor =
    | LIGHT | PRIMARY | SECONDARY | SUCCESS | INFO | WARNING | DANGER | DARK
    | TRANSPARENT | WHITE | BLACK | CONTRAST | COUNT

  datatype ColorShades = SHADE_LIGHT | SHADE_DARK | SHADE_NORMAL | COUNT

  /** A missing dictionary key (KeyNotFoundException). */
  datatype ThemeError =
    | MissingColor(color: ElementColor)
    | MissingShade(shade: ColorShades)

  /** _shadePctMap: the blend amount of each shade; COUNT has none. */
  const ShadePctMap: map<ColorShades, real> :=
    map[SHADE_LIGHT := 0.25, SHADE_DARK := 0.75, SHADE_NORMAL := 0.25]

  /** The keys SetAsActiveTheme writes: every colour but INFO and COUNT. */
  const AssignedColors: set<ElementColor> :=
    {LIGHT, DARK, SECONDARY, SUCCESS, WARNING, DANGER, PRIMARY, CONTRAST, TRANSPARENT, WHITE, BLACK}

  /** The colour properties of a palette that SetAsActiveTheme reads. */
  datatype PaletteColors = PaletteColors(
    light: Color, dark: Color, primary: Color, secondary: Color,
    success: Color, warning: Color, danger: Color)

  /** ARGB(0, 0, 0, 0), which SetAsActiveTheme stores for TRANSPARENT. */
  const ClearColor := Color(0, 0, 0, 0)

  /** The element table after SetAsActiveTheme, whatever it held before. */
  function ActiveElementMap(p: PaletteColors, darkMode: bool): (m: map<ElementColor, Color>)
    ensures m.Keys == AssignedColors && INFO !in m && ElementColor.COUNT !in m
    ensures m[LIGHT] == p.light && m[DARK] == p.dark && m[PRIMARY] == p.primary
    ensures m[SECONDARY] == p.secondary && m[SUCCESS] == p.success
    ensures m[WARNING] == p.warning && m[DANGER] == p.danger
    ensures m[CONTRAST] == (if darkMode then p.light else p.dark)
    ensures m[TRANSPARENT] == ClearColor && m[WHITE] == White && m[BLACK] == Black
  {
    map[LIGHT := p.light, DARK := p.dark, SECONDARY := p.secondary, SUCCESS := p.success,
        WARNING := p.warning, DANGER := p.danger, PRIMARY := p.primary,
        CONTRAST := if darkMode then p.light else p.dark,
        TRANSPARENT := ClearColor, WHITE := White, BLACK := Black]
  }

  /** The eleven writes of SetAsActiveTheme, in source order, replace every key a table written by them can hold. */
  lemma ActiveOverwrites(m0: map<ElementColor, Color>, p: PaletteColors, darkMode: bool)
    requires m0.Keys <= AssignedColors
    ensures m0[LIGHT := p.light][DARK := p.dark][SECONDARY := p.secondary][SUCCESS := p.success]
      [WARNING := p.warning][DANGER := p.danger][PRIMARY := p.primary]
      [CONTRAST := if darkMode then p.light else p.dark]
      [TRANSPARENT := ClearColor][WHITE := White][BLACK := Black]
      == ActiveElementMap(p, darkMode)
  {
  }

  /** The text table: for each element colour, DARK on light backgrounds and LIGHT otherwise. */
  function TextMap(m: map<ElementColor, Color>, useBlackText: Color -> bool): (t: map<ElementColor, Color>)
    requires LIGHT in m && DARK in m
    ensures t.Keys == m.Keys
    ensures forall k :: k in t ==> (t[k] == m[DARK] <== useBlackText(m[k])) && (t[k] == m[LIGHT] <== !useBlackText(m[k]))
  {
    map k | k in m :: if useBlackText(m[k]) then m[DARK] else m[LIGHT]
  }

  /**
   * GetShadedColor / GetShadedTextColor over table m: the entry itself for
   * SHADE_NORMAL, otherwise the entry blended toward the LIGHT (SHADE_LIGHT)
   * or DARK (other shades) entry by the shade's percentage. The keys are
   * looked up in argument order: the colour, the target, the percentage.
   */
  function Shaded(m: map<ElementColor, Color>, color: ElementColor, shade: ColorShades,
                  lerp: (Color, Color, real) -> Color): (r: Result<Color, ThemeError>)
    ensures r.Success? <==> (color in m &&
      (shade != SHADE_NORMAL ==> ShadeTarget(shade) in m && shade in ShadePctMap))
    ensures color !in m ==> r == Failure(MissingColor(color))
    ensures shade == SHADE_NORMAL && color in m ==> r == Success(m[color])
  {
    if shade == SHADE_NORMAL then
      if color in m then Success(m[color]) else Failure(MissingColor(color))
    else if color !in m then Failure(MissingColor(color))
    else if ShadeTarget(shade) !in m then Failure(MissingColor(ShadeTarget(shade)))
    else if shade !in ShadePctMap then Failure(MissingShade(shade))
    else Success(lerp(m[color], m[ShadeTarget(shade)], ShadePctMap[shade]))
  }

  function ShadeTarget(shade: ColorShades): ElementColor {
    if shade == SHADE_LIGHT then LIGHT else DARK
  }

  /** SHADE_LIGHT blends a quarter of the way toward LIGHT, SHADE_DARK three quarters toward DARK. */
  lemma ShadeBlends(m: map<ElementColor, Color>, color: ElementColor, lerp: (Color, Color, real) -> Color)
    requires color in m && LIGHT in m && DARK in m
    ensures Shaded(m, color, SHADE_LIGHT, lerp) == Success(lerp(m[color], m[LIGHT], 0.25))
    ensures Shaded(m, color, SHADE_DARK, lerp) == Success(lerp(m[color], m[DARK], 0.75))
    ensures Shaded(m, color, ColorShades.COUNT, lerp) == Failure(MissingShade(ColorShades.COUNT))
  {
  }

  /** The shared tables and dark-mode flag (the static fields of ThemePalette). */
  class ThemeTables {
    var darkMode: bool
    var elementColorMap: map<ElementColor, Color>
    var textColorMap: map<ElementColor, Color>

    /** The static initialisers: dark mode on, both tables empty. */
    constructor()
      ensures Valid() && darkMode && elementColorMap == map[] && textColorMap == map[]
    {
      darkMode := true;
      elementColorMap := map[];
      textColorMap := map[];
    }

    /** Only SetAsActiveTheme writes the tables, and it writes the text table from the element table. */
    ghost predicate Valid()
      reads this
    {
      && elementColorMap.Keys <= AssignedColors
      && textColorMap.Keys <= elementColorMap.Keys
    }

    /** GetShadedColor. INFO is never stored, so looking it up fails for every shade. */
    function GetShadedColor(color: ElementColor, shade: ColorShades,
                            lerp: (Color, Color, real) -> Color): (r: Result<Color, ThemeError>)
      reads this
      ensures Valid() && color == INFO ==> r == Failure(MissingColor(INFO))
      ensures shade == SHADE_NORMAL && color in elementColorMap ==> r == Success(elementColorMap[color])
    {
      Shaded(elementColorMap, color, shade, lerp)
    }

    /** GetShadedTextColor: the same lookup over the text table. */
    function GetShadedTextColor(color: ElementColor, shade: ColorShades,
                                lerp: (Color, Color, real) -> Color): (r: Result<Color, ThemeError>)
      reads this
      ensures Valid() && color == INFO ==> r == Failure(MissingColor(INFO))
      ensures shade == SHADE_NORMAL && color in textColorMap ==> r == Success(textColorMap[color])
    {
      Shaded(textColorMap, color, shade, lerp)
    }

    /** GetBgColor: the shade argument is ignored; the unshaded DARK entry in dark mode, else LIGHT. */
    function GetBgColor(shade: ColorShades, lerp: (Color, Color, real) -> Color): (r: Result<Color, ThemeError>)
      reads this
      ensures var key := if darkMode then DARK else LIGHT;
        (r.Success? <==> key in elementColorMap) && (r.Success? ==> r.value == elementColorMap[key])
    {
      GetShadedColor(if darkMode then DARK else LIGHT, SHADE_NORMAL, lerp)
    }

    /** GetBgTextColor: unlike GetBgColor, the shade is passed on. */
    function GetBgTextColor(shade: ColorShades, lerp: (Color, Color, real) -> Color): (r: Result<Color, ThemeError>)
      reads this
      ensures var key := if darkMode then DARK else LIGHT;
        r.Success? <==> (key in textColorMap &&
          (shade != SHADE_NORMAL ==> ShadeTarget(shade) in textColorMap && shade in ShadePctMap))
    {
      GetShadedTextColor(if darkMode then DARK else LIGHT, shade, lerp)
    }

    /** The foreach of SetAsActiveTheme over the element table, writing the text table. */
    method FillTextColors(useBlackText: Color -> bool)
      requires LIGHT in elementColorMap && DARK in elementColorMap
      requires textColorMap.Keys <= elementColorMap.Keys
      modifies this`textColorMap
      ensures textColorMap == TextMap(elementColorMap, useBlackText)
    {
      ghost var text0 := textColorMap;
      var todo := elementColorMap.Keys;
      while todo != {}
        invariant todo <= elementColorMap.Keys
        invariant textColorMap.Keys == text0.Keys + (elementColorMap.Keys - todo)
        invariant forall k :: k in textColorMap && k !in todo ==>
          textColorMap[k] == TextMap(elementColorMap, useBlackText)[k]
        decreases todo
      {
        var k :| k in todo;
        var useBlack := useBlackText(elementColorMap[k]);
        textColorMap := textColorMap[k := if useBlack then elementColorMap[DARK] else elementColorMap[LIGHT]];
        todo := todo - {k};
      }
    }
  }

  /** A theme palette: its colour and rounding properties. */
  class ThemePalette {
    var lightColor: Color
    var darkColor: Color
    var primaryColor: Color
    var secondaryColor: Color
    var infoColor: Color
    var successColor: Color
    var warningColor: Color
    var dangerColor: Color
    var windowRounding: real
    var buttonRounding: real

    function Colors(): PaletteColors
      reads this
    {
      PaletteColors(lightColor, darkColor, primaryColor, secondaryColor, successColor, warningColor, dangerColor)
    }

    /** Every property at its default: Color.Empty (all channels 0) and 0. */
    constructor()
      ensures Colors() == PaletteColors(ClearColor, ClearColor, ClearColor, ClearColor, ClearColor, ClearColor, ClearColor)
      ensures infoColor == ClearColor && windowRounding == 0.0 && buttonRounding == 0.0
    {
      lightColor, darkColor, primaryColor, secondaryColor := ClearColor, ClearColor, ClearColor, ClearColor;
      infoColor, successColor, warningColor, dangerColor := ClearColor, ClearColor, ClearColor, ClearColor;
      windowRounding, buttonRounding := 0.0, 0.0;
    }

    /** SetColorPalette: each argument into its property. */
    method SetColorPalette(light: Color, dark: Color, primary: Color, secondary: Color, info: Color,
                           success: Color, warning: Color, danger: Color,
                           windowRounding: real, buttonRounding: real)
      modifies this
      ensures Colors() == PaletteColors(light, dark, primary, secondary, success, warning, danger)
      ensures infoColor == info
      ensures this.windowRounding == windowRounding && this.buttonRounding == buttonRounding
    {
      lightColor := light;
      darkColor := dark;
      primaryColor := primary;
      secondaryColor := secondary;
      infoColor := info;
      successColor := success;
      warningColor := warning;
      dangerColor := danger;
      this.windowRounding := windowRounding;
      this.buttonRounding := buttonRounding;
    }

    /**
     * SetAsActiveTheme: the shared flag and element table from this
     * palette, then the text table from the element table. The result does
     * not depend on what the tables held before, so the palette activated
     * last decides them for every palette.
     */
    method SetAsActiveTheme(tables: ThemeTables, darkMode: bool, useBlackText: Color -> bool)
      requires tables.Valid()
      modifies tables
      ensures tables.Valid()
      ensures tables.darkMode == darkMode
      ensures tables.elementColorMap == ActiveElementMap(Colors(), darkMode)
      ensures tables.textColorMap == TextMap(tables.elementColorMap, useBlackText)
    {
      tables.darkMode := darkMode;
      ActiveOverwrites(tables.elementColorMap, Colors(), darkMode);
      tables.elementColorMap := tables.elementColorMap[LIGHT := lightColor][DARK := darkColor]
        [SECONDARY := secondaryColor][SUCCESS := successColor][WARNING := warningColor]
        [DANGER := dangerColor][PRIMARY := primaryColor]
        [CONTRAST := if tables.darkMode then lightColor else darkColor]
        [TRANSPARENT := ClearColor][WHITE := White][BLACK := Black];
      tables.FillTextColors(useBlackText);
    }
  }

  /**
   * After any palette is activated, every colour but INFO and COUNT can be
   * looked up, each text entry is the DARK or the LIGHT element colour, and
   * INFO fails for every shade.
   */
  lemma ActivatedLookups(p: PaletteColors, darkMode: bool, useBlackText: Color -> bool,
                         lerp: (Color, Color, real) -> Color, color: ElementColor, shade: ColorShades)
    ensures var m := ActiveElementMap(p, darkMode);
      var t := TextMap(m, useBlackText);
      && (color != INFO && color != ElementColor.COUNT && shade != ColorShades.COUNT ==>
            Shaded(m, color, shade, lerp).Success? && Shaded(t, color, shade, lerp).Success?)
      && Shaded(m, INFO, shade, lerp) == Failure(MissingColor(INFO))
      && Shaded(t, INFO, shade, lerp) == Failure(MissingColor(INFO))
      && (color in t ==> t[color] == p.dark || t[color] == p.light)
  {
  }
}
