/**
 * The web template's theme: the colour token tables of `tokens(mode)` and
 * the settings record of `themeSettings(mode)` (palette, typography,
 * component overrides, breakpoints), one per palette mode.
 */
module Theme {
  import opened Wrappers

  /** A CSS colour or gradient, as written in the tables. */
  type Colour = string

  datatype Mode = Light | Dark

  // ---- Token tables ----

  datatype Greys = Greys(g100: Colour, g200: Colour, g300: Colour, g400: Colour, g500: Colour, g600: Colour, g700: Colour)

  /** Three numbered shades 100, 200, 300. */
  datatype Shades = Shades(s100: Colour, s200: Colour, s300: Colour)

  /** A table with the single shade 100. */
  datatype Swatch = Swatch(s100: Colour)

  datatype Neutral = Neutral(
    n5: Colour, n10: Colour, n15: Colour, n20: Colour, n25: Colour, n30: Colour, n35: Colour,
    n40: Colour, n45: Colour, n50: Colour, n55: Colour, n60: Colour, n65: Colour, n70: Colour,
    n75: Colour, n80: Colour, n85: Colour, n90: Colour, n95: Colour, white: Colour, black: Colour)

  /** The design primary scale; it has no shade 50. */
  datatype DesignPrimary = DesignPrimary(
    base: Colour, d95: Colour, d90: Colour, d85: Colour, d80: Colour, d75: Colour, d70: Colour,
    d65: Colour, d60: Colour, d55: Colour, d45: Colour, d40: Colour, d35: Colour, d30: Colour,
    d25: Colour, d20: Colour, d15: Colour, d10: Colour, d5: Colour)

  /** `base` is the table's `default` entry. */
  datatype DesignSecondary = DesignSecondary(base: Colour, light: Colour, dark: Colour)

  datatype Border = Border(light: Colour, medium: Colour, dark: Colour)

  /** `dark` and `nav` may be unset (undefined). */
  datatype BackgroundTokens = BackgroundTokens(
    main: Colour, mainLight: Colour, dark: Option<Colour>, nav: Option<Colour>,
    primary: Colour, primaryLight: Colour, secondary: Colour, secondaryLight: Colour)

  datatype Navigation = Navigation(
    link: Colour, bg: Colour, hover: Colour, hoverBg: Colour, clicked: Colour, clickedBg: Colour)

  datatype Tokens = Tokens(
    grey: Greys, primary: Shades, secondary: Shades,
    success: Swatch, warning: Swatch, error: Swatch, gradient: Colour,
    neutral: Neutral, designPrimary: DesignPrimary, designSecondary: DesignSecondary,
    text: Shades, border: Border, background: BackgroundTokens, navigation: Navigation)

  // The source writes each mode's table out separately; SharedTables proves them equal.

  function NeutralDark(): Neutral {
    Neutral("#0d0d0d", "#1a1a1a", "#262626", "#333333", "#404040", "#4d4d4d", "#595959",
            "#666666", "#737373", "#808080", "#8c8c8c", "#999999", "#a6a6a6", "#b2b2b2",
            "#bfbfbf", "#cccccc", "#d9d9d9", "#e5e5e5", "#f2f2f2", "#ffffff", "#000000")
  }

  function NeutralLight(): Neutral {
    Neutral("#0d0d0d", "#1a1a1a", "#262626", "#333333", "#404040", "#4d4d4d", "#595959",
            "#666666", "#737373", "#808080", "#8c8c8c", "#999999", "#a6a6a6", "#b2b2b2",
            "#bfbfbf", "#cccccc", "#d9d9d9", "#e5e5e5", "#f2f2f2", "#ffffff", "#000000")
  }

  function DesignPrimaryDark(): DesignPrimary {
    DesignPrimary("#ff7300", "#fcf1e8", "#ffe3cc", "#ffd5b2", "#ffc799", "#ffb980", "#ffab66",
                  "#ff9d4d", "#ff8f33", "#ff811a", "#e56800", "#cc5c00", "#b25100", "#994500",
                  "#803a00", "#662e00", "#4d2300", "#331700", "#1a0c00")
  }

  function DesignPrimaryLight(): DesignPrimary {
    DesignPrimary("#ff7300", "#fcf1e8", "#ffe3cc", "#ffd5b2", "#ffc799", "#ffb980", "#ffab66",
                  "#ff9d4d", "#ff8f33", "#ff811a", "#e56800", "#cc5c00", "#b25100", "#994500",
                  "#803a00", "#662e00", "#4d2300", "#331700", "#1a0c00")
  }

  /** tokens(mode): the whole colour table of one mode. */
  function TokensFor(mode: Mode): Tokens {
    match mode
    case Dark =>
      Tokens(
        grey := Greys("#d1d3d4", "#a8abad", "#7f8285", "#5a5d61", "#444a4e", "#363b40", "#2a2d31"),
        primary := Shades("#d1d3d4", "#555b5f", "#373c40"),
        secondary := Shades("#d1d4d8", "#52585c", "#3d4246"),
        success := Swatch("#4caf50"),
        warning := Swatch("#a89a63"),
        error := Swatch("#fe4336"),
        gradient := "linear-gradient(to bottom, #363b40, #2a2d31)",
        neutral := NeutralDark(),
        designPrimary := DesignPrimaryDark(),
        designSecondary := DesignSecondary("#212a30", "#f3f5f7", "#171a1c"),
        text := Shades("#ffffff", "#ffffffd9", "#ffffff8f"),
        border := Border("#262626", "#404040", "#4d4d4d"),
        background := BackgroundTokens("#1a1a1a", "#121212", Some("#262626"), Some("#212121"),
                                       "#1a1a1a", "#331700", "#0d0d0d", "#171a1c"),
        navigation := Navigation("#ffffff8f", "rgba(255, 115, 0, 0.2)", "#ffffffd9", "#ffffff0a",
                                 "#ffffff", "#ffffff14"))
    case Light =>
      Tokens(
        grey := Greys("#ffffff", "#d1d3d4", "#b1b3b5", "#949698", "#777a7c", "#5a5d61", "#444a4e"),
        primary := Shades("#787d81", "#63696d", "#444a4e"),
        secondary := Shades("#868c90", "#6c7276", "#52585c"),
        success := Swatch("#388e3c"),
        warning := Swatch("#c1ad70"),
        error := Swatch("#fe4336"),
        gradient := "linear-gradient(to bottom, #f1f2f3, #d1d3d4)",
        neutral := NeutralLight(),
        designPrimary := DesignPrimaryLight(),
        designSecondary := DesignSecondary("#212a30", "#f3f5f7", "#171a1c"),
        text := Shades("#000000", "#000000cc", "#0000008f"),
        border := Border("#e5e5e5", "#cccccc", "#d9d9d9"),
        background := BackgroundTokens("#ffffff", "#f7f7f7", None, None,
                                       "#ffffff", "#ffe3cc", "#212a30", "#f3f5f7"),
        navigation := Navigation("#ffffff8f", "rgba(255, 115, 0, 0.2)", "#ffffffd9", "#ffffff0a",
                                 "#ffffff", "#ffffff14"))
  }

  // ---- Theme settings ----

  datatype PaletteColour = PaletteColour(main: Colour, dark: Colour)

  datatype MainColour = MainColour(main: Colour)

  /** `base` is the palette's `default` background. */
  datatype PaletteBackground = PaletteBackground(
    base: Colour, form: Colour, banner: Colour, autocomplete: Colour, dataGrid: Colour,
    layout: Colour, gradient: Colour,
    main: Colour, mainLight: Colour, dark: Option<Colour>, nav: Option<Colour>,
    primary: Colour, primaryLight: Colour, secondary: Colour, secondaryLight: Colour)

  datatype Palette = Palette(
    mode: Mode, primary: PaletteColour, secondary: PaletteColour,
    success: MainColour, warning: MainColour, error: MainColour,
    background: PaletteBackground,
    neutral: Neutral, designPrimary: DesignPrimary, designSecondary: DesignSecondary,
    textTokens: Shades, border: Border, navigation: Navigation)

  /** A heading level: font size in px and, when given, a font weight. */
  datatype Heading = Heading(fontSize: nat, fontWeight: Option<nat>)

  datatype Typography = Typography(
    fontSize: nat, fontFamily: string,
    h1: Heading, h2: Heading, h3: Heading, h4: Heading, h5: Heading, h6: Heading)

  /**
   * A colour value of a style override: a colour as written, or MUI's
   * `alpha(colour, opacity)`, kept symbolic with the opacity in percent.
   */
  datatype CssColour = Plain(colour: Colour) | Alpha(of: Colour, percent: nat)

  datatype DataGridStyle = DataGridStyle(
    columnHeaderBackground: CssColour, columnHeaderWeight: nat, columnHeaderTitleWeight: nat)

  datatype ButtonStyle = ButtonStyle(
    background: Colour, hoverBackground: Colour, fontWeight: string, letterSpacing: string,
    padding: string, borderRadius: string, colour: Colour)

  /** The autofill baseline rule; only the interpolated shadow colour is modelled. */
  datatype BaselineStyle = BaselineStyle(autofillShadow: Colour)

  datatype Components = Components(dataGrid: DataGridStyle, button: ButtonStyle, baseline: BaselineStyle)

  /** Viewport widths in px at which each breakpoint starts. */
  datatype Breakpoints = Breakpoints(xs: nat, sm: nat, md: nat, lg: nat, xl: nat)

  datatype Settings = Settings(palette: Palette, typography: Typography, components: Components, breakpoints: Breakpoints)

  /** themeSettings(mode). */
  function ThemeSettings(mode: Mode): Settings {
    var colors := TokensFor(mode);
    var palette :=
      match mode
      case Dark =>
        Palette(
          mode := mode,
          primary := PaletteColour(colors.primary.s100, colors.primary.s300),
          secondary := PaletteColour(colors.grey.g200, colors.secondary.s200),
          success := MainColour(colors.success.s100),
          warning := MainColour(colors.warning.s100),
          error := MainColour(colors.error.s100),
          background := PaletteBackground(
            base := colors.grey.g700, form := colors.grey.g600, banner := colors.primary.s200,
            autocomplete := colors.grey.g400, dataGrid := colors.grey.g500, layout := colors.grey.g100,
            gradient := colors.gradient,
            main := colors.background.main, mainLight := colors.background.mainLight,
            dark := colors.background.dark, nav := colors.background.nav,
            primary := colors.background.primary, primaryLight := colors.background.primaryLight,
            secondary := colors.background.secondary, secondaryLight := colors.background.secondaryLight),
          neutral := colors.neutral, designPrimary := colors.designPrimary,
          designSecondary := colors.designSecondary, textTokens := colors.text,
          border := colors.border, navigation := colors.navigation)
      case Light =>
        Palette(
          mode := mode,
          primary := PaletteColour(colors.primary.s300, colors.primary.s300),
          secondary := PaletteColour(colors.secondary.s200, colors.secondary.s300),
          success := MainColour(colors.success.s100),
          warning := MainColour(colors.warning.s100),
          error := MainColour(colors.error.s100),
          background := PaletteBackground(
            base := colors.grey.g100, form := colors.grey.g100, banner := colors.primary.s200,
            autocomplete := colors.grey.g400, dataGrid := colors.grey.g300, layout := colors.grey.g100,
            gradient := colors.gradient,
            main := colors.background.main, mainLight := colors.background.mainLight,
            dark := colors.background.dark, nav := colors.background.nav,
            primary := colors.background.primary, primaryLight := colors.background.primaryLight,
            secondary := colors.background.secondary, secondaryLight := colors.background.secondaryLight),
          neutral := colors.neutral, designPrimary := colors.designPrimary,
          designSecondary := colors.designSecondary, textTokens := colors.text,
          border := colors.border, navigation := colors.navigation);
    Settings(
      palette := palette,
      typography := Typography(
        fontSize := 11, fontFamily := "Poppins",
        h1 := Heading(38, Some(700)), h2 := Heading(32, Some(600)), h3 := Heading(24, Some(500)),
        h4 := Heading(20, None), h5 := Heading(16, None), h6 := Heading(14, None)),
      components := Components(
        dataGrid := DataGridStyle(
          columnHeaderBackground := if mode == Dark then Alpha(colors.primary.s300, 90)
                                    else Alpha(colors.primary.s300, 20),
          columnHeaderWeight := 1000, columnHeaderTitleWeight := 1000),
        button := ButtonStyle("#ff7300", "#e76000", "bold", "2px", "9px 12px", "8px", "white"),
        baseline := BaselineStyle(if mode == Dark then colors.grey.g700 else colors.grey.g100)),
      breakpoints := Breakpoints(xs := 0, sm := 600, md := 960, lg := 1280, xl := 1920))
  }

  // ---- Properties ----

  /** The neutral, design primary, design secondary and navigation tables are the same in both modes. */
  lemma SharedTables()
    ensures TokensFor(Light).neutral == TokensFor(Dark).neutral
    ensures TokensFor(Light).designPrimary == TokensFor(Dark).designPrimary
    ensures TokensFor(Light).designSecondary == TokensFor(Dark).designSecondary
    ensures TokensFor(Light).navigation == TokensFor(Dark).navigation
  {
  }

  /** Only the light table leaves `background.dark` and `background.nav` unset. */
  lemma UnsetBackgrounds(mode: Mode)
    ensures TokensFor(mode).background.dark.None? <==> mode == Light
    ensures TokensFor(mode).background.nav.None? <==> mode == Light
  {
  }

  /** The primary palette colour: shade 100 in dark mode, 300 in light mode; its dark variant is 300 in both. */
  lemma PrimaryMapping(mode: Mode)
    ensures ThemeSettings(mode).palette.primary.main ==
            (if mode == Dark then TokensFor(mode).primary.s100 else TokensFor(mode).primary.s300)
    ensures ThemeSettings(mode).palette.primary.dark == TokensFor(mode).primary.s300
  {
  }

  /** The palette background entries main .. secondaryLight are the token table's, in both modes. */
  lemma BackgroundCopied(mode: Mode)
    ensures var p, t := ThemeSettings(mode).palette.background, TokensFor(mode).background;
            p.main == t.main && p.mainLight == t.mainLight && p.dark == t.dark && p.nav == t.nav &&
            p.primary == t.primary && p.primaryLight == t.primaryLight &&
            p.secondary == t.secondary && p.secondaryLight == t.secondaryLight
  {
  }

  /** The palette carries the mode and passes the shared and semantic tables through unchanged. */
  lemma PaletteCarriesTokens(mode: Mode)
    ensures ThemeSettings(mode).palette.mode == mode
    ensures ThemeSettings(mode).palette.neutral == TokensFor(mode).neutral
    ensures ThemeSettings(mode).palette.designPrimary == TokensFor(mode).designPrimary
    ensures ThemeSettings(mode).palette.designSecondary == TokensFor(mode).designSecondary
    ensures ThemeSettings(mode).palette.textTokens == TokensFor(mode).text
    ensures ThemeSettings(mode).palette.border == TokensFor(mode).border
    ensures ThemeSettings(mode).palette.navigation == TokensFor(mode).navigation
  {
  }

  /** The two modes give different settings. */
  lemma SettingsDistinguishModes(m1: Mode, m2: Mode)
    requires ThemeSettings(m1) == ThemeSettings(m2)
    ensures m1 == m2
  {
    PaletteCarriesTokens(m1);
    PaletteCarriesTokens(m2);
  }

  /** Typography, the contained button and the breakpoints do not depend on the mode. */
  lemma ModeIndependentSettings(m1: Mode, m2: Mode)
    ensures ThemeSettings(m1).typography == ThemeSettings(m2).typography
    ensures ThemeSettings(m1).components.button == ThemeSettings(m2).components.button
    ensures ThemeSettings(m1).breakpoints == ThemeSettings(m2).breakpoints
    ensures ThemeSettings(m1).components.button.background == "#ff7300"
    ensures ThemeSettings(m1).components.button.hoverBackground == "#e76000"
  {
  }

  /** Breakpoints start at 0 and increase strictly: xs < sm < md < lg < xl. */
  lemma BreakpointsIncreasing(mode: Mode)
    ensures var b := ThemeSettings(mode).breakpoints;
            b.xs == 0 && b.xs < b.sm < b.md < b.lg < b.xl
  {
  }

  /** The DataGrid header is primary 300 at 90% opacity in dark mode, 20% in light mode; autofill uses grey 700 or grey 100. */
  lemma ModeDependentOverrides(mode: Mode)
    ensures ThemeSettings(mode).components.dataGrid.columnHeaderBackground ==
            Alpha(TokensFor(mode).primary.s300, if mode == Dark then 90 else 20)
    ensures ThemeSettings(mode).components.baseline.autofillShadow ==
            (if mode == Dark then TokensFor(mode).grey.g700 else TokensFor(mode).grey.g100)
  {
  }
}
