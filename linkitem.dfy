/**
 * The navigation LinkItem component: how its props decide the colours of the
 * row and which of the icon box, the label and the chevron are rendered.
 */
module LinkItem {
  import opened Wrappers
  import Theme

  /** A React element supplied by the caller (an icon); its content is opaque. */
  datatype Element = Element(id: nat)

  /** A route entry; LinkItem accepts it and does not read it. */
  datatype RouteDetail = RouteDetail(path: string)

  /** The component's props; `labelText` is the `label` prop. */
  datatype Props = Props(
    icon: Option<Element>, labelText: string, open: bool, isActive: bool, isHovered: bool,
    isExpanded: bool, hasChildren: bool, route: Option<RouteDetail>)

  /** The entries of `theme.palette.navigation` the component reads. */
  datatype NavKey = Link | Hover | HoverBg | Clicked | ClickedBg

  /** A colour as the component writes it: a navigation palette entry or a CSS literal. */
  datatype ColourRef = Nav(key: NavKey) | Literal(css: string)

  /** The icon wrapper, which sizes the icon's svg to 20 by 20 px. */
  datatype IconBox = IconBox(icon: Element, widthPx: nat, heightPx: nat)

  /** The label text and its typography. */
  datatype Label = Label(text: string, fontSizePx: nat, fontWeight: nat)

  datatype Chevron = Up | Down

  datatype Visual = Visual(
    background: ColourRef, colour: ColourRef, hoverBackground: ColourRef, hoverColour: ColourRef,
    iconBox: Option<IconBox>, labelNode: Option<Label>, chevron: Option<Chevron>)

  /** The rendered row for some props. */
  function Render(p: Props): (v: Visual)
    ensures v.background == Nav(ClickedBg) <==> p.isActive || p.isExpanded
    ensures !(p.isActive || p.isExpanded) ==> v.background == Literal("transparent")
    ensures v.colour == Nav(Clicked) <==> p.isActive || p.isExpanded
    ensures !(p.isActive || p.isExpanded) ==> v.colour == Nav(Link)
    ensures v.hoverBackground == Nav(HoverBg) && v.hoverColour == Nav(Hover)
    ensures v.iconBox.Some? <==> p.icon.Some?
    ensures v.iconBox.Some? ==> v.iconBox.value == IconBox(p.icon.value, 20, 20)
    ensures v.labelNode.Some? <==> p.open
    ensures v.labelNode.Some? ==> v.labelNode.value == Label(p.labelText, 14, 500)
    ensures v.chevron.Some? <==> p.hasChildren && p.open
    ensures v.chevron == Some(Up) <==> p.hasChildren && p.open && p.isExpanded
    ensures v.chevron == Some(Down) <==> p.hasChildren && p.open && !p.isExpanded
  {
    var highlighted := p.isActive || p.isExpanded;
    Visual(
      background := if highlighted then Nav(ClickedBg) else Literal("transparent"),
      colour := if highlighted then Nav(Clicked) else Nav(Link),
      hoverBackground := Nav(HoverBg),
      hoverColour := Nav(Hover),
      iconBox := if p.icon.Some? then Some(IconBox(p.icon.value, 20, 20)) else None,
      labelNode := if p.open then Some(Label(p.labelText, 14, 500)) else None,
      chevron := if p.hasChildren && p.open then Some(if p.isExpanded then Up else Down) else None)
  }

  /** `isHovered` and `route` never change what is rendered. */
  lemma HoverAndRouteInert(p: Props, hovered: bool, route: Option<RouteDetail>)
    ensures Render(p.(isHovered := hovered, route := route)) == Render(p)
  {
  }

  /** The colour a reference denotes under a theme palette. */
  function Resolve(c: ColourRef, palette: Theme.Palette): Theme.Colour {
    match c
    case Literal(css) => css
    case Nav(Link) => palette.navigation.link
    case Nav(Hover) => palette.navigation.hover
    case Nav(HoverBg) => palette.navigation.hoverBg
    case Nav(Clicked) => palette.navigation.clicked
    case Nav(ClickedBg) => palette.navigation.clickedBg
  }

  /**
   * Because the navigation table is the same in both modes, a link item has
   * the same colours in the light and the dark theme.
   */
  lemma ColoursModeIndependent(p: Props)
    ensures var v, light, dark := Render(p), Theme.ThemeSettings(Theme.Light).palette, Theme.ThemeSettings(Theme.Dark).palette;
            Resolve(v.background, light) == Resolve(v.background, dark) &&
            Resolve(v.colour, light) == Resolve(v.colour, dark) &&
            Resolve(v.hoverBackground, light) == Resolve(v.hoverBackground, dark) &&
            Resolve(v.hoverColour, light) == Resolve(v.hoverColour, dark)
  {
    Theme.SharedTables();
    Theme.PaletteCarriesTokens(Theme.Light);
    Theme.PaletteCarriesTokens(Theme.Dark);
  }

  /** An inactive, collapsed item is drawn transparent on link colour in either theme. */
  lemma IdleColours(p: Props, mode: Theme.Mode)
    requires !p.isActive && !p.isExpanded
    ensures Resolve(Render(p).background, Theme.ThemeSettings(mode).palette) == "transparent"
    ensures Resolve(Render(p).colour, Theme.ThemeSettings(mode).palette) == "#ffffff8f"
  {
    Theme.PaletteCarriesTokens(mode);
  }
}
