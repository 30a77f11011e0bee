/** The three visual themes, each with a light and a dark colour scheme,
    and the lookups that resolve a theme id and a mode to what the page
    uses. */
module Themes {
  import opened Wrappers

  datatype ColorMode = Light | Dark

  /** The text a mode is stored and compared as. */
  function ModeName(m: ColorMode): string {
    match m
    case Light => "light"
    case Dark => "dark"
  }

  /** Reading a stored mode back: only `light` and `dark` are modes. */
  function ParseMode(s: string): (r: Option<ColorMode>)
    ensures r.Some? <==> s == "light" || s == "dark"
    ensures r.Some? ==> ModeName(r.value) == s
  {
    if s == "light" then Some(Light) else if s == "dark" then Some(Dark) else None
  }

  /** Writing a mode and reading it back gives the same mode. */
  lemma ModeRoundTrip(m: ColorMode)
    ensures ParseMode(ModeName(m)) == Some(m)
  {
  }

  /** The other mode, as the mode toggle picks it. */
  function Flip(m: ColorMode): (r: ColorMode)
    ensures r != m
    ensures ModeName(r) == if ModeName(m) == "light" then "dark" else "light"
  {
    if m == Light then Dark else Light
  }

  /** Toggling twice restores the mode. */
  lemma FlipTwice(m: ColorMode)
    ensures Flip(Flip(m)) == m
  {
  }

  datatype Fonts = Fonts(heading: string, body: string, accent: string)

  datatype BorderRadius = BorderRadius(sm: string, md: string, lg: string, xl: string)

  datatype Effects = Effects(shadow: string, shadowLg: string, glow: string)

  datatype ColorScheme = ColorScheme(
    primary: string,
    primaryHover: string,
    primaryLight: string,
    accent: string,
    accentHover: string,
    bgPrimary: string,
    bgSecondary: string,
    bgTertiary: string,
    bgGradient: string,
    globeBg: string,
    globeAtmosphere: string,
    textPrimary: string,
    textSecondary: string,
    textMuted: string,
    textOnPrimary: string,
    cardBg: string,
    cardBorder: string,
    modalBg: string,
    inputBg: string,
    inputBorder: string,
    passportCover: string,
    passportAccent: string,
    passportText: string,
    stampBorder: string)

  datatype GlobeConfig = GlobeConfig(
    globeImageUrl: string,
    bumpImageUrl: string,
    backgroundImageUrl: string,
    atmosphereColor: string,
    atmosphereAltitude: real,
    showAtmosphere: bool,
    countryDefaultColor: string,
    countrySelectedColor: string,
    countryBorderColor: string,
    countryHoverGlow: string,
    ringColor: string,
    containerBg: string)

  datatype ModeConfig = ModeConfig(colors: ColorScheme, globe: GlobeConfig)

  datatype Theme = Theme(
    id: string,
    name: string,
    description: string,
    preview: string,
    fonts: Fonts,
    borderRadius: BorderRadius,
    effects: Effects,
    light: ModeConfig,
    dark: ModeConfig)

  /** A theme with the scheme of one mode picked out, and the mode. */
  datatype ActiveTheme = ActiveTheme(
    id: string,
    name: string,
    description: string,
    preview: string,
    fonts: Fonts,
    borderRadius: BorderRadius,
    effects: Effects,
    colors: ColorScheme,
    globe: GlobeConfig,
    mode: ColorMode)

  /** The `modern` theme. */
  const Modern: Theme := Theme(
    id := "modern",
    name := "Modern",
    description := "Vibrant futuristic design with neon accents",
    preview := "\U{1F310}",
    fonts := Fonts(
      heading := "\"Space Grotesk\", \"Inter\", system-ui, sans-serif",
      body := "\"Inter\", system-ui, sans-serif",
      accent := "\"Orbitron\", \"Inter\", system-ui, sans-serif"),
    borderRadius := BorderRadius(
      sm := "0.5rem",
      md := "0.75rem",
      lg := "1rem",
      xl := "1.5rem"),
    effects := Effects(
      shadow := "0 4px 6px -1px rgba(0, 0, 0, 0.1), 0 2px 4px -2px rgba(0, 0, 0, 0.1)",
      shadowLg := "0 20px 25px -5px rgba(0, 0, 0, 0.2), 0 8px 10px -6px rgba(0, 0, 0, 0.1)",
      glow := "0 0 30px rgba(6, 182, 212, 0.5), 0 0 60px rgba(139, 92, 246, 0.3)"),
    light := ModeConfig(
      colors := ColorScheme(
        primary := "#0891b2",
        primaryHover := "#0e7490",
        primaryLight := "#cffafe",
        accent := "#8b5cf6",
        accentHover := "#7c3aed",
        bgPrimary := "#f0fdfa",
        bgSecondary := "#ecfeff",
        bgTertiary := "#e0f2fe",
        bgGradient := "linear-gradient(135deg, #ecfeff 0%, #f0fdfa 25%, #faf5ff 50%, #fdf4ff 75%, #ecfeff 100%)",
        globeBg := "linear-gradient(to bottom, #0f172a, #020617, #000000)",
        globeAtmosphere := "#06b6d4",
        textPrimary := "#0f172a",
        textSecondary := "#334155",
        textMuted := "#64748b",
        textOnPrimary := "#ffffff",
        cardBg := "rgba(255, 255, 255, 0.8)",
        cardBorder := "rgba(6, 182, 212, 0.2)",
        modalBg := "rgba(255, 255, 255, 0.95)",
        inputBg := "rgba(255, 255, 255, 0.9)",
        inputBorder := "rgba(6, 182, 212, 0.3)",
        passportCover := "linear-gradient(135deg, #0891b2 0%, #6366f1 50%, #8b5cf6 100%)",
        passportAccent := "#fbbf24",
        passportText := "#ffffff",
        stampBorder := "#06b6d4"),
      globe := GlobeConfig(
        globeImageUrl := "//unpkg.com/three-globe/example/img/earth-blue-marble.jpg",
        bumpImageUrl := "//unpkg.com/three-globe/example/img/earth-topology.png",
        backgroundImageUrl := "//unpkg.com/three-globe/example/img/night-sky.png",
        atmosphereColor := "#06b6d4",
        atmosphereAltitude := 0.3,
        showAtmosphere := true,
        countryDefaultColor := "#64748b",
        countrySelectedColor := "#06b6d4",
        countryBorderColor := "rgba(6, 182, 212, 0.4)",
        countryHoverGlow := "#8b5cf6",
        ringColor := "#06b6d4",
        containerBg := "linear-gradient(135deg, #0c4a6e 0%, #0f172a 50%, #1e1b4b 100%)")),
    dark := ModeConfig(
      colors := ColorScheme(
        primary := "#22d3ee",
        primaryHover := "#06b6d4",
        primaryLight := "#164e63",
        accent := "#a78bfa",
        accentHover := "#8b5cf6",
        bgPrimary := "#020617",
        bgSecondary := "#0f172a",
        bgTertiary := "#1e293b",
        bgGradient := "linear-gradient(135deg, #020617 0%, #0f172a 25%, #1e1b4b 50%, #0f172a 75%, #020617 100%)",
        globeBg := "linear-gradient(to bottom, #000000, #020617, #000000)",
        globeAtmosphere := "#22d3ee",
        textPrimary := "#f0fdfa",
        textSecondary := "#a5f3fc",
        textMuted := "#67e8f9",
        textOnPrimary := "#020617",
        cardBg := "rgba(15, 23, 42, 0.8)",
        cardBorder := "rgba(34, 211, 238, 0.2)",
        modalBg := "rgba(15, 23, 42, 0.95)",
        inputBg := "rgba(2, 6, 23, 0.8)",
        inputBorder := "rgba(34, 211, 238, 0.3)",
        passportCover := "linear-gradient(135deg, #0891b2 0%, #6366f1 50%, #8b5cf6 100%)",
        passportAccent := "#fbbf24",
        passportText := "#f0fdfa",
        stampBorder := "#22d3ee"),
      globe := GlobeConfig(
        globeImageUrl := "//unpkg.com/three-globe/example/img/earth-night.jpg",
        bumpImageUrl := "//unpkg.com/three-globe/example/img/earth-topology.png",
        backgroundImageUrl := "//unpkg.com/three-globe/example/img/night-sky.png",
        atmosphereColor := "#22d3ee",
        atmosphereAltitude := 0.3,
        showAtmosphere := true,
        countryDefaultColor := "#475569",
        countrySelectedColor := "#22d3ee",
        countryBorderColor := "rgba(34, 211, 238, 0.3)",
        countryHoverGlow := "#a78bfa",
        ringColor := "#22d3ee",
        containerBg := "linear-gradient(135deg, #020617 0%, #0f172a 30%, #1e1b4b 50%, #0f172a 70%, #020617 100%)")))

  /** The `renaissance` theme. */
  const Renaissance: Theme := Theme(
    id := "renaissance",
    name := "Renaissance",
    description := "Classical elegance inspired by the golden age of art",
    preview := "\U{1F3A8}",
    fonts := Fonts(
      heading := "\"Playfair Display\", Georgia, serif",
      body := "\"Crimson Text\", Georgia, serif",
      accent := "\"Cinzel\", \"Times New Roman\", serif"),
    borderRadius := BorderRadius(
      sm := "0.25rem",
      md := "0.375rem",
      lg := "0.5rem",
      xl := "0.75rem"),
    effects := Effects(
      shadow := "0 2px 4px rgba(44, 24, 16, 0.15), 0 1px 2px rgba(44, 24, 16, 0.1)",
      shadowLg := "0 10px 25px rgba(44, 24, 16, 0.2), 0 6px 10px rgba(44, 24, 16, 0.15)",
      glow := "0 0 30px rgba(218, 165, 32, 0.4)"),
    light := ModeConfig(
      colors := ColorScheme(
        primary := "#8b4513",
        primaryHover := "#a0522d",
        primaryLight := "#fef3e2",
        accent := "#daa520",
        accentHover := "#b8860b",
        bgPrimary := "#faf6f1",
        bgSecondary := "#f5ebe0",
        bgTertiary := "#eddfcc",
        bgGradient := "linear-gradient(135deg, #faf6f1 0%, #f5ebe0 50%, #eddfcc 100%)",
        globeBg := "linear-gradient(to bottom, #2c1810, #1a0f0a, #0d0705)",
        globeAtmosphere := "#daa520",
        textPrimary := "#2c1810",
        textSecondary := "#5c4033",
        textMuted := "#8b7355",
        textOnPrimary := "#faf6f1",
        cardBg := "#fffbf5",
        cardBorder := "#d4c4b0",
        modalBg := "#fffbf5",
        inputBg := "#fffef9",
        inputBorder := "#c9b896",
        passportCover := "linear-gradient(135deg, #5c1a1a 0%, #722f37 50%, #8b0000 100%)",
        passportAccent := "#daa520",
        passportText := "#faf6f1",
        stampBorder := "#8b4513"),
      globe := GlobeConfig(
        globeImageUrl := "//unpkg.com/three-globe/example/img/earth-water.png",
        bumpImageUrl := "//unpkg.com/three-globe/example/img/earth-topology.png",
        backgroundImageUrl := "",
        atmosphereColor := "#daa520",
        atmosphereAltitude := 0.2,
        showAtmosphere := true,
        countryDefaultColor := "#d4a574",
        countrySelectedColor := "#daa520",
        countryBorderColor := "rgba(139, 69, 19, 0.6)",
        countryHoverGlow := "#daa520",
        ringColor := "#daa520",
        containerBg := "radial-gradient(ellipse at center, #e8dcc8 0%, #d4c4b0 50%, #c9b896 100%)")),
    dark := ModeConfig(
      colors := ColorScheme(
        primary := "#cd853f",
        primaryHover := "#daa520",
        primaryLight := "#3d2914",
        accent := "#ffd700",
        accentHover := "#daa520",
        bgPrimary := "#1a0f0a",
        bgSecondary := "#2c1810",
        bgTertiary := "#3d2914",
        bgGradient := "linear-gradient(135deg, #1a0f0a 0%, #2c1810 50%, #1a0f0a 100%)",
        globeBg := "linear-gradient(to bottom, #0d0705, #1a0f0a, #0d0705)",
        globeAtmosphere := "#ffd700",
        textPrimary := "#f5ebe0",
        textSecondary := "#d4c4b0",
        textMuted := "#8b7355",
        textOnPrimary := "#1a0f0a",
        cardBg := "#2c1810",
        cardBorder := "#5c4033",
        modalBg := "#2c1810",
        inputBg := "#1a0f0a",
        inputBorder := "#5c4033",
        passportCover := "linear-gradient(135deg, #3d0c0c 0%, #5c1a1a 50%, #722f37 100%)",
        passportAccent := "#ffd700",
        passportText := "#f5ebe0",
        stampBorder := "#cd853f"),
      globe := GlobeConfig(
        globeImageUrl := "//unpkg.com/three-globe/example/img/earth-water.png",
        bumpImageUrl := "//unpkg.com/three-globe/example/img/earth-topology.png",
        backgroundImageUrl := "",
        atmosphereColor := "#ffd700",
        atmosphereAltitude := 0.2,
        showAtmosphere := true,
        countryDefaultColor := "#8b7355",
        countrySelectedColor := "#ffd700",
        countryBorderColor := "rgba(205, 133, 63, 0.5)",
        countryHoverGlow := "#ffd700",
        ringColor := "#ffd700",
        containerBg := "radial-gradient(ellipse at center, #3d2914 0%, #1a0f0a 50%, #0d0705 100%)")))

  /** The `library` theme. */
  const Library: Theme := Theme(
    id := "library",
    name := "Library",
    description := "Scholarly elegance of a classic reading room",
    preview := "\U{1F4DA}",
    fonts := Fonts(
      heading := "\"Libre Baskerville\", Georgia, serif",
      body := "\"Merriweather\", Georgia, serif",
      accent := "\"EB Garamond\", Georgia, serif"),
    borderRadius := BorderRadius(
      sm := "0.25rem",
      md := "0.375rem",
      lg := "0.5rem",
      xl := "0.625rem"),
    effects := Effects(
      shadow := "0 2px 4px rgba(0, 0, 0, 0.1), 0 1px 2px rgba(0, 0, 0, 0.06)",
      shadowLg := "0 10px 25px rgba(0, 0, 0, 0.15), 0 4px 10px rgba(0, 0, 0, 0.1)",
      glow := "0 0 30px rgba(184, 134, 11, 0.3)"),
    light := ModeConfig(
      colors := ColorScheme(
        primary := "#2d5a4a",
        primaryHover := "#1e4035",
        primaryLight := "#e8f0ed",
        accent := "#b8860b",
        accentHover := "#996f09",
        bgPrimary := "#faf8f5",
        bgSecondary := "#f5f0e8",
        bgTertiary := "#ebe4d6",
        bgGradient := "linear-gradient(180deg, #faf8f5 0%, #f5f0e8 50%, #ebe4d6 100%)",
        globeBg := "linear-gradient(to bottom, #1a2f28, #0f1f1a, #050a08)",
        globeAtmosphere := "#b8860b",
        textPrimary := "#1a2a24",
        textSecondary := "#3d5249",
        textMuted := "#6b7f75",
        textOnPrimary := "#faf8f5",
        cardBg := "#fffef9",
        cardBorder := "#d4cbb8",
        modalBg := "#fffef9",
        inputBg := "#fffef9",
        inputBorder := "#c9bea6",
        passportCover := "linear-gradient(135deg, #2d5a4a 0%, #1e4035 50%, #800020 100%)",
        passportAccent := "#b8860b",
        passportText := "#faf8f5",
        stampBorder := "#2d5a4a"),
      globe := GlobeConfig(
        globeImageUrl := "//unpkg.com/three-globe/example/img/earth-blue-marble.jpg",
        bumpImageUrl := "//unpkg.com/three-globe/example/img/earth-topology.png",
        backgroundImageUrl := "",
        atmosphereColor := "#b8860b",
        atmosphereAltitude := 0.2,
        showAtmosphere := true,
        countryDefaultColor := "#8fbc8f",
        countrySelectedColor := "#b8860b",
        countryBorderColor := "rgba(45, 90, 74, 0.5)",
        countryHoverGlow := "#b8860b",
        ringColor := "#b8860b",
        containerBg := "radial-gradient(ellipse at center, #3d5a4a 0%, #1e4035 50%, #0f1f1a 100%)")),
    dark := ModeConfig(
      colors := ColorScheme(
        primary := "#4a8b73",
        primaryHover := "#5a9f85",
        primaryLight := "#1a3a2f",
        accent := "#d4a84b",
        accentHover := "#e0b85c",
        bgPrimary := "#0f1a16",
        bgSecondary := "#1a2a24",
        bgTertiary := "#253530",
        bgGradient := "linear-gradient(180deg, #0f1a16 0%, #1a2a24 50%, #0f1a16 100%)",
        globeBg := "linear-gradient(to bottom, #050a08, #0f1a16, #050a08)",
        globeAtmosphere := "#d4a84b",
        textPrimary := "#e8f0ed",
        textSecondary := "#b8ccc3",
        textMuted := "#7a9a8d",
        textOnPrimary := "#0f1a16",
        cardBg := "#1a2a24",
        cardBorder := "#3d5249",
        modalBg := "#1a2a24",
        inputBg := "#0f1a16",
        inputBorder := "#3d5249",
        passportCover := "linear-gradient(135deg, #2d5a4a 0%, #1e4035 50%, #660018 100%)",
        passportAccent := "#d4a84b",
        passportText := "#e8f0ed",
        stampBorder := "#4a8b73"),
      globe := GlobeConfig(
        globeImageUrl := "//unpkg.com/three-globe/example/img/earth-dark.jpg",
        bumpImageUrl := "//unpkg.com/three-globe/example/img/earth-topology.png",
        backgroundImageUrl := "//unpkg.com/three-globe/example/img/night-sky.png",
        atmosphereColor := "#d4a84b",
        atmosphereAltitude := 0.2,
        showAtmosphere := true,
        countryDefaultColor := "#5a7a6a",
        countrySelectedColor := "#d4a84b",
        countryBorderColor := "rgba(74, 139, 115, 0.4)",
        countryHoverGlow := "#d4a84b",
        ringColor := "#d4a84b",
        containerBg := "radial-gradient(ellipse at center, #253530 0%, #1a2a24 50%, #0f1a16 100%)")))

  /** The theme table's keys, in declaration order. */
  const ThemeKeys: seq<string> := ["modern", "renaissance", "library"]

  /** The theme table. */
  const ThemeTable: map<string, Theme> := map["modern" := Modern, "renaissance" := Renaissance, "library" := Library]

  /** Whether a theme id names a theme of the table. */
  predicate IsThemeId(s: string) {
    s in ThemeKeys
  }

  const DefaultTheme: string := "modern"
  const DefaultMode: ColorMode := Dark

  /** The keys are exactly the listed ones, without repeats, each theme
      carries its own key as its id, and the defaults are a key and the
      dark mode. */
  lemma ThemeTableShape()
    ensures forall k :: k in ThemeTable <==> k in ThemeKeys
    ensures forall i, j | 0 <= i < j < |ThemeKeys| :: ThemeKeys[i] != ThemeKeys[j]
    ensures forall k | k in ThemeTable :: ThemeTable[k].id == k
    ensures forall k :: IsThemeId(k) <==> k in ThemeTable
    ensures DefaultTheme in ThemeTable && ModeName(DefaultMode) == "dark"
  {
  }

  /** `getTheme`: the theme under a known id, otherwise the default one;
      either way the result's id is the id asked for when it is known and
      `modern` otherwise. */
  function GetTheme(themeId: string): (t: Theme)
    ensures themeId in ThemeTable ==> t == ThemeTable[themeId]
    ensures themeId !in ThemeTable ==> t == ThemeTable[DefaultTheme]
    ensures t.id == if IsThemeId(themeId) then themeId else DefaultTheme
  {
    ThemeTableShape();
    if themeId in ThemeTable then ThemeTable[themeId] else ThemeTable[DefaultTheme]
  }

  /** `theme[mode]`. */
  function ModeConfigOf(t: Theme, m: ColorMode): ModeConfig {
    match m
    case Light => t.light
    case Dark => t.dark
  }

  /** `getActiveTheme`: the resolved theme's identity, fonts, radii and
      effects, the colours and globe of the requested mode, and the mode. */
  function GetActiveTheme(themeId: string, mode: ColorMode): (a: ActiveTheme)
    ensures a.id == if IsThemeId(themeId) then themeId else DefaultTheme
    ensures a.mode == mode
    ensures var t := GetTheme(themeId);
      && a.name == t.name && a.description == t.description && a.preview == t.preview
      && a.fonts == t.fonts && a.borderRadius == t.borderRadius && a.effects == t.effects
      && a.colors == ModeConfigOf(t, mode).colors && a.globe == ModeConfigOf(t, mode).globe
  {
    var theme := GetTheme(themeId);
    var modeConfig := ModeConfigOf(theme, mode);
    ActiveTheme(theme.id, theme.name, theme.description, theme.preview, theme.fonts,
      theme.borderRadius, theme.effects, modeConfig.colors, modeConfig.globe, mode)
  }

  /** `getAllThemes`: the table's values, in declaration order. */
  function GetAllThemes(): (r: seq<Theme>)
    ensures |r| == |ThemeKeys|
    ensures forall i | 0 <= i < |ThemeKeys| :: r[i].id == ThemeKeys[i]
  {
    [Modern, Renaissance, Library]
  }

  /** The list of all themes holds the table's themes, one per key, in
      declaration order, each carrying its key as its id. */
  lemma AllThemesFollowTable()
    ensures |GetAllThemes()| == |ThemeKeys|
    ensures forall i | 0 <= i < |ThemeKeys| ::
      ThemeKeys[i] in ThemeTable && GetAllThemes()[i] == ThemeTable[ThemeKeys[i]]
    ensures forall i | 0 <= i < |ThemeKeys| :: GetAllThemes()[i].id == ThemeKeys[i]
  {
    ThemeTableShape();
  }
}
