/** The theme provider: which theme and mode the page shows, the two
    browser-storage entries it keeps them in, and the hook that hands the
    provider's value to components. */
module ThemeContext {
  import opened Wrappers
  import opened Themes

  /** What the theme picker lists for each theme. */
  datatype ThemeSummary = ThemeSummary(id: string, name: string, preview: string)

  /** The provider's state. The two storage entries (the theme key and the
      mode key) belong to the provider and are modelled as its fields;
      `None` is an entry that was never written. */
  class ThemeProvider {
    var themeId: string
    var mode: ColorMode
    var mounted: bool
    var storedTheme: Option<string>
    var storedMode: Option<string>

    /** The theme id is always one of the table's, and once mounted the
        storage holds the current theme and mode. */
    ghost predicate Valid()
      reads this
    {
      && IsThemeId(themeId)
      && (mounted ==> storedTheme == Some(themeId) && storedMode == Some(ModeName(mode)))
    }

    /** The first render: the default theme in dark mode, not yet mounted,
        with whatever the storage held from an earlier visit. */
    constructor (savedTheme: Option<string>, savedMode: Option<string>)
      ensures Valid()
      ensures themeId == DefaultTheme && mode == DefaultMode && !mounted
      ensures storedTheme == savedTheme && storedMode == savedMode
    {
      themeId := DefaultTheme;
      mode := DefaultMode;
      mounted := false;
      storedTheme := savedTheme;
      storedMode := savedMode;
    }

    /** Writes the current theme and mode to storage once mounted. */
    method Persist()
      modifies this
      requires IsThemeId(themeId)
      ensures Valid()
      ensures themeId == old(themeId) && mode == old(mode) && mounted == old(mounted)
      ensures mounted ==> storedTheme == Some(themeId) && storedMode == Some(ModeName(mode))
      ensures !mounted ==> storedTheme == old(storedTheme) && storedMode == old(storedMode)
    {
      if mounted {
        storedTheme := Some(themeId);
        storedMode := Some(ModeName(mode));
      }
    }

    /** The mount effect followed by the persisting effect: a stored theme
        is taken only when it names a theme, a stored mode only when it is
        `light` or `dark`; anything else keeps the current value, and the
        result is written back. */
    method Mount()
      modifies this
      requires Valid()
      ensures Valid() && mounted
      ensures themeId == match old(storedTheme)
        case Some(s) => if IsThemeId(s) then s else old(themeId)
        case None => old(themeId)
      ensures mode == match old(storedMode)
        case Some(s) => ParseMode(s).GetOr(old(mode))
        case None => old(mode)
    {
      mounted := true;
      var savedTheme := storedTheme;
      var savedMode := storedMode;
      if savedTheme.Some? && savedTheme.value != "" && IsThemeId(savedTheme.value) {
        themeId := savedTheme.value;
      }
      if savedMode.Some? && savedMode.value != "" && (savedMode.value == "light" || savedMode.value == "dark") {
        mode := if savedMode.value == "light" then Light else Dark;
      }
      Persist();
    }

    /** `setTheme`: an id that names no theme is ignored. */
    method SetTheme(newThemeId: string)
      modifies this
      requires Valid()
      ensures Valid()
      ensures themeId == if IsThemeId(newThemeId) then newThemeId else old(themeId)
      ensures mode == old(mode) && mounted == old(mounted)
      ensures !mounted ==> storedTheme == old(storedTheme) && storedMode == old(storedMode)
    {
      if IsThemeId(newThemeId) {
        themeId := newThemeId;
      }
      Persist();
    }

    /** `setMode`. */
    method SetMode(newMode: ColorMode)
      modifies this
      requires Valid()
      ensures Valid()
      ensures mode == newMode && themeId == old(themeId) && mounted == old(mounted)
      ensures !mounted ==> storedTheme == old(storedTheme) && storedMode == old(storedMode)
    {
      mode := newMode;
      Persist();
    }

    /** `toggleMode`: light becomes dark and dark becomes light. */
    method ToggleMode()
      modifies this
      requires Valid()
      ensures Valid()
      ensures mode == Flip(old(mode)) && themeId == old(themeId) && mounted == old(mounted)
      ensures !mounted ==> storedTheme == old(storedTheme) && storedMode == old(storedMode)
    {
      mode := if mode == Light then Dark else Light;
      Persist();
    }

    /** The active theme the provider hands out: always the current theme
        in the current mode. */
    function Theme(): (a: ActiveTheme)
      reads this
      requires Valid()
      ensures a.id == themeId && a.mode == mode
    {
      GetActiveTheme(themeId, mode)
    }
  }

  /** The picker's entry for each theme, in order. */
  function Summaries(themes: seq<Theme>): (r: seq<ThemeSummary>)
    ensures |r| == |themes|
    ensures forall i | 0 <= i < |r| ::
      r[i] == ThemeSummary(themes[i].id, themes[i].name, themes[i].preview)
  {
    if themes == [] then []
    else [ThemeSummary(themes[0].id, themes[0].name, themes[0].preview)] + Summaries(themes[1..])
  }

  /** `availableThemes`: the summaries of all themes. */
  function AvailableThemes(): (r: seq<ThemeSummary>)
    ensures |r| == |ThemeKeys|
    ensures forall i | 0 <= i < |ThemeKeys| :: r[i].id == ThemeKeys[i]
  {
    Summaries(GetAllThemes())
  }

  /** The picker lists every theme once, in the table's order, and offers
      exactly the ids `setTheme` accepts. */
  lemma AvailableThemesAreAccepted(s: string)
    ensures |AvailableThemes()| == |ThemeKeys|
    ensures forall i | 0 <= i < |ThemeKeys| :: AvailableThemes()[i].id == ThemeKeys[i]
    ensures IsThemeId(s) <==> exists i | 0 <= i < |AvailableThemes()| :: AvailableThemes()[i].id == s
    ensures forall i, j | 0 <= i < j < |AvailableThemes()| :: AvailableThemes()[i].id != AvailableThemes()[j].id
  {
    AllThemesFollowTable();
    KeyedSummaries(AvailableThemes(), s);
  }

  /** Summaries whose ids are the table's keys, in order, name each theme
      id once and nothing else. */
  lemma KeyedSummaries(r: seq<ThemeSummary>, s: string)
    requires |r| == |ThemeKeys|
    requires forall i | 0 <= i < |r| :: r[i].id == ThemeKeys[i]
    ensures IsThemeId(s) <==> exists i | 0 <= i < |r| :: r[i].id == s
    ensures forall i, j | 0 <= i < j < |r| :: r[i].id != r[j].id
  {
    if IsThemeId(s) {
      var i :| 0 <= i < |ThemeKeys| && ThemeKeys[i] == s;
      assert r[i].id == s;
    }
  }

  const OutsideProviderMessage: string := "useTheme must be used within a ThemeProvider"

  /** `useTheme`: the provider's value, or the error it throws when called
      outside a provider. */
  function UseTheme<T>(context: Option<T>): (r: Result<T, string>)
    ensures r.Failure? <==> context.None?
    ensures r.Failure? ==> r.error == OutsideProviderMessage
    ensures r.Success? ==> r.value == context.value
  {
    match context
    case None => Failure(OutsideProviderMessage)
    case Some(c) => Success(c)
  }
}
