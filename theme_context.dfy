/**
 * The theme controller (`ThemeProvider` in src/context/ThemeContext.tsx):
 * a light/dark/auto preference kept in the device store under its own key,
 * and the palette derived from it and the system's colour scheme. A storage
 * failure, which the source catches and logs, is an input flag here.
 */
module ThemeContext {
  import opened Wrappers
  import opened Storage

  datatype ThemeMode = Light | Dark | Auto

  /** What `useColorScheme()` reports: `'light'`, `'dark'`, or nothing (null). */
  datatype SystemScheme = SystemLight | SystemDark | SystemUnknown

  datatype ThemeColors = ThemeColors(
    background: string,
    surface: string,
    primary: string,
    accent: string,
    text: string,
    textSecondary: string,
    border: string)

  const LightColors: ThemeColors := ThemeColors(
    "#FFFFFF", "#F8F9FA", "#1A1A2E", "#C9A050", "#1A1A2E", "#6B7280", "#E5E7EB")

  const DarkColors: ThemeColors := ThemeColors(
    "#0D0D14", "#1A1A2E", "#FFFFFF", "#C9A050", "#FFFFFF", "#9CA3AF", "#2D2D44")

  const ThemeKey: string := "@sahne:theme_mode"

  /** The string a mode is stored as. */
  function ModeName(mode: ThemeMode): string {
    match mode
    case Light => "light"
    case Dark => "dark"
    case Auto => "auto"
  }

  /**
   * The whitelist `loadTheme` applies to the stored text: a missing or empty
   * value, or anything but the three names, is ignored.
   */
  function ParseMode(saved: Option<string>): (r: Option<ThemeMode>)
    ensures r.Some? ==> saved == Some(ModeName(r.value))
  {
    match saved
    case None => None
    case Some(text) =>
      if text == "" then None
      else if text == "light" then Some(Light)
      else if text == "dark" then Some(Dark)
      else if text == "auto" then Some(Auto)
      else None
  }

  /** Every mode survives being written out and read back. */
  lemma ParseModeName(mode: ThemeMode)
    ensures ParseMode(Some(ModeName(mode))) == Some(mode)
  {
    match mode
    case Light =>
    case Dark =>
      assert "dark" != "light";
    case Auto =>
      assert "auto" != "light" && "auto" != "dark";
  }

  /** Text outside the whitelist never changes the theme. */
  lemma ParseModeRejects(text: string)
    requires text != "light" && text != "dark" && text != "auto"
    ensures ParseMode(Some(text)) == None
  {
  }

  /** `isDark = theme === 'dark' || (theme === 'auto' && systemColorScheme === 'dark')` */
  predicate IsDark(theme: ThemeMode, scheme: SystemScheme) {
    theme == Dark || (theme == Auto && scheme == SystemDark)
  }

  /** `colors = isDark ? darkColors : lightColors` */
  function Colors(theme: ThemeMode, scheme: SystemScheme): ThemeColors {
    if IsDark(theme, scheme) then DarkColors else LightColors
  }

  /** An explicit choice overrides the system; `auto` follows it, treating "unknown" as light. */
  lemma IsDarkByMode(scheme: SystemScheme)
    ensures !IsDark(Light, scheme)
    ensures IsDark(Dark, scheme)
    ensures IsDark(Auto, scheme) <==> scheme == SystemDark
  {
  }

  /**
   * The palette tells the mode apart: the two palettes share only the
   * accent colour, so the background alone identifies the dark palette.
   */
  lemma ColorsIffDark(theme: ThemeMode, scheme: SystemScheme)
    ensures Colors(theme, scheme) == DarkColors <==> IsDark(theme, scheme)
    ensures Colors(theme, scheme) == LightColors <==> !IsDark(theme, scheme)
    ensures Colors(theme, scheme).accent == "#C9A050"
  {
    assert LightColors.background != DarkColors.background by {
      assert LightColors.background[1] != DarkColors.background[1];
    }
  }

  /** Everything the controller's operations read or change. */
  datatype ThemeState = ThemeState(items: map<string, string>, theme: ThemeMode)

  /** On mount, before the stored preference has been read, the theme is light. */
  function Initial(persisted: map<string, string>): ThemeState {
    ThemeState(persisted, Light)
  }

  /** `loadTheme`: adopt a whitelisted stored value; a failed read is logged and changes nothing. */
  function AfterLoadTheme(s: ThemeState, readFails: bool): (t: ThemeState)
    ensures t.items == s.items
    ensures t.theme != s.theme ==>
      !readFails && ThemeKey in s.items && s.items[ThemeKey] == ModeName(t.theme)
  {
    if readFails then s
    else
      match ParseMode(Lookup(s.items, ThemeKey))
      case Some(mode) => ThemeState(s.items, mode)
      case None => s
  }

  /** `setTheme`: persist first, then switch; a failed write leaves both unchanged. */
  function AfterSetTheme(s: ThemeState, mode: ThemeMode, writeFails: bool): ThemeState {
    if writeFails then s
    else ThemeState(s.items[ThemeKey := ModeName(mode)], mode)
  }

  /** A chosen theme is restored on the next launch. */
  lemma SetThenRelaunch(s: ThemeState, mode: ThemeMode)
    ensures AfterLoadTheme(Initial(AfterSetTheme(s, mode, false).items), false).theme == mode
  {
    ParseModeName(mode);
  }

  /** A successful `setTheme` changes the theme and the one stored key, and nothing else. */
  lemma SetThemeFrame(s: ThemeState, mode: ThemeMode, key: string)
    requires key != ThemeKey
    ensures AfterSetTheme(s, mode, false).theme == mode
    ensures Lookup(AfterSetTheme(s, mode, false).items, key) == Lookup(s.items, key)
    ensures Lookup(AfterSetTheme(s, mode, false).items, ThemeKey) == Some(ModeName(mode))
  {
  }

  /** Loading again changes nothing once the stored preference is in force. */
  lemma LoadThemeIdempotent(s: ThemeState, readFails: bool)
    ensures AfterLoadTheme(AfterLoadTheme(s, readFails), readFails) == AfterLoadTheme(s, readFails)
  {
  }

  /** After a successful `setTheme`, reloading the stored preference is a no-op. */
  lemma LoadAfterSetKeepsTheme(s: ThemeState, mode: ThemeMode)
    ensures AfterLoadTheme(AfterSetTheme(s, mode, false), false) == AfterSetTheme(s, mode, false)
  {
    ParseModeName(mode);
  }

  class ThemeProvider {
    const store: KeyValueStore
    var theme: ThemeMode

    function State(): ThemeState
      reads this, store
    {
      ThemeState(store.items, theme)
    }

    constructor (store: KeyValueStore)
      ensures this.store == store
      ensures State() == Initial(store.items)
    {
      this.store := store;
      theme := Light;
    }

    /** The current palette for the given system scheme. */
    function Palette(scheme: SystemScheme): (colors: ThemeColors)
      reads this
      ensures colors == DarkColors <==> IsDark(theme, scheme)
    {
      ColorsIffDark(theme, scheme);
      Colors(theme, scheme)
    }

    method LoadTheme(readFails: bool)
      modifies this
      ensures State() == AfterLoadTheme(old(State()), readFails)
    {
      if !readFails {
        var saved := store.GetItem(ThemeKey);
        var mode := ParseMode(saved);
        if mode.Some? {
          theme := mode.value;
        }
      }
    }

    method SetTheme(mode: ThemeMode, writeFails: bool)
      modifies this, store
      ensures State() == AfterSetTheme(old(State()), mode, writeFails)
    {
      if !writeFails {
        store.SetItem(ThemeKey, ModeName(mode));
        theme := mode;
      }
    }
  }
}
