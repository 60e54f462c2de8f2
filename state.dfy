/**
 * The two small enumerations the editor keeps besides its text: which pane
 * has focus, and the colour theme, with the theme's successor in the cycle
 * and its accent colour (src/state.rs).
 */
module State {
  /** Which pane receives key input: the text area or the recent-files sidebar. */
  datatype Focused = Editor | Sidebar

  /** The six themes, in the order the theme cycle visits them. */
  datatype Theme = Calm | Vibe | Modern | Professional | Creative | Warm

  /** Tags for the terminal colours used as accent (foreground) colours. */
  datatype Color = LightYellow | LightBlue | LightCyan | Cyan | LightMagenta | LightRed

  /** Number of themes in the cycle. */
  const ThemeCount: nat := 6

  /** Focus of a freshly started editor. */
  function DefaultFocused(): (f: Focused)
    ensures f == Editor
  {
    Editor
  }

  /** Theme of a freshly started editor. */
  function DefaultTheme(): (t: Theme)
    ensures t == Professional && Ordinal(t) == 3
  {
    Professional
  }

  lemma DefaultsAreEditorAndProfessional()
    ensures DefaultFocused() == Editor && DefaultTheme() == Professional
    ensures Ordinal(DefaultTheme()) == 3
  {
  }

  /** The focus after the toggle-focus command: the other pane. */
  function Toggled(f: Focused): (g: Focused)
    ensures g != f
  {
    match f
    case Editor => Sidebar
    case Sidebar => Editor
  }

  /** Toggling is an involution: two toggles restore the focus. */
  lemma ToggledTwice(f: Focused)
    ensures Toggled(Toggled(f)) == f
  {
  }

  /** Position of a theme in declaration order: the reference the cycle is measured against. */
  function Ordinal(t: Theme): (n: nat)
    ensures n < ThemeCount
  {
    match t
    case Calm => 0
    case Vibe => 1
    case Modern => 2
    case Professional => 3
    case Creative => 4
    case Warm => 5
  }

  lemma OrdinalInjective(a: Theme, b: Theme)
    requires Ordinal(a) == Ordinal(b)
    ensures a == b
  {
  }

  /** The next theme: one position further in declaration order, wrapping after the last. */
  function NextOption(t: Theme): (u: Theme)
    ensures Ordinal(u) == (Ordinal(t) + 1) % ThemeCount
  {
    match t
    case Calm => Vibe
    case Vibe => Modern
    case Modern => Professional
    case Professional => Creative
    case Creative => Warm
    case Warm => Calm
  }

  /** The theme reached from t by n successive NextOption steps. */
  function Advanced(t: Theme, n: nat): Theme
    decreases n
  {
    if n == 0 then t else Advanced(NextOption(t), n - 1)
  }

  /** n steps of the cycle move n positions forward, modulo the number of themes. */
  lemma {:induction false} AdvancedOrdinal(t: Theme, n: nat)
    ensures Ordinal(Advanced(t, n)) == (Ordinal(t) + n) % ThemeCount
    decreases n
  {
    if n > 0 {
      AdvancedOrdinal(NextOption(t), n - 1);
      if Ordinal(t) == 5 {
        assert Ordinal(NextOption(t)) == 0;
        assert (Ordinal(t) + n) % ThemeCount == (n - 1) % ThemeCount;
      }
    }
  }

  /** Six steps of the theme cycle return to the starting theme. */
  lemma NextOptionPeriod(t: Theme)
    ensures Advanced(t, ThemeCount) == t
  {
    AdvancedOrdinal(t, ThemeCount);
    OrdinalInjective(Advanced(t, ThemeCount), t);
  }

  /** No shorter cycle: one to five steps always reach a different theme. */
  lemma NoShorterCycle(t: Theme, n: nat)
    requires 0 < n < ThemeCount
    ensures Advanced(t, n) != t
  {
    AdvancedOrdinal(t, n);
  }

  /** NextOption is injective, hence a permutation of the six themes. */
  lemma NextOptionInjective(a: Theme, b: Theme)
    requires NextOption(a) == NextOption(b)
    ensures a == b
  {
  }

  /** The accent colour drawn on the border of the focused pane. */
  function AccentColor(t: Theme): (c: Color)
    ensures ThemeOf(c) == t
  {
    match t
    case Calm => LightYellow
    case Vibe => LightBlue
    case Modern => LightCyan
    case Professional => Cyan
    case Creative => LightMagenta
    case Warm => LightRed
  }

  /** The theme whose accent colour c is: the inverse of AccentColor. */
  function ThemeOf(c: Color): Theme
  {
    match c
    case LightYellow => Calm
    case LightBlue => Vibe
    case LightCyan => Modern
    case Cyan => Professional
    case LightMagenta => Creative
    case LightRed => Warm
  }

  /** Distinct themes have distinct accent colours. */
  lemma AccentColorInjective(a: Theme, b: Theme)
    requires AccentColor(a) == AccentColor(b)
    ensures a == b
  {
  }
}
