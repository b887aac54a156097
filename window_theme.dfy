/** The formatting a colour theme goes through in `WindowTheme.tsx` before it is applied:
    each colour is a list of numbers (the channels written into a CSS variable), and a
    missing secondary background is derived from the primary one, ten units lighter and
    clamped into the channel range. */
module WindowTheme {
  import opened Common

  /** The themes shipped with the application, in menu order. */
  const ThemeList: seq<string> := ["default-dark", "default-light", "fk-neon", "d1sc0rd-dark"]

  /** A colour: its channel values. */
  type Color = seq<real>

  /** The `colors` record of a theme; the optional entries may be missing from its file. */
  datatype Colors = Colors(
    bgTitlebar: Color,
    bgPrimary: Color,
    bgSecondary: Option<Color>,
    bgTertiary: Option<Color>,
    bgQuaternary: Option<Color>,
    textPrimary: Color,
    textReverse: Option<Color>,
    accentPrimary: Color,
    accentSecondary: Option<Color>,
    accentPositive: Color,
    accentCaution: Color,
    accentNegative: Color,
    accentLink: Option<Color>)

  datatype Base = Dark | Light

  /** One channel forced into [0, 255]: of all values in that range, the one nearest
      to `v`. */
  function Clamp(v: real): (r: real)
    ensures 0.0 <= r <= 255.0
    ensures 0.0 <= v <= 255.0 ==> r == v
    ensures forall w: real {:trigger Dist(w, v)} :: 0.0 <= w <= 255.0 ==> Dist(r, v) <= Dist(w, v)
  {
    if v < 0.0 then 0.0 else if v > 255.0 then 255.0 else v
  }

  /** The distance between two values. */
  function Dist(a: real, b: real): real
  {
    if a <= b then b - a else a - b
  }

  /** `overFormat`: every channel clamped into [0, 255], none added or lost. */
  function OverFormat(color: Color): (r: Color)
    ensures |r| == |color|
    ensures forall i :: 0 <= i < |r| ==> r[i] == Clamp(color[i])
    ensures InRange(color) ==> r == color
  {
    seq(|color|, i requires 0 <= i < |color| => Clamp(color[i]))
  }

  /** Every channel lies in [0, 255]. */
  predicate InRange(color: Color)
  {
    forall i :: 0 <= i < |color| ==> 0.0 <= color[i] <= 255.0
  }

  /** A formatted colour is within range, so formatting it again changes nothing. */
  lemma OverFormatIdempotent(color: Color)
    ensures InRange(OverFormat(color))
    ensures OverFormat(OverFormat(color)) == OverFormat(color)
  {
  }

  /** Every channel raised by `delta`: `color.map((c) => c + 10)`. */
  function Lighten(color: Color, delta: real): (r: Color)
    ensures |r| == |color|
    ensures forall i :: 0 <= i < |r| ==> r[i] - color[i] == delta
  {
    seq(|color|, i requires 0 <= i < |color| => color[i] + delta)
  }

  /** The colours once `themeFormatting` has filled in what it derives: a missing
      secondary background becomes the primary one ten units lighter, clamped; a
      present one, and every other colour, is kept. */
  function Formatted(c: Colors): (r: Colors)
    ensures r.bgSecondary.Some?
    ensures r.(bgSecondary := c.bgSecondary) == c
    ensures c.bgSecondary.Some? ==> r == c
  {
    if c.bgSecondary.None? then c.(bgSecondary := Some(OverFormat(Lighten(c.bgPrimary, 10.0))))
    else c
  }

  /** A derived secondary background has one channel per primary channel, each in
      range, lighter than the primary by at most ten units and by exactly ten where
      that stays within range. */
  lemma DerivedSecondary(c: Colors)
    requires c.bgSecondary.None?
    requires InRange(c.bgPrimary)
    ensures var s := Formatted(c).bgSecondary.value;
      |s| == |c.bgPrimary| && InRange(s) &&
      forall i :: 0 <= i < |s| ==>
        c.bgPrimary[i] <= s[i] <= c.bgPrimary[i] + 10.0 &&
        (c.bgPrimary[i] <= 245.0 ==> s[i] == c.bgPrimary[i] + 10.0)
  {
  }

  /** Formatting a formatted theme changes nothing. */
  lemma FormattedIdempotent(c: Colors)
    ensures Formatted(Formatted(c)) == Formatted(c)
  {
  }

  /** A theme as read from its file. `themeFormatting` updates its colours in place. */
  class Theme {
    const id: string
    const name: Option<string>
    const author: Option<string>
    const base: Base
    var colors: Colors

    constructor (id: string, name: Option<string>, author: Option<string>, base: Base, colors: Colors)
      ensures this.id == id && this.name == name && this.author == author
      ensures this.base == base && this.colors == colors
    {
      this.id := id;
      this.name := name;
      this.author := author;
      this.base := base;
      this.colors := colors;
    }
  }

  /** `themeConfigs.themeFormatting`: fills in the secondary background of `theme` and
      returns the same object. */
  method ThemeFormatting(theme: Theme) returns (r: Theme)
    modifies theme
    ensures r == theme
    ensures theme.colors == Formatted(old(theme.colors))
  {
    if theme.colors.bgSecondary.None? {
      var derived := OverFormat(Lighten(theme.colors.bgPrimary, 10.0));
      theme.colors := theme.colors.(bgSecondary := Some(derived));
    }
    r := theme;
  }
}
