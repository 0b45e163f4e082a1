/** The activity's decision core: ask the palette library for the swatches
    of the status-bar strip, take the most popular one, and choose the
    status-bar style from its luminance; the window's flag word is the
    state this changes. */
module ImmersiveStatusBar {
  import opened Palettes
  import opened StatusBarFlags

  /** Number of characteristic colours asked of the palette library. */
  const COLOR_COUNT: int := 5

  /** A swatch whose luminance is below this counts as dark. */
  const DARK_LUMINANCE_LIMIT: real := 0.5

  /** The parameters `detectBitmapColor` gives the palette builder: the
      colour count and the analysed region (left, top, right, bottom). */
  datatype PaletteRequest = PaletteRequest(maximumColorCount: int, left: int, top: int, right: int, bottom: int)

  /** The request for the strip behind the status bar: five colours, from
      the top-left corner, as wide as the screen and as tall as the status
      bar. */
  function StatusBarRegionRequest(screenWidth: int, statusBarHeight: int): (r: PaletteRequest)
    ensures r.maximumColorCount == 5
    ensures r.left == 0 && r.top == 0
    ensures r.right - r.left == screenWidth && r.bottom - r.top == statusBarHeight
  {
    PaletteRequest(COLOR_COUNT, 0, 0, screenWidth, statusBarHeight)
  }

  /** A dark swatch asks for the dark status bar (light icons); any other
      asks for the light status bar (dark icons). The threshold is strict:
      exactly one style per luminance, and a luminance of exactly 0.5
      belongs to the light status bar. */
  function StyleForLuminance(luminance: real): (r: StatusBarStyle)
    ensures r == DarkStatusBar <==> luminance < 0.5
    ensures r == LightStatusBar <==> luminance >= 0.5
  {
    if luminance < DARK_LUMINANCE_LIMIT then DarkStatusBar else LightStatusBar
  }

  /** The outcome of one palette delivery: no style when there is no
      palette or it has no swatch, else the style for the luminance of the
      most popular swatch. */
  function Decide(palette: Option<Palette>, luminanceOf: int -> real): (r: Option<StatusBarStyle>)
    ensures r.None? <==> palette.None? || palette.value.swatches == []
    ensures r.Some? ==> exists k :: 0 <= k < |palette.value.swatches| &&
                                    IsFirstMostPopular(palette.value.swatches, k) &&
                                    (r.value == DarkStatusBar <==> luminanceOf(palette.value.swatches[k].rgb) < 0.5)
  {
    match palette
    case None => None
    case Some(p) =>
      match MostPopularIndex(p.swatches)
      case None => None
      case Some(k) => Some(StyleForLuminance(luminanceOf(p.swatches[k].rgb)))
  }

  /** A palette whose swatches are all dark gives the dark status bar, one
      whose swatches are all light gives the light status bar, whatever
      their populations. */
  lemma UniformPaletteDecision(p: Palette, luminanceOf: int -> real)
    requires p.swatches != []
    ensures (forall j :: 0 <= j < |p.swatches| ==> luminanceOf(p.swatches[j].rgb) < 0.5) ==>
              Decide(Some(p), luminanceOf) == Some(DarkStatusBar)
    ensures (forall j :: 0 <= j < |p.swatches| ==> luminanceOf(p.swatches[j].rgb) >= 0.5) ==>
              Decide(Some(p), luminanceOf) == Some(LightStatusBar)
  {
  }

  /** Of two equally popular swatches, the first one decides the style. */
  lemma TieDecidedByFirst(a: Swatch, b: Swatch, luminanceOf: int -> real)
    requires a.population == b.population
    ensures Decide(Some(Palette([a, b])), luminanceOf) == Some(StyleForLuminance(luminanceOf(a.rgb)))
  {
    TieGoesToFirst(a, b);
  }

  /** The flag word after a decision: unchanged without one, else the
      decided style bit with every other bit kept. */
  function FlagsAfter(flags: bv32, decision: Option<StatusBarStyle>): (r: bv32)
    ensures decision.None? ==> r == flags
    ensures decision.Some? ==> StyleOf(r) == decision.value
    ensures r & !LIGHT_STATUS_BAR == flags & !LIGHT_STATUS_BAR
  {
    match decision
    case None => flags
    case Some(style) => WithStyle(flags, style)
  }

  /** Delivering the same decision again changes nothing more. */
  lemma FlagsAfterIdempotent(flags: bv32, decision: Option<StatusBarStyle>)
    ensures FlagsAfter(FlagsAfter(flags, decision), decision) == FlagsAfter(flags, decision)
  {
    match decision
    case None =>
    case Some(DarkStatusBar) => DarkStatusBarIdempotent(flags);
    case Some(LightStatusBar) => LightStatusBarIdempotent(flags);
  }

  /** One delivery leaves the flags alone when no swatch is selected, and
      otherwise applies exactly one of the two setters: the dark one when
      the most popular swatch is darker than the limit, the light one
      otherwise. */
  lemma DetectionAppliesOneSetter(flags: bv32, palette: Option<Palette>, luminanceOf: int -> real)
    ensures palette.None? ==> FlagsAfter(flags, Decide(palette, luminanceOf)) == flags
    ensures palette.Some? && MostPopular(palette.value.swatches).None? ==>
              FlagsAfter(flags, Decide(palette, luminanceOf)) == flags
    ensures palette.Some? && MostPopular(palette.value.swatches).Some? ==>
              var luminance := luminanceOf(MostPopular(palette.value.swatches).value.rgb);
              FlagsAfter(flags, Decide(palette, luminanceOf)) ==
                if luminance < 0.5 then WithDarkStatusBar(flags) else WithLightStatusBar(flags)
  {
  }

  class MainActivity {
    /** `window.decorView.systemUiVisibility`, a 32-bit flag word. */
    var systemUiVisibility: bv32

    constructor (systemUiVisibility: bv32)
      ensures this.systemUiVisibility == systemUiVisibility
    {
      this.systemUiVisibility := systemUiVisibility;
    }

    /** The style the window currently shows. */
    function Style(): StatusBarStyle
      reads this
    {
      StyleOf(systemUiVisibility)
    }

    /** Light status bar (dark icons): OR the bit into the current flags. */
    method SetLightStatusBar()
      modifies this
      ensures systemUiVisibility == WithLightStatusBar(old(systemUiVisibility))
      ensures Style() == LightStatusBar
    {
      var flags := systemUiVisibility;
      systemUiVisibility := flags | LIGHT_STATUS_BAR;
    }

    /** Dark status bar (light icons): OR the bit in, then XOR it out. */
    method SetDarkStatusBar()
      modifies this
      ensures systemUiVisibility == WithDarkStatusBar(old(systemUiVisibility))
      ensures Style() == DarkStatusBar
    {
      var flags := systemUiVisibility | LIGHT_STATUS_BAR;
      assert flags ^ LIGHT_STATUS_BAR == WithDarkStatusBar(systemUiVisibility);
      systemUiVisibility := flags ^ LIGHT_STATUS_BAR;
    }

    /** `detectBitmapColor` with the palette delivered synchronously:
        `generate` is the palette library run on the bitmap (`None` for a
        null palette), `luminanceOf` the luminance of a colour. At most one
        of the two setters runs, and the flags change only as `Decide`
        says. */
    method DetectBitmapColor(screenWidth: int, statusBarHeight: int,
                             generate: PaletteRequest -> Option<Palette>, luminanceOf: int -> real)
      modifies this
      ensures systemUiVisibility ==
                FlagsAfter(old(systemUiVisibility),
                           Decide(generate(StatusBarRegionRequest(screenWidth, statusBarHeight)), luminanceOf))
    {
      var request := StatusBarRegionRequest(screenWidth, statusBarHeight);
      var palette := generate(request);
      if palette.Some? {
        var mostPopular := SelectMostPopularSwatch(palette.value.swatches);
        if mostPopular.Some? {
          var luminance := luminanceOf(mostPopular.value.rgb);
          if luminance < DARK_LUMINANCE_LIMIT {
            SetDarkStatusBar();
          } else {
            SetLightStatusBar();
          }
        }
      }
    }

    /** `getStatusBarHeight`: look up the `status_bar_height` dimension of
        the `android` package; 0 when the identifier is not positive. */
    method GetStatusBarHeight(getIdentifier: (string, string, string) -> int, getDimensionPixelSize: int -> int)
      returns (result: int)
      ensures getIdentifier("status_bar_height", "dimen", "android") <= 0 ==> result == 0
      ensures getIdentifier("status_bar_height", "dimen", "android") > 0 ==>
                result == getDimensionPixelSize(getIdentifier("status_bar_height", "dimen", "android"))
    {
      result := 0;
      var resourceId := getIdentifier("status_bar_height", "dimen", "android");
      if resourceId > 0 {
        result := getDimensionPixelSize(resourceId);
      }
    }
  }
}
