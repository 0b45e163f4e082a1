/** The status-bar style as one bit of the window's 32-bit
    `systemUiVisibility` flags, and the two read-modify-write updates that
    set it (light status bar, dark icons) or clear it (dark status bar,
    light icons). */
module StatusBarFlags {

  /** `View.SYSTEM_UI_FLAG_LIGHT_STATUS_BAR` of the Android SDK: a single bit. */
  const LIGHT_STATUS_BAR: bv32 := 0x0000_2000

  /** The two styles the system offers. A dark status bar shows light icons;
      a light status bar shows dark icons. */
  datatype StatusBarStyle = DarkStatusBar | LightStatusBar

  /** The style that a flag word selects. */
  function StyleOf(flags: bv32): StatusBarStyle
  {
    if flags & LIGHT_STATUS_BAR != 0 then LightStatusBar else DarkStatusBar
  }

  /** `setLightStatusBar`: OR the bit in. The bit ends up set whatever it
      was, and every other bit keeps its value. */
  function WithLightStatusBar(flags: bv32): (r: bv32)
    ensures r & LIGHT_STATUS_BAR == LIGHT_STATUS_BAR
    ensures r & !LIGHT_STATUS_BAR == flags & !LIGHT_STATUS_BAR
    ensures StyleOf(r) == LightStatusBar
  {
    flags | LIGHT_STATUS_BAR
  }

  /** `setDarkStatusBar`: OR the bit in, then XOR it out. The pair is a
      clear of the bit, whatever it was, and every other bit keeps its
      value. */
  function WithDarkStatusBar(flags: bv32): (r: bv32)
    ensures r == flags & !LIGHT_STATUS_BAR
    ensures r & LIGHT_STATUS_BAR == 0
    ensures StyleOf(r) == DarkStatusBar
  {
    (flags | LIGHT_STATUS_BAR) ^ LIGHT_STATUS_BAR
  }

  /** Setting the light status bar twice is setting it once. */
  lemma LightStatusBarIdempotent(flags: bv32)
    ensures WithLightStatusBar(WithLightStatusBar(flags)) == WithLightStatusBar(flags)
  {
  }

  /** Setting the dark status bar twice is setting it once. */
  lemma DarkStatusBarIdempotent(flags: bv32)
    ensures WithDarkStatusBar(WithDarkStatusBar(flags)) == WithDarkStatusBar(flags)
  {
  }

  /** The last update alone decides the flag word: each one overrides the
      other's effect on the style bit and neither touches the other bits. */
  lemma LastUpdateWins(flags: bv32)
    ensures WithLightStatusBar(WithDarkStatusBar(flags)) == WithLightStatusBar(flags)
    ensures WithDarkStatusBar(WithLightStatusBar(flags)) == WithDarkStatusBar(flags)
  {
  }

  /** The flag word for a chosen style: the matching update applied. */
  function WithStyle(flags: bv32, style: StatusBarStyle): (r: bv32)
    ensures StyleOf(r) == style
    ensures r & !LIGHT_STATUS_BAR == flags & !LIGHT_STATUS_BAR
  {
    match style
    case DarkStatusBar => WithDarkStatusBar(flags)
    case LightStatusBar => WithLightStatusBar(flags)
  }

  /** Applying the style a flag word already shows changes nothing: the
      style bit determines the update completely. */
  lemma WithOwnStyleUnchanged(flags: bv32)
    ensures WithStyle(flags, StyleOf(flags)) == flags
  {
  }
}
