# ImmersiveStatusBar: the status-bar style decision

The app shows a background image. It then picks the status-bar style that keeps the
status-bar icons readable over that image. `MainActivity.detectBitmapColor` asks the
palette library for at most five characteristic colours (swatches) of the strip
behind the status bar. The strip runs from (0, 0) to (screen width, status-bar height).
The activity then scans the swatches and keeps the most popular one. If that
swatch's luminance is below 0.5, it selects the dark status bar (light icons).
Otherwise it selects the light status bar (dark icons). Both selections are
read-modify-write updates of one bit, `SYSTEM_UI_FLAG_LIGHT_STATUS_BAR`, in the
window's 32-bit `systemUiVisibility` flag word.

The model has three modules:

- `Palettes` (Palettes.dfy): swatches as `(rgb, population)` values. It defines the
  first-most-popular swatch in two ways: as a predicate, and as a reference function
  computed from the back of the list. It also holds the scan as a method with a loop,
  proved equal to that function.
- `StatusBarFlags` (StatusBarFlags.dfy): the flag word as a `bv32`. The light-status-bar
  bit is `0x2000`, the Android SDK's value of `View.SYSTEM_UI_FLAG_LIGHT_STATUS_BAR`.
  The module holds the two updates and their bit-level properties.
- `ImmersiveStatusBar` (ImmersiveStatusBar.dfy): the decision for one palette delivery.
  It also holds a class `MainActivity` with the `systemUiVisibility` field and the
  methods `SetLightStatusBar`, `SetDarkStatusBar`, `DetectBitmapColor` and
  `GetStatusBarHeight`.

Platform calls become parameters:

- The palette library run on the bitmap is `generate: PaletteRequest -> Option<Palette>`.
  `None` stands for a null palette.
- `ColorUtils.calculateLuminance` is `luminanceOf: int -> real`.
- `resources.getIdentifier` and `getDimensionPixelSize` are plain functions.
- The screen width and the status-bar height are integer inputs of `DetectBitmapColor`. In the source, `detectBitmapColor` computes the height with `getStatusBarHeight()`. The model leaves that composition to the caller: pass the result of `GetStatusBarHeight` as `statusBarHeight`.

## Model

| member | source | states |
|---|---|---|
| Palettes.FirstMostPopularUnique | app/src/main/java/com/example/immersivestatusbartest/MainActivity.kt:64-71 | at most one index is the first swatch of maximal population, so the scan's choice is determined |
| Palettes.MostPopularIndex | app/src/main/java/com/example/immersivestatusbartest/MainActivity.kt:64-71 | reference definition: no index exactly for an empty list; otherwise the index is maximal in population and every earlier swatch is strictly less popular |
| Palettes.MostPopular | app/src/main/java/com/example/immersivestatusbartest/MainActivity.kt:64-71 | null exactly when the list is empty; otherwise an element of the list, at least as popular as every swatch, and preceded only by strictly less popular swatches |
| Palettes.MostPopularIsFirstMax | app/src/main/java/com/example/immersivestatusbartest/MainActivity.kt:66-69 | any index that is first among the maximal ones is the one chosen |
| Palettes.TieGoesToFirst | app/src/main/java/com/example/immersivestatusbartest/MainActivity.kt:66-69 | of two swatches with equal population the first wins, because the comparison is strict |
| Palettes.SelectMostPopularSwatch | app/src/main/java/com/example/immersivestatusbartest/MainActivity.kt:64-71 | the loop's result is null exactly for an empty list, is otherwise the swatch at the first index of maximal population, and equals `MostPopular` |
| StatusBarFlags.WithLightStatusBar | app/src/main/java/com/example/immersivestatusbartest/MainActivity.kt:86-90 | OR-ing the mask sets the light-status-bar bit and keeps all other bits |
| StatusBarFlags.WithDarkStatusBar | app/src/main/java/com/example/immersivestatusbartest/MainActivity.kt:92-97 | OR then XOR with the mask equals `flags & !mask`: the bit is cleared whatever it was, and all other bits are kept |
| StatusBarFlags.LightStatusBarIdempotent | app/src/main/java/com/example/immersivestatusbartest/MainActivity.kt:87-89 | setting the light status bar twice equals setting it once |
| StatusBarFlags.DarkStatusBarIdempotent | app/src/main/java/com/example/immersivestatusbartest/MainActivity.kt:94-96 | setting the dark status bar twice equals setting it once |
| StatusBarFlags.LastUpdateWins | app/src/main/java/com/example/immersivestatusbartest/MainActivity.kt:86-97 | after both updates, only the last one matters |
| StatusBarFlags.WithStyle | app/src/main/java/com/example/immersivestatusbartest/MainActivity.kt:76-80 | applying a style makes the flag word show that style and keeps every other bit |
| StatusBarFlags.WithOwnStyleUnchanged | app/src/main/java/com/example/immersivestatusbartest/MainActivity.kt:86-97 | applying the style a flag word already shows leaves it unchanged |
| ImmersiveStatusBar.StatusBarRegionRequest | app/src/main/java/com/example/immersivestatusbartest/MainActivity.kt:52-61 | colour count 5 and the region from (0, 0), as wide as the screen and as tall as the status bar |
| ImmersiveStatusBar.StyleForLuminance | app/src/main/java/com/example/immersivestatusbartest/MainActivity.kt:76-80 | below 0.5 gives the dark status bar and 0.5 or more (0.5 included) gives the light one, exactly one of the two |
| ImmersiveStatusBar.Decide | app/src/main/java/com/example/immersivestatusbartest/MainActivity.kt:63-81 | no decision exactly when the palette is null or has no swatch; otherwise the style is dark iff the first most popular swatch's luminance is below 0.5 |
| ImmersiveStatusBar.UniformPaletteDecision | app/src/main/java/com/example/immersivestatusbartest/MainActivity.kt:72-80 | a palette of only dark swatches gives the dark status bar; one of only light swatches gives the light status bar |
| ImmersiveStatusBar.TieDecidedByFirst | app/src/main/java/com/example/immersivestatusbartest/MainActivity.kt:64-80 | of two equally popular swatches, the first one's luminance decides |
| ImmersiveStatusBar.FlagsAfter | app/src/main/java/com/example/immersivestatusbartest/MainActivity.kt:72-81 | without a decision the flags are unchanged; with one they show the decided style; all other bits are kept either way |
| ImmersiveStatusBar.FlagsAfterIdempotent | app/src/main/java/com/example/immersivestatusbartest/MainActivity.kt:72-97 | delivering the same decision twice changes nothing more than delivering it once |
| ImmersiveStatusBar.DetectionAppliesOneSetter | app/src/main/java/com/example/immersivestatusbartest/MainActivity.kt:63-81 | with a null palette or no swatch the flags are unchanged; otherwise exactly one setter applies, chosen by the 0.5 threshold |
| ImmersiveStatusBar.MainActivity.constructor | app/src/main/java/com/example/immersivestatusbartest/MainActivity.kt:19-21 | the activity starts with the given flag word |
| ImmersiveStatusBar.MainActivity.SetLightStatusBar | app/src/main/java/com/example/immersivestatusbartest/MainActivity.kt:86-90 | reads the window flags and writes back `WithLightStatusBar` of them; the window then shows the light status bar |
| ImmersiveStatusBar.MainActivity.SetDarkStatusBar | app/src/main/java/com/example/immersivestatusbartest/MainActivity.kt:92-97 | writes back `WithDarkStatusBar` of the old flags; the window then shows the dark status bar |
| ImmersiveStatusBar.MainActivity.DetectBitmapColor | app/src/main/java/com/example/immersivestatusbartest/MainActivity.kt:51-84 | asks for five colours of the region (0, 0, screen width, status-bar height); the new flags are `FlagsAfter` of the old flags and `Decide` of the delivered palette |
| ImmersiveStatusBar.MainActivity.GetStatusBarHeight | app/src/main/java/com/example/immersivestatusbartest/MainActivity.kt:105-112 | 0 when the `status_bar_height` identifier is not positive; otherwise the dimension looked up for that identifier |

## Left out

- `onCreate`, the button listeners, `setBgImageByResource` and `setImageBitmap` are left out. They are Android UI wiring with no decision in them.
- Bitmap decoding by `BitmapFactory` is left out. It is resource I/O, and the bitmap appears only inside the `generate` parameter.
- The palette library's colour quantisation is left out. So is its asynchronous `generate` callback. The model uses only the library's output for the requested colour count and region. That output is delivered synchronously to `DetectBitmapColor`.
- What the palette library does with a degenerate region is not modelled, including throwing an exception. A zero-height region arises when `getStatusBarHeight` returns 0. `generate` is a total function, and the model covers only one outcome: an empty swatch list means no decision.
- `ColorUtils.calculateLuminance` is left out because it is floating-point gamma arithmetic in a library. It is the parameter `luminanceOf`, with values in `real`. Doubles, rounding and NaN are not modelled.
- `Log.i` is left out because it is only logging.
- `getScreenWidth` is left out because it is a platform query. Its result is the `screenWidth` input.
- `resources.getIdentifier` and `getDimensionPixelSize` are left out because they are platform lookups. They are function parameters of `GetStatusBarHeight`.
- Kotlin's 32-bit `Int` is modelled in two ways. `systemUiVisibility` is a `bv32`, since the bitwise operators do not depend on sign. Populations and `rgb` are unbounded `int`, because the core only compares and copies them.
