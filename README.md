# BeautyOfTimePassing scene logic in Dafny

The repository renders an interactive 3D room scene with three.js. Almost all of
`src/script.js` is asset loading, material and mesh set-up and GUI bindings. This
project models the small part that is logic:

- **The matcap switcher** (module `Matcap`, with `Decimal` for number rendering).
  A global index starts at 3. The `a`/left-arrow keys (codes 65/37) step it down,
  wrapping from 1 to 12. The `d`/right-arrow keys (68/39) step it up, wrapping
  from 12 to 1. After each step the image source is rebuilt as
  `"/textures/matcaps/" + index + ".png"`. The class `Cycler` holds `index` and
  `src`, and `KeyDown` is the keydown handler. The pure functions `Next` and
  `Run` give the index after one press and after a sequence of presses. The
  lemmas prove the bounds, the wrap-around, that left and right presses undo
  each other, closed forms for `n` presses, and that distinct indices give
  distinct paths.
- **The occlusion rule** (module `Occlusion`). The ray caster reports hit
  distances nearest first. A point's label is hidden only when the nearest hit
  is strictly nearer than the point; no hit, or a tie, means visible. On sorted
  hits this is proved equal to "no hit lies strictly in front of the point".
- **The label translation** (module `ScreenSpace`): `(ndc.x * width * 0.5,
  -ndc.y * height * 0.5)`. In the exact real arithmetic of the model, and for a
  positive viewport, it is proved invertible.
- **The frame loop** (module `Frame`). The class `Scene` holds the one-way
  `isSceneReady` flag, the two `uTime` uniforms and the array of labels.
  `MarkReady` is the delayed load-complete callback. `Tick` writes the elapsed
  time into both uniforms. Only when the scene is ready does it loop over the
  labels, setting each label's visibility and translation. The translation is
  set whether the label is visible or hidden.

Projection (`screenPosition.project(camera)`) and ray casting are three.js calls.
Their results for each point arrive as a `Frame.Probe` value: the device
coordinates, the sorted hit distances and the camera-to-point distance. The
elapsed time and the viewport size are parameters of `Tick`.

Two details of the code that the model follows:

- The upper bound of the index is the constant 12.
- The handler wraps only when the index is exactly 1 (going down) or exactly 12
  (going up). The `!==` tests do not handle a general out-of-range index. The
  model proves that such an index never arises, because `Cycler.Valid()` holds
  from the constructor on.

## Model

| member | source | states |
|---|---|---|
| `Decimal.NatToString` | src/script.js:150 | the rendered index is a non-empty string of decimal digits with no leading zero (except for 0 itself) |
| `Decimal.ParseNatToString` | src/script.js:150 | reading the digits of the rendered number back gives the number |
| `Decimal.NatToStringInjective` | src/script.js:150 | different indices render as different strings |
| `Matcap.MatcapPathInjective` | src/script.js:150 | different indices give different image paths `base + index + ".png"` |
| `Matcap.Next` | src/script.js:901-931 | one key press keeps an index in [1, 12]; any key other than 65, 37, 68, 39 leaves the index unchanged |
| `Matcap.KeyDownCases` | src/script.js:903-926 | a left key moves i to i - 1 unless i = 1, where it wraps to 12; a right key moves i to i + 1 unless i = 12, where it wraps to 1 |
| `Matcap.LeftRightInverse` | src/script.js:903-926 | for every index in [1, 12], right then left returns the index, and so does left then right |
| `Matcap.RunInRange` | src/script.js:899-932 | any sequence of key presses keeps an index in [1, 12] inside [1, 12] |
| `Matcap.InitialRunInRange` | src/script.js:148-150 | starting from index 3, the index is in [1, 12] after any sequence of key presses |
| `Matcap.RightPresses` | src/script.js:915-927 | n right presses from i end at ((i - 1 + n) mod 12) + 1 |
| `Matcap.LeftPresses` | src/script.js:901-913 | n left presses from i end at ((i - 1 - n) mod 12) + 1 |
| `Matcap.FullCycle` | src/script.js:901-927 | twelve presses of the same cycle key return to the starting index |
| `Matcap.ThreeLeftFromInitial` | src/script.js:901-913 | from the start-up index 3, three presses of `a` end at 12 |
| `Matcap.Cycler.constructor` | src/script.js:148-150 | the switcher starts at index 3 with `src` the path of image 3 |
| `Matcap.Cycler.KeyDown` | src/script.js:899-932 | the handler steps or wraps the index as above, sets `src` to the new index's path for the four cycle keys, and leaves index and `src` unchanged for every other key |
| `Occlusion.VisibilityRule` | src/script.js:865-876 | no hit means visible; a nearest hit strictly nearer than the point means hidden; a nearest hit at or beyond the point, a tie included, means visible |
| `Occlusion.FirstIsNearest` | src/script.js:863-868 | in the sorted hit list the first distance is the smallest |
| `Occlusion.VisibleIffNotOccluded` | src/script.js:863-876 | on sorted hits, a label is visible exactly when no hit lies strictly nearer than its point |
| `Occlusion.VisibilityMonotone` | src/script.js:869-875 | moving a visible point nearer keeps it visible; moving a hidden point farther keeps it hidden |
| `ScreenSpace.Corners` | src/script.js:878-879 | the NDC centre translates to (0, 0); NDC (1, 1) to (width/2, -height/2); NDC (-1, -1) to (-width/2, height/2) |
| `ScreenSpace.TranslationRoundTrip` | src/script.js:878-879 | in exact real arithmetic and for a positive viewport, the device coordinates are recovered from the translation |
| `ScreenSpace.TranslationInjective` | src/script.js:878-880 | in exact real arithmetic and for a positive viewport, distinct device coordinates give distinct translations |
| `Frame.ResolveMeaning` | src/script.js:865-880 | a ready frame hides a label exactly when something lies strictly in front of its point, and translates it by (ndc.x * width * 0.5, -ndc.y * height * 0.5) |
| `Frame.PositionIgnoresOcclusion` | src/script.js:878-880 | a label's translation depends only on its device coordinates, not on the hits or its visibility |
| `Frame.Scene.constructor` | src/script.js:28 | the scene starts not ready (line 28), with both `uTime` uniforms at 0 (lines 220 and 238) |
| `Frame.Scene.MarkReady` | src/script.js:47-49 | the load-complete callback sets the flag to true and changes nothing else; no member sets it back to false |
| `Frame.Scene.Tick` | src/script.js:844-891 | both time uniforms get the same elapsed time; the flag is unchanged; while not ready no label changes; when ready every label gets the occlusion decision and the translation of its probe |

## Left out

- Asset loading (GLTF/Draco, textures, RGBE, fonts, video) and the loading-bar progress ratio. These are callback-driven I/O and a DOM style.
- The two timers between "all loaded" and `isSceneReady = true`. `MarkReady` stands for the second timer's callback; the overlay fade in the first is presentation only.
- GUI folders and `onChange` bindings, and the mesh, material, light, camera and renderer set-up, including the glass-brick stacking. These are one-shot floating-point configuration.
- Camera projection, `raycaster.setFromCamera` and `intersectObjects`. These are three.js numerics; their results are the `Probe` inputs. The hit list is assumed sorted nearest first, as the ray caster promises; only the lemmas that need the order require `Sorted`.
- `clock.getElapsedTime()`, `controls.update()`, `renderer.render`, `requestAnimationFrame`, Stats and `console.log`. The elapsed time is a parameter of `Tick`. Whether it never decreases is a property of the clock, which is not part of this model.
- The window resize listener and the device-pixel-ratio cap. The viewport size is a parameter of `Tick`.
- Floating point: distances, coordinates and the translation are `real`. Rounding, NaN and infinities are not modelled.
- ScreenSpace.TranslationRoundTrip and ScreenSpace.TranslationInjective hold only in exact real arithmetic. Under IEEE double rounding the translation is neither invertible nor injective: with width 1920, two adjacent doubles near NDC x = 0.6 give the same translation.
- The DOM: the label's `visible` class and its CSS `transform` string are modelled as the fields `visible`, `tx` and `ty` of `Frame.Label`. Image decoding after `src` changes (`matcapTexture.needsUpdate`) is left out.
- The handler reads the global `event` rather than its parameter `e`. The model takes the key code as a parameter.
