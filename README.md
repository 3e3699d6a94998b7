# rust_fractal in Dafny

A model of the computational core of `rust_fractal`, a Julia-set renderer that evaluates the
escape time of every pixel on a pool of worker threads, colours it through a
wavelength-to-RGB map, and sends one pixel-draw event per pixel to an SDL presentation loop.

The model covers the part of `src/main.rs` that is integer case analysis and control flow:

- `prims.dfy` (module `Prims`): Rust's `u8` and `u32` as subset types, and an `Option` whose
  `None` stands for a panic.
- `spectrum.dfy` (module `Spectrum`): `wavelength_to_rgb` and `normalize`. The seven-band
  ramp selection and the intensity taper are computed exactly over `real`. The `powf(0.8)` gamma
  curve is a parameter `gamma: real -> real`. Where a property needs it, the contract assumes
  only what IEEE `pow` guarantees: `gamma(0) = 0`, `gamma(1) = 1`, and monotonicity on [0, 1].
  The `as u8` cast is written out as saturating truncation. An independent description of the
  ramps checks them: linear interpolation between the corner colours magenta, blue, cyan, green,
  yellow and red at the band edges.
- `fractal.dfy` (module `Fractal`): `julia`. The pixel-to-plane scaling and the iteration
  `z * z + c` use exact complex numbers over `real`. `z.norm() >= 2.0` becomes "squared modulus
  at least 4". The method `Julia` keeps the source's `for`/`break` loop. It is proved against
  `EscapeTime`, the first escaping step, and lemmas characterise `EscapeTime` in both directions.
- `render.dfy` (module `Render`): the driver. It covers the `u32` mapping
  `380 + i * 400 / iterations` (including its panics), the per-row closure (`RowJob`, a loop over
  columns), and the loop over rows (`Dispatch`). `Dispatch` runs the rows one after another and
  delivers every event. The lemmas show that, under a budget for which the mapping cannot panic
  (the source's budget of 300 is one), the events cover each pixel of the image exactly once, in
  ascending column order within a row. They also show that each event is coloured by the
  wavelength of its escape count.

Three facts about the code are worth stating up front:

- `julia` returns the index `t` of the last completed iteration, not the number of completed
  iterations. An escape at step 0 and an escape at step 1 both yield 0, and an orbit that never
  escapes yields `max_iter - 1`.
- In `wavelength_to_rgb`, the five bands from 380 to 644 each ramp one channel linearly and hold
  the other two at 0 or 1. The band 645..=780 is constant red, and every other wavelength is black.
- The presentation loop checks the frame interval after each drawn pixel (src/main.rs:124), not
  once per loop iteration. This loop is not part of the model.

## Model

| member | source | states |
|---|---|---|
| Spectrum.RampChannels | src/main.rs:18-26 | for a visible wavelength (380..=780) every channel lies in [0, 1], at least one is exactly 1 and at least one is exactly 0; every other wavelength falls to the `_` arm, (0, 0, 0) |
| Spectrum.Factor | src/main.rs:28-32 | the taper factor lies in [0.3, 1], is 0.3 at 380 and at 780, and is 1 exactly when the wavelength is outside 380..=419 and 701..=780 |
| Spectrum.TruncateToU8 | src/main.rs:62 | the `as u8` cast: 0 at or below 0, 255 at or above 255, otherwise the integer part |
| Spectrum.TruncateToU8Monotone | src/main.rs:62 | the `as u8` cast preserves order |
| Spectrum.Normalize | src/main.rs:61-63 | a zero channel or zero factor gives byte 0; a channel times factor of exactly 1 gives byte 255 |
| Spectrum.NormalizeMonotone | src/main.rs:62 | with a monotone gamma curve a brighter channel never gives a smaller byte |
| Spectrum.WavelengthToRgb | src/main.rs:15-36 | outside 380..=780 the colour is black; a visible colour always has a zero byte; outside the tapers it also has a 255 byte |
| Spectrum.RampsInterpolateCorners | src/main.rs:18-26 | inside each band the channels interpolate linearly between the corner colours at its edges (magenta 380, blue 440, cyan 490, green 510, yellow 580, red from 645) |
| Fractal.StartPoint | src/main.rs:43-47 | the centre pixel of an even dimension maps to 0 on that axis |
| Fractal.ScaledOffsetBounds | src/main.rs:45-46 | `s * (p - n/2) / n` lies in [-s/2, s/2) for `p < n` |
| Fractal.StartPointInView | src/main.rs:45-46 | every pixel with `x < width`, `y < height` starts in [-1.5, 1.5) x [-1, 1) |
| Fractal.FirstEscapeFrom | src/main.rs:50-53 | the first escape from step `t` lies in `t ..= n`, and the orbit has escaped there unless it equals `n` |
| Fractal.NoEscapeBefore | src/main.rs:50-53 | no step before the first escape has escaped |
| Fractal.EscapeTimeIsFirstEscape | src/main.rs:50-56 | the escape time is at most the budget, no earlier step escapes, and the orbit escapes at it unless the budget ran out |
| Fractal.EscapeTimeUnique | src/main.rs:50-56 | any step that is first to escape within the budget (or the budget itself, when none escapes) is the escape time |
| Fractal.JuliaValue | src/main.rs:39-58 | the result is 0 for a zero budget and below the budget otherwise |
| Fractal.JuliaReturnsLastCompletedStep | src/main.rs:49-57 | `julia` returns 0 when the budget is 0 or the start point escapes; first escape step - 1 when it escapes later; `max_iter - 1` when it never escapes |
| Fractal.Julia | src/main.rs:39-58 | the `for`/`break` loop computes `JuliaValue`, and its result is below `max_iter` whenever `max_iter > 0` |
| Render.WavelengthFor | src/main.rs:103 | `380 + i * 400 / iterations` in `u32`: `None` (a panic) exactly when the budget is 0, `i * 400` overflows, or `380 + i * 400 / iterations` overflows; otherwise the value `w >= 380` with `(w - 380) * iterations <= i * 400 < (w - 379) * iterations`, i.e. 380 plus the rounded-down quotient |
| Render.BeyondSafeBudgetPanics | src/main.rs:103 | the panic-free bound is exact: every larger budget has a count below it for which `i * 400` overflows |
| Render.PixelColor | src/main.rs:102-103 | a pixel's colour is missing (its job panics) when the budget is 0, and present under every panic-free budget |
| Render.WavelengthWithinVisible | src/main.rs:103 | for `i < iterations` under a panic-free budget, `380 + i * 400 / iterations` exists and lies in [380, 780), so the black `_` arm is never reached |
| Render.SourceBudgetIsPanicFree | src/main.rs:73 | with `iterations = 300`, `i * 400` never overflows a `u32` for `i < 300` |
| Render.PixelColorDefined | src/main.rs:102-103 | under a panic-free budget every pixel's colour is `wavelength_to_rgb(380 + julia(...) * 400 / iterations)` |
| Render.RowEventsFrom | src/main.rs:101-110 | a row's events have ascending columns `x, x+1, ...`, the row's `y`, and each pixel's own colour; there are at most `width - x` of them, and exactly `width - x` under a panic-free budget |
| Render.RowEventsStep | src/main.rs:101-110 | a column either panics, which ends the row, or sends its event before the rest of the row |
| Render.EventsUpTo | src/main.rs:98-112 | every event of the first `h` rows is inside the image, has `y < h` and carries its pixel's colour |
| Render.RowJob | src/main.rs:100-111 | the column loop of a row job sends exactly `RowEventsFrom` for its row |
| Render.Dispatch | src/main.rs:98-112 | the row loop, run sequentially with every send delivered, yields the events of all rows in row order |
| Render.RowFrom | src/main.rs:101 | a row's coordinates from column `x` are `(x, y), (x+1, y), ...` up to the width |
| Render.Grid | src/main.rs:98-101 | the row-by-row enumeration has `width * height` coordinates |
| Render.GridMembership | src/main.rs:98-101 | a coordinate is enumerated exactly when it lies in [0, width) x [0, height) |
| Render.GridDistinct | src/main.rs:98-101 | no coordinate is enumerated twice |
| Render.GridAt | src/main.rs:98-101 | pixel `(x, y)` is enumerated at position `y * width + x`, so `x` ascends within each row |
| Render.RowComplete | src/main.rs:101-110 | under a panic-free budget a row job sends every column of its row, in ascending order |
| Render.DispatchCoversGrid | src/main.rs:98-112 | under a panic-free budget the events' coordinates are exactly the row-by-row enumeration |
| Render.DispatchDrawsEveryPixelOnce | src/main.rs:98-112 | under a panic-free budget there are `width * height` events, one for every pixel of the image and none twice, each coloured by the wavelength of its escape count |
| Render.SourceRunDrawsEveryPixelOnce | src/main.rs:72-112 | the source's run (300 x 300, budget 300, `c = -0.8 + 0.156i`) produces exactly 90000 events, covering exactly the pixels of [0, 300) x [0, 300) |

## Left out

- SDL: initialisation, the window, canvas, event pump, custom-event registration and the pixel-draw event sender (src/main.rs:75-92). These are foreign library calls.
- The presentation loop (src/main.rs:114-138) is not modelled. It sets the draw colour, draws points, presents on frame timing and stops on quit or Escape. All of this is I/O against SDL and depends on the wall clock.
- The thread pool (`ThreadPool::new(num_cpus::get() * 2)`, `pool.execute`): `Dispatch` runs the row jobs one after another. The model makes no claim about how events from different rows interleave.
- Dispatch: a failed `push_custom_event` makes the worker sleep for 1/60 s and drop that pixel. The model delivers every event, so it does not capture pixels lost under backpressure.
- `f32` rounding is not modelled. The ramps, the taper factor, the pixel scaling and the complex iteration are exact over `real`, so a real run may differ where rounding moves a value across a threshold.
- Normalize: `powf(0.8)` is the parameter `gamma`. Its properties appear only as hypotheses (`gamma(0) = 0`, `gamma(1) = 1`, monotone on [0, 1]), not as the actual power function.
- Julia: the conversions `u32 as f32` are taken as exact. They are exact only below 2^24.
- Julia: the model requires `width > 0` and `height > 0`. A zero dimension would divide by zero in `f32` and give an infinity or NaN. The source never does this, because the row loop (zero height) or the column loop (zero width) is then empty.
- WavelengthFor: overflow in `i * 400` or `380 + ...`, and a zero budget, are panics (`None`), as in a debug build. The wrap-around of a release build is not modelled.
- RowEventsFrom: a panicking job ends its row. The thread pool's replacement of the dead worker thread is not modelled.
