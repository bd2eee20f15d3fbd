# Spin engine of the roulette screen

This project models the spin engine of the roulette screen
(`src/components/SpinRoulette.tsx`). A click on the spin button raises the
busy flag (`spinning`). If the scroll container is mounted, the click then
draws a prize index from `Math.random()` and computes the scroll offset that
brings that prize under the pointer. It resets the strip to offset 0 and
starts a `requestAnimationFrame` loop. Each frame writes
`target * easeOutQuart(min(elapsed / 4000, 1))` into `scrollLeft`. When
progress reaches 1 the loop stops and schedules a 500 ms `setTimeout`, which
clears the busy flag.

Modules:

- `Wrappers` (`wrappers.dfy`): `Option`, used for the animation's `startTime`.
- `Prizes` (`prizes.dfy`): the `Prize` record, the fixed eight-entry catalog
  and the display strip (the catalog three times over).
- `SpinMath` (`spin_math.dfy`): the pure arithmetic. It covers the index
  draw `floor(r * N)`, the centre offset, the start position and the target
  offset (cell pitch 176). It also covers `Math.pow` for natural exponents,
  the ease-out-quartic curve, the clamped progress clock and the offset one
  frame writes. All of it is over exact `real`.
- `SpinEngine` (`spin_engine.dfy`): the class `Roulette`. Its fields are
  `spinning`, `scrollLeft`, `startTime: Option<real>`, `framePending` and
  `timeoutPending`. It also keeps the delay the pending timeout asked for
  and the session's `randomIndex` and `targetPosition`, which the animation
  closure captures. The host's callbacks are explicit methods:
  `HandleSpin(containerPresent, r, width)` is the button handler, `Tick`
  is one frame callback and `FireTimeout` is the settle timeout. Its
  invariant `Valid()` says:
  - at most one callback is pending;
  - nothing is pending while `spinning` is false;
  - a live session's target is the target of its drawn index;
  - the strip sits at 0 before the first frame;
  - while settling, the strip rests on the target and the timeout delay is 500 ms.
- `SpinScenarios` (`spin_scenarios.dfy`): whole spins driven through the
  class the way the host drives the engine.

Inputs the engine takes from its surroundings become parameters:

- `Math.random()` becomes `r` with `0 <= r < 1`;
- `window.innerWidth` becomes `width`;
- whether `scrollContainerRef.current` is set becomes `containerPresent`;
- frame timestamps become the `currentTime` of `Tick`.

The `if (!startTime)` test is modelled exactly, by `NeedsStart`: a start
time of `null` or of `0` is (re)taken from the current frame.

## Quirks of the code the model keeps

- `setSpinning(true)` (src/components/SpinRoulette.tsx:36) runs before the
  container null check (line 39). A click with no container therefore leaves
  the busy flag raised for the rest of this component's life, with nothing scheduled to lower it, and every
  later click is ignored (`HandleSpin`, `ClickWithoutContainer`).
- There is no empty-catalog check: `Math.floor(r * 0)` is 0 and the spin goes
  ahead. `RandomIndex` returns 0 for `N = 0`, and `HandleSpin` starts the
  animation as usual.
- `targetPosition` (line 45) is the offset of cell `2N + k` less the centre
  offset, measured in whole cell pitches from the strip's origin and
  without its CSS padding. That cell lies in the last copy of the strip and
  shows prize `k` (`TargetShowsDrawnPrize`).

## Model

| member | source | states |
|---|---|---|
| `Prizes.CatalogShape` | src/components/SpinRoulette.tsx:20-29 | the catalog has 8 prizes with pairwise distinct ids and positive star values |
| `Prizes.Catalog` | src/components/SpinRoulette.tsx:20-29 | the eight prizes `(id, icon, stars)` in source order; properties in `CatalogShape` |
| `Prizes.Strip` | src/components/SpinRoulette.tsx:31 | the strip is three times as long as the catalog |
| `Prizes.StripAt` | src/components/SpinRoulette.tsx:31 | strip cell `i` shows catalog entry `i % N`, for every valid `i` |
| `Prizes.StripCopies` | src/components/SpinRoulette.tsx:31 | each third of the strip is the catalog itself |
| `SpinMath.RandomIndex` | src/components/SpinRoulette.tsx:41 | the drawn index is the floor of `r * N`; it lies in `[0, N)` for a non-empty catalog and is 0 for an empty one |
| `SpinMath.RandomIndexReaches` | src/components/SpinRoulette.tsx:41 | every index `k < N` is drawn by some sample in `[0, 1)`, namely `k / N` |
| `SpinMath.CenterOffset` | src/components/SpinRoulette.tsx:43 | `V/2 - 176/2`; value for width 800 in `TargetPositionExample` |
| `SpinMath.StartPosition` | src/components/SpinRoulette.tsx:44 | `N * 176`; value for 8 prizes in `TargetPositionExample` |
| `SpinMath.TargetPosition` | src/components/SpinRoulette.tsx:45 | `N*176 + (N+k)*176 - (V/2 - 88)`; properties in `TargetPositionExample`, `TargetPositionStep`, `TargetPositionIncreasing` and `TargetShowsDrawnPrize` |
| `SpinMath.TargetPositionExample` | src/components/SpinRoulette.tsx:42-45 | with 8 prizes, width 800 and index 3: centre offset 312, start position 1408, target 3032 |
| `SpinMath.TargetPositionStep` | src/components/SpinRoulette.tsx:42-45 | consecutive indices give targets exactly one cell pitch (176) apart |
| `SpinMath.TargetPositionIncreasing` | src/components/SpinRoulette.tsx:42-45 | indices `d` apart give targets `d * 176` apart, so the target strictly increases with the index |
| `SpinMath.TargetShowsDrawnPrize` | src/components/SpinRoulette.tsx:31-45 | measured from the strip's origin without its CSS padding, target plus centre offset is the offset of strip cell `2N + k`; that cell is in the last copy and shows prize `k` |
| `SpinMath.Pow` | src/components/SpinRoulette.tsx:51 | `Math.pow` for a natural exponent, `x^n` by repeated multiplication; properties in `PowOne` and `PowMonotone` |
| `SpinMath.EaseOutQuart` | src/components/SpinRoulette.tsx:51 | `1 - (1-t)^4`; properties in `EaseOutQuartEndpoints`, `EaseOutQuartBounds` and `EaseOutQuartMonotone` |
| `SpinMath.PowOne` | src/components/SpinRoulette.tsx:51 | every power of 1 is 1 |
| `SpinMath.PowMonotone` | src/components/SpinRoulette.tsx:51 | powers of non-negative bases are non-negative and grow with the base |
| `SpinMath.EaseOutQuartEndpoints` | src/components/SpinRoulette.tsx:51 | the easing curve maps 0 to 0 and 1 to 1 |
| `SpinMath.EaseOutQuartBounds` | src/components/SpinRoulette.tsx:51 | on `[0, 1]` the easing curve stays within `[0, 1]` |
| `SpinMath.EaseOutQuartMonotone` | src/components/SpinRoulette.tsx:51 | the easing curve is nondecreasing up to `t = 1` |
| `SpinMath.Progress` | src/components/SpinRoulette.tsx:56 | progress is clamped to at most 1, reaches 1 exactly when 4000 ms have elapsed and is non-negative for non-negative elapsed time |
| `SpinMath.ProgressMonotone` | src/components/SpinRoulette.tsx:56 | progress never decreases as elapsed time grows |
| `SpinMath.ScrollAt` | src/components/SpinRoulette.tsx:55-59 | `target * EaseOutQuart(Progress(elapsed))`, the offset a frame writes; properties in `ScrollAtStart`, `ScrollAtEnd`, `ScrollAtBounds` and `ScrollAtMonotone` |
| `SpinMath.ScrollAtStart` | src/components/SpinRoulette.tsx:55-59 | at elapsed 0 the written offset is 0 |
| `SpinMath.ScrollAtEnd` | src/components/SpinRoulette.tsx:56-59 | from 4000 ms on, the written offset is exactly the target |
| `SpinMath.ScrollAtBounds` | src/components/SpinRoulette.tsx:56-59 | for non-negative elapsed time, the written offset lies between 0 and the target, on whichever side of 0 the target is |
| `SpinMath.ScrollAtMonotone` | src/components/SpinRoulette.tsx:55-59 | as time advances the written offset never moves away from the target: it grows towards a non-negative target and shrinks towards a negative one |
| `SpinEngine.NeedsStart` | src/components/SpinRoulette.tsx:54 | the `!startTime` test: true for a start time of null or 0; used by `Roulette.Tick`, whose ensures re-take the start exactly then |
| `SpinEngine.Roulette.constructor` | src/components/SpinRoulette.tsx:16-18 | a new engine is idle, with the strip at 0 and no start time |
| `SpinEngine.Roulette.HandleSpin` | src/components/SpinRoulette.tsx:33-71 | while busy, nothing changes. Otherwise the busy flag is raised. With no container nothing is scheduled. With a container, the index is `floor(r * N)` and the target is `TargetPosition` of it. The strip is reset to 0, the start time is cleared and exactly one frame is scheduled. The invariant is kept. |
| `SpinEngine.Roulette.Tick` | src/components/SpinRoulette.tsx:53-68 | the first frame takes its timestamp as the start and leaves the strip at 0. Each frame writes `ScrollAt(target, elapsed)`. Below full progress the frame stays the one pending callback. At full progress the frame stops and exactly one 500 ms timeout is scheduled, with the strip exactly on the target. The busy flag and the session are unchanged. |
| `SpinEngine.Roulette.FireTimeout` | src/components/SpinRoulette.tsx:64-66 | the busy flag is cleared, nothing is pending and nothing else changes; this is the only place the flag becomes false |
| `SpinScenarios.FrameApproaches` | src/components/SpinRoulette.tsx:53-62 | a later frame's offset, appended to the earlier frames' offsets, keeps them between 0 and the target and never moving away from the target |
| `SpinScenarios.SpinToCompletion` | src/components/SpinRoulette.tsx:33-71 | a click and then frames in time order spanning at least 4000 ms, then the timeout. The first offset is 0 and the last is the drawn target. The offsets stay between 0 and the target and approach it monotonically, from either side. At most one offset is written per frame, and the engine ends idle. |
| `SpinScenarios.DoubleClick` | src/components/SpinRoulette.tsx:34 | a second click during a spin is ignored: whatever its sample and viewport width, the target stays the one the first click drew |
| `SpinScenarios.ClickWithoutContainer` | src/components/SpinRoulette.tsx:34-39 | a click without a container leaves the engine busy with nothing pending, and a later click with the container mounted still schedules nothing |

## Left out

- Markup, styling, icons and the `<style>` block: presentational only.
- `src/pages/Index.tsx` and `src/components/RouletteModal.tsx` are not part of this model. They hold static catalogs, a tab switch and a view toggle, with no logic beyond plain assignment.
- The `scrollPosition` state (`useState(0)`) is never written, so it is not modelled.
- React state batching, re-renders and stale closures: `setSpinning` is an immediate field write.
- Real-time interleaving of frame and timer callbacks: the host calls `Tick` and `FireTimeout` explicitly, and only while they are pending. The 500 ms delay is recorded as the requested delay. The passage of that time is not modelled.
- IEEE floating point in `Math.pow`, `Math.min`, `Math.floor` and `window.innerWidth / 2`: all arithmetic is exact `real`.
- The uniformity of `Math.random()`: `r` is an arbitrary sample in `[0, 1)`.
- DOM behaviour: the browser clamps `scrollLeft` to the scrollable range. The on-screen alignment also depends on the strip's CSS padding and cell width. Both are layout, not modelled.
