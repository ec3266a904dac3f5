# BZEmitterLayer, modelled in Dafny

`BZEmitterLayer` is a `CALayer` that turns an image into particles. It:

- samples the pixels of the image's decoded RGBA8 buffer on a stride grid;
- drops transparent pixels, and optionally pure-white or pure-black ones;
- makes one `BZParticle` per kept pixel. The particle has the pixel's colour (or an override colour) and the pixel's position (optionally jittered), plus two random delays;
- on every display-link tick, advances a clock by 0.6. Each draw pass moves every particle whose delay has elapsed from a common start point toward its recentred target along a quadratic ease-in-out curve;
- when every particle has arrived, resets itself (drops the link, zeroes the clock) and tells its delegate.

The project models this core:

- `wrappers.dfy` (`Wrappers`): Swift's optionals.
- `particles.dfy` (`Particles`): the `BZParticle` struct, its `customColor` and `randomPointRange` setters, and the random draws one particle consumes.
- `sampler.dfy` (`Sampler`): what `getRGBAs(from:)` computes, covering:
  - the buffer layout and the strides;
  - the filter and the particle made of each kept pixel;
  - the two stride loops, written once for any pixel test `keep` and particle maker `make`, then instantiated with the layer's own (`Keep`, `Make`);
  - which pixels are kept, in which order, and how many.
- `easing.dfy` (`Easing`): `easeInOutQuad` on exact rationals, and its endpoint, midpoint and range facts.
- `draw_pass.dfy` (`DrawPass`): one pass of `draw(in:)` as values: the clamped local time, the eased rectangle, the arrived count, and what completion means.
- `emitter_layer.dfy` (`Emitter`): the layer as a class, with:
  - its settings, clock, optional display link (Stopped / Paused / Running) and particle array;
  - the stride loops as methods;
  - `getRGBAs`, the `image` setter, the tick, the draw pass with its completion effect, and `pause`, `resume`, `reset`, `restart`.

Randomness is a parameter. `draws(k)` is the set of `arc4random_uniform` results consumed by the k-th emitted particle: the two delays, then one jitter value per axis. `DrawsFit` bounds each result as `arc4random_uniform` does, and a bound of 0 yields 0. CGFloat is modelled as an exact `real`: the clock step 0.6 is exactly 3/5 and `pow(x, 2)` is `x * x`.

Behaviour of the code worth noting:

- Completion calls `reset()`, which invalidates and drops the display link. The layer is therefore left Stopped with its clock at 0; there is no automatic restart of the cycle.
- `emitterAnimation` adds 0.6 to the clock whatever the state of the link. The code has no "not running" guard; the link simply stops calling it.
- Assigning `nil` to `image` keeps the old particles, and a draw pass that then reaches a particle whose delay has elapsed traps on `image!`. The draw pass therefore requires that no particle is due while there is no image; the model does not skip the draw pass silently.
- `UInt32(value) * 2` in the `randomPointRange` setter traps when the range is 2^31 or more; the code reaches it only once a pixel is kept, so an image that keeps no pixel samples to no particles whatever the range. The model requires `randomPointRange < 2^31` (and `maxParticleCount` to be a UInt32) for every sampled image, including one that keeps no pixel.
- `maxParticleCount` is documented as the maximum number of particles per row, but the steps `W / m` and `H / m` round down. A nonzero maximum `m` therefore does not cap a row (or a column) at `m` particles: the cap is `2 * m - 1` (`StrideBound`, `RowParticleBound`), and it is exceeded already for `W = 3`, `m = 2` (`RowCapExceeded`).
- A nonzero `maxParticleCount` larger than the width or height gives a stride of 0, which traps in `stride(from:to:by:)`. Sampling therefore requires both strides to be positive. `CanStrideIff` says exactly when they are.

## Model

| member | source | states |
|---|---|---|
| Particles.UInt32Of | BZEmitter/BZEmitterLayer.swift:30-31 | `UInt32(value)` truncates toward zero and fits in 32 bits; non-positive values give 0. |
| Particles.CustomColor | BZEmitter/BZEmitterLayer.swift:22-24 | The `customColor` getter: no ensures; it always answers the current colour. `CustomColorRoundTrip` and `SetCustomColor` state what it reads after a setting. |
| Particles.SetCustomColor | BZEmitter/BZEmitterLayer.swift:16-25 | After the setter, the getter reads the new colour if one was given, else the old one; point and delays are unchanged. |
| Particles.CustomColorRoundTrip | BZEmitter/BZEmitterLayer.swift:16-25 | A colour set is the colour read back; setting nil leaves the particle as it was; the later of two settings wins. |
| Particles.SetRandomPointRange | BZEmitter/BZEmitterLayer.swift:26-33 | A zero or nil range leaves the particle unchanged; a nonzero range `v` moves each axis to `p - v + r` with `r` that axis's draw; colour and delays are never touched. |
| Particles.JitterWithinRange | BZEmitter/BZEmitterLayer.swift:26-33 | A positive range `v` moves each axis into `[p - v, p + v)`; below 1 the truncated bound is 0 and the point moves by exactly `-v`. |
| Sampler.StepX | BZEmitter/BZEmitterLayer.swift:137 | `addX`: no ensures; 1 without a maximum, otherwise `W / maxParticleCount` in integer division. `CanStrideIff` states when it is positive. |
| Sampler.StepY | BZEmitter/BZEmitterLayer.swift:136 | `addY`: no ensures; 1 without a maximum, otherwise `H / maxParticleCount`. `CanStrideIff` states when it is positive. |
| Sampler.ByteIndex | BZEmitter/BZEmitterLayer.swift:143 | `byteIndex = bytesPerRow * y + bytesPerPixel * x`: no ensures. `RowStartIs` and `ByteIndexInBounds` state its value and bounds. |
| Sampler.PixelColor | BZEmitter/BZEmitterLayer.swift:143-147 | The four bytes at `byteIndex` divided by 255: no ensures. `SkippedIffBytes` restates the filter on it in bytes, and `SampleParticles` uses it as the particle colour. |
| Sampler.Skipped | BZEmitter/BZEmitterLayer.swift:149 | The filter on the sampled colour: no ensures. `SkippedIffBytes` states it on bytes; `KeptPixels` and `SampleEveryPixel` state which pixels it keeps. |
| Sampler.Keep | BZEmitter/BZEmitterLayer.swift:143-151 | The layer's pixel test (inside the image and not skipped): no ensures. `KeptPixels` states what it keeps. |
| Sampler.Make | BZEmitter/BZEmitterLayer.swift:152-160 | The layer's particle maker (`NewParticle` of the pixel's colour with draw `k`): no ensures. `SampleParticles` states its particles. |
| Sampler.RowFrom | BZEmitter/BZEmitterLayer.swift:142-162 | The particles of one row, for any test and maker: no ensures. `RowMatchesKept` ties it to `KeptRowFrom`, and `Emitter.ScanRow` is proved equal to it. |
| Sampler.ScanFrom | BZEmitter/BZEmitterLayer.swift:141-163 | The particles of all visited rows, for any test and maker: no ensures. `ScanMatchesKept` ties it to `KeptFrom`, and `Emitter.ScanImage` is proved equal to it. |
| Sampler.KeptRowFrom | BZEmitter/BZEmitterLayer.swift:142-151 | The pixels one row keeps: no ensures. `KeptRowMembers`, `KeptRowOrder` and `KeptRowCount` state what, in which order and how many. |
| Sampler.KeptFrom | BZEmitter/BZEmitterLayer.swift:141-151 | The pixels all visited rows keep: no ensures. `KeptMembers`, `KeptOrder` and `KeptCount` state what, in which order and how many. |
| Sampler.Sample | BZEmitter/BZEmitterLayer.swift:123-166 | The value `getRGBAs` returns: no ensures. `SampleParticles`, `SampleCount` and `SampleEveryPixel` state its properties, and `Emitter.EmitterLayer.GetRGBAs` is proved equal to it. |
| Sampler.Kept | BZEmitter/BZEmitterLayer.swift:141-151 | The kept pixels in visiting order: no ensures. `KeptPixels` states exactly which they are and their order. |
| Sampler.RowStartIs | BZEmitter/BZEmitterLayer.swift:128-130 | Row `y` starts at byte `bytesPerRow * y = 4 * W * y`, so the buffer is `H * W * 4` bytes. |
| Sampler.ByteIndexInBounds | BZEmitter/BZEmitterLayer.swift:143-147 | For every pixel inside the image, the four bytes at `byteIndex ... byteIndex + 3` lie inside the buffer. |
| Sampler.SkippedIffBytes | BZEmitter/BZEmitterLayer.swift:144-151 | The filter on components `/ 255.0` holds iff alpha is 0, or (ignoredWhite) R = G = B = 255, or (ignoredBlack) R = G = B = 0. |
| Sampler.NewParticle | BZEmitter/BZEmitterLayer.swift:152-160 | The particle's colour is the custom colour if set, else the sampled one; its delays are the draws, below 30 and 10; its point is `(x, y)`, or each axis `p - v + r` when `v > 0`. |
| Sampler.CanStrideIff | BZEmitter/BZEmitterLayer.swift:136-137 | Both strides are positive iff `maxParticleCount` is 0 or at most both W and H. |
| Sampler.KeptRowMembers | BZEmitter/BZEmitterLayer.swift:142-151 | A row keeps exactly the columns on its stride, below W, that pass the test. |
| Sampler.KeptMembers | BZEmitter/BZEmitterLayer.swift:141-151 | A pixel is kept iff its row and column are on the stride grid inside the image and it passes the test. |
| Sampler.KeptRowOrder | BZEmitter/BZEmitterLayer.swift:142-151 | A row's kept pixels lie in that row, inside the image, strictly left to right. |
| Sampler.KeptOrder | BZEmitter/BZEmitterLayer.swift:141-163 | All kept pixels lie inside the image in strict row-major order, so none occurs twice. |
| Sampler.KeptRowCount | BZEmitter/BZEmitterLayer.swift:142 | A row keeps at most `ceil((W - x) / step)` pixels. |
| Sampler.KeptCount | BZEmitter/BZEmitterLayer.swift:136-142 | At most `ceil((H - y) / addY) * ceil(W / addX)` pixels are kept from row `y` on. |
| Sampler.RowMatchesKept | BZEmitter/BZEmitterLayer.swift:142-161 | A row's particles are, one for one and in order, its kept pixels, the i-th made with draw `k + i`. |
| Sampler.ScanMatchesKept | BZEmitter/BZEmitterLayer.swift:141-163 | The same for all rows: the i-th particle appended is made of the i-th kept pixel with draw `k + i`. |
| Sampler.KeptPixels | BZEmitter/BZEmitterLayer.swift:136-151 | The kept pixels are exactly the in-image grid pixels (column a multiple of `addX`, row a multiple of `addY`) whose bytes pass the filter, in row-major order. |
| Sampler.SampleParticles | BZEmitter/BZEmitterLayer.swift:123-166 | The i-th particle returned is `NewParticle` of the i-th kept pixel, its sampled colour and draw `i`. So it has the custom colour if set, else the pixel's colour, and delays below 30 and 10. Its point is `(x, y)`, or within the jitter range of it when the range is positive. |
| Sampler.SampleCount | BZEmitter/BZEmitterLayer.swift:136-163 | At most `ceil(H / addY) * ceil(W / addX)` particles are returned. |
| Sampler.StrideBound | BZEmitter/BZEmitterLayer.swift:136-142 | For `1 <= m <= n`, the step `n / m` is positive and the positions visited on that axis, `ceil(n / (n / m))`, number at most `2 * m - 1`. |
| Sampler.RowParticleBound | BZEmitter/BZEmitterLayer.swift:137-142 | With a nonzero maximum `m <= W`, a row keeps at most `2 * m - 1` pixels, whatever the filter. |
| Sampler.SampleCountMax | BZEmitter/BZEmitterLayer.swift:136-163 | With a nonzero maximum `m`, `getRGBAs` returns at most `(2 * m - 1) * (2 * m - 1)` particles. |
| Sampler.RowCapExceeded | BZEmitter/BZEmitterLayer.swift:55 | The documented "maximum particles per row" is exceeded: with `maxParticleCount == 2` and a 3-pixel-wide image the step is 1, and a row whose pixels all pass keeps 3 pixels. |
| Sampler.SampleEveryPixel | BZEmitter/BZEmitterLayer.swift:136-163 | With `maxParticleCount == 0` both strides are 1, and exactly the pixels passing the filter are kept, each once, in row-major order. |
| Emitter.ScanRow | BZEmitter/BZEmitterLayer.swift:142-162 | The inner stride loop appends exactly the row's particles, in order, numbering the draws from `k`. |
| Emitter.ScanImage | BZEmitter/BZEmitterLayer.swift:141-163 | The two stride loops return exactly the particles of every visited row, in order, with draws numbered from 0. |
| Emitter.EmitterLayer.GetRGBAs | BZEmitter/BZEmitterLayer.swift:123-166 | With the layer's current settings, `getRGBAs` returns the sample that the `Sampler` lemmas describe. |
| Emitter.EmitterLayer.constructor | BZEmitter/BZEmitterLayer.swift:49-76 | A new layer has default settings, zero bounds, no image, no particles, the clock at 0, duration 2 and a running link. |
| Emitter.EmitterLayer.SetImage | BZEmitter/BZEmitterLayer.swift:56-62 | A non-nil image replaces the particles with its sample under the current settings; nil keeps the old particles. |
| Emitter.EmitterLayer.EmitterAnimation | BZEmitter/BZEmitterLayer.swift:82-85 | A tick adds exactly 0.6 to the clock and changes nothing else. |
| Emitter.EmitterLayer.DrawParticles | BZEmitter/BZEmitterLayer.swift:88-105 | The loop draws exactly `Frame` (one eased rectangle per due particle, in order) and counts exactly the arrived particles. |
| Emitter.EmitterLayer.Draw | BZEmitter/BZEmitterLayer.swift:87-110 | When the count equals the particle count, the layer ends Stopped with clock 0 and the delegate (if any) is told. Otherwise link and clock are unchanged. |
| Emitter.EmitterLayer.Pause | BZEmitter/BZEmitterLayer.swift:168-170 | An existing link becomes paused; without a link nothing changes; the clock is untouched. |
| Emitter.EmitterLayer.Resume | BZEmitter/BZEmitterLayer.swift:172-174 | An existing link becomes unpaused (Running); without a link nothing changes; the clock is untouched. |
| Emitter.EmitterLayer.Reset | BZEmitter/BZEmitterLayer.swift:176-180 | From any state: no link (Stopped) and the clock at 0. |
| Emitter.EmitterLayer.Restart | BZEmitter/BZEmitterLayer.swift:182-186 | From any state: a fresh unpaused link (Running) and the clock at 0. |
| Easing.EaseInOutQuad | BZEmitter/BZEmitterLayer.swift:112-120 | `easeInOutQuad`: no ensures. `EaseStart`, `EaseEnd`, `EaseMidpoint`, `EaseProgress` and `EaseBetween` state its properties. |
| Easing.EaseStart | BZEmitter/BZEmitterLayer.swift:112-120 | At time 0 the curve is at `begin`. |
| Easing.EaseEnd | BZEmitter/BZEmitterLayer.swift:112-120 | At time `duration` the curve is exactly at `end`. |
| Easing.EaseMidpoint | BZEmitter/BZEmitterLayer.swift:112-120 | At `duration / 2` the curve is half-way, and the two branches agree there. |
| Easing.Progress | BZEmitter/BZEmitterLayer.swift:115-119 | The fraction of the distance covered at normalised time `u` in [0, 2] lies in [0, 1]. |
| Easing.EaseProgress | BZEmitter/BZEmitterLayer.swift:112-120 | Within the duration the position is `begin + (end - begin) * Progress(u)` with `u = t / (d / 2)` in [0, 2]. |
| Easing.EaseBetween | BZEmitter/BZEmitterLayer.swift:112-120 | Within the duration the position stays between `begin` and `end`. |
| DrawPass.Waiting | BZEmitter/BZEmitterLayer.swift:90-92 | A particle whose delay has not elapsed is skipped: no ensures. `FrameMatchesVisible` states that nothing is drawn for it. |
| DrawPass.Arrived | BZEmitter/BZEmitterLayer.swift:93-96 | The unclamped local time is strictly past the particle's duration: no ensures. `LocalTime`, `CompleteIffAllArrived` and `ArrivalPersists` state its meaning. |
| DrawPass.EndPoint | BZEmitter/BZEmitterLayer.swift:98-99 | The recentred target `point + bounds / 2 - imageDim / 2` (integer halves): no ensures. `ArrivedAtEndPoint` and `DotBetween` state where particles are drawn relative to it. |
| DrawPass.DotOf | BZEmitter/BZEmitterLayer.swift:98-101 | The eased rectangle of one due particle: no ensures. `StartsAtBeginPoint`, `ArrivedAtEndPoint` and `DotBetween` state its position. |
| DrawPass.Frame | BZEmitter/BZEmitterLayer.swift:88-105 | The rectangles of one pass: no ensures. `FrameMatchesVisible` states them, and `Emitter.EmitterLayer.DrawParticles` is proved equal to it. |
| DrawPass.ArrivedCount | BZEmitter/BZEmitterLayer.swift:88-97 | The final `count` of a pass: no ensures. `CompleteIffAllArrived`, `NoneArrivedAtStart` and `AllArrivedLate` state its properties. |
| DrawPass.LocalTime | BZEmitter/BZEmitterLayer.swift:93-97 | Local time is `animationTime - delayTime` clamped to `[0, duration + delayDuration]`, and clamped exactly when the particle has arrived. |
| DrawPass.FrameMatchesVisible | BZEmitter/BZEmitterLayer.swift:89-101 | A pass draws one rectangle per particle whose delay has elapsed, in order, and none for the others. |
| DrawPass.CompleteIffAllArrived | BZEmitter/BZEmitterLayer.swift:94-106 | The count is at most the particle count and equals it iff every particle has arrived. |
| DrawPass.ArrivedAtEndPoint | BZEmitter/BZEmitterLayer.swift:93-99 | Once the local time reaches `duration + delayDuration` (equal included, though only strictly past counts as arrived), the particle is due and drawn exactly at its recentred end point. |
| DrawPass.StartsAtBeginPoint | BZEmitter/BZEmitterLayer.swift:90-99 | When its delay has just elapsed, a particle is drawn at `beginPoint`. |
| DrawPass.DotBetween | BZEmitter/BZEmitterLayer.swift:93-99 | A drawn particle lies in the box spanned by `beginPoint` and its end point. |
| DrawPass.NoneArrivedAtStart | BZEmitter/BZEmitterLayer.swift:106-107 | At clock 0 nothing has arrived, so a pass right after a reset completes only with no particles. |
| DrawPass.AllArrivedLate | BZEmitter/BZEmitterLayer.swift:94-106 | With delays below 30 and 10, every particle has arrived once the clock passes `duration + 29 + 9`, so the pass completes. |
| DrawPass.ArrivalPersists | BZEmitter/BZEmitterLayer.swift:94-96 | Once arrived, a particle stays arrived as the clock moves forward. |

## Left out

- Rendering: `setNeedsDisplay`, `addRect`, `setFillColor`, `fillPath` and reading the UIColor components. A draw pass returns the rectangles (colour, x, y) it would fill.
- The CADisplayLink run loop: the link is only its presence and its `isPaused` flag, and ticks happen when the caller calls `EmitterAnimation`.
- Image decoding: `UIImage`/`CGImage`, `CGContext.draw` into the buffer, `calloc` and `free`. The premultiplied RGBA8 bytes, W and H are inputs.
- `arc4random_uniform`: its results are the parameter `draws`, bounded by `DrawsFit`.
- IEEE floating-point rounding of CGFloat and `pow`: arithmetic is exact on rationals.
- The `BZParticle` setters mutate a value type in place; they are modelled as functions that return the updated struct, which is the same thing without aliasing.
- The getter of a particle's `randomPointRange`, which always answers 0, is not modelled.
- `easeInOutQuad` with a zero duration divides by zero (IEEE infinity or NaN); every lemma and the function require a nonzero duration. The layer's durations are at least 2.
- The delegate is only whether one is set; what it does on `emitterLayerEndAnimation` is not modelled.
- The layer's filters, custom colour, range and maximum are plain fields with no setter methods; as in the code, changing them has no effect until the next image assignment. `beginPoint` is a plain field too, read by every draw pass.
- Sampler.Sample: requires `randomPointRange < 2^31` even for an image that keeps no pixel, where the code would not reach the overflowing `UInt32(value) * 2`; the model does not cover sampling such an image with a larger range.
- Sampler.SampleParticles: requires `randomPointRange < 2^31` even for an image that keeps no pixel, where the code would not reach the overflowing `UInt32(value) * 2`; the model does not cover sampling such an image with a larger range.
- Sampler.SampleCount: requires `randomPointRange < 2^31` even for an image that keeps no pixel, where the code would not reach the overflowing `UInt32(value) * 2`; the model does not cover sampling such an image with a larger range.
- Sampler.SampleCountMax: requires `randomPointRange < 2^31` even for an image that keeps no pixel, where the code would not reach the overflowing `UInt32(value) * 2`; the model does not cover sampling such an image with a larger range.
- Emitter.EmitterLayer.GetRGBAs: requires `randomPointRange < 2^31` even for an image that keeps no pixel, where the code would not reach the overflowing `UInt32(value) * 2`; the model does not cover sampling such an image with a larger range.
- Emitter.EmitterLayer.SetImage: requires `randomPointRange < 2^31` even for an image that keeps no pixel, where the code would not reach the overflowing `UInt32(value) * 2`; the model does not cover sampling such an image with a larger range.
- BZEmitter/ViewController.swift is not part of this model: it only configures a layer for display.
