# bunnymark in Dafny

bunnymark is five standalone sprite benchmarks (SDL3 GPU, bgfx with instancing, bgfx with an
index buffer, the SDL renderer, SDL_gpu). Each moves a fixed population of "bunnies" around an
800×600 window and draws them as fast as it can, printing the frame rate once a second. This
project models the per-frame data pipeline the five share, and proves its properties:

- **The bunny simulation** (`bunny.dfy`, module `Bunnies`). Bunnies are created at the window
  centre with velocities drawn from a generator. Each frame moves every bunny by `v * dt`. Then,
  axis by axis, the velocity is negated when the moved coordinate is `< 0` or `> bound - 32`.
  The position is never clamped.
- **The frame clock** (`clock.dfy`, module `FrameClocks`). `dt` is the time since the last tick.
  A `uint32_t` frame counter is reported and reset once more than 1000 ms have passed since the
  last report. The mutable counters are a class, `FrameClock`, proved against a pure
  state-transition function, `NextState`. Lemmas about runs of ticks are stated over that function.
- **One batch encoder per benchmark**, each an imperative fill loop over an array:
  - `sdl3_gpu.dfy`: one 16-float `SpriteInstance` record per bunny in a mapped transfer buffer.
    Also the shader-format priority of `loadShader` and the orthographic camera matrix.
  - `bgfx.dfy`: the static six-vertex base quad, and one `SpriteData` instance record per bunny
    in a freshly allocated instance buffer. Also the renderer-type → shader-directory switch.
  - `bgfx_simple.dfy`: the static 32-bit index buffer built with a wrapping `uint32_t` cursor.
    Also the per-frame fill of four vertices per bunny and the `uint16_t` half extents.
  - `sdl_renderer.dfy`: the fused loop that moves each bunny and writes its six (duplicated)
    vertices through a pre-incremented `int` cursor. Also the draw count.
  - `sdl2_gpu.dfy`: the update loop that issues one blit per bunny.
- `common.dfy` holds the fixed-width integers and their wrap-around, and `Option`/`Result`.
- `quads.dfy` says what it means for six texture coordinates to be two triangles that tile the
  unit square with one winding.

Conventions:

- Coordinates, velocities and `dt` are reals.
- Time points are integers of nanoseconds, and a tick receives the current time as a parameter.
- The random draws are an input sequence.
- The console line `FPS: <n>` is the value a tick returns.
- Each benchmark's `Frame` method composes one iteration of its game loop: tick, move, encode.

Positions are never clamped: the velocity is reflected, so a bunny can overshoot by up to one
frame's displacement (`Bunnies.OvershootBounded`) and can be sent outward again
(`Bunnies.ReflectionCanPointOutward`). No benchmark checks buffer capacity: every buffer is
allocated for exactly the bunny count, and the model requires exactly that size.

## Model

| member | source | states |
|---|---|---|
| Common.Increment | src/bunnymark_bgfx_simple.cpp:200-203 | `++` on `uint32_t` is addition modulo 2^32, so `(uint32_t)-1` steps to 0 |
| Common.NarrowToU16 | src/bunnymark_bgfx_simple.cpp:173-174 | assigning an image size to `uint16_t` keeps it when it fits and is congruent to it modulo 2^16 in general |
| Bunnies.Advance | src/bunnymark_sdl3_gpu.cpp:451-456 | the moved position is old position + `v * dt`; for a non-zero component, the velocity flips exactly when the moved coordinate is `< 0` or `> 768` (x) or `> 568` (y); each component only ever keeps or flips its sign |
| Bunnies.AxesIndependent | src/bunnymark_sdl3_gpu.cpp:455-456 | the x axis depends on `x, vx` only and the y axis on `y, vy` only |
| Bunnies.OvershootBounded | src/bunnymark_sdl3_gpu.cpp:452-455 | there is no clamping: from inside `[0, 768]` a step can leave the range, by at most `|vx * dt|` |
| Bunnies.BounceReturns | src/bunnymark_sdl3_gpu.cpp:452-455 | after a reflection, the next step of equal `dt` returns x to where it was before the reflecting step |
| Bunnies.ReflectionCanPointOutward | src/bunnymark_sdl3_gpu.cpp:455 | the test ignores the direction of travel: a bunny at x = -1 heading inward is turned outward again |
| Bunnies.SpeedPreserved | src/bunnymark_sdl3_gpu.cpp:451-456 | over any sequence of frames, `|vx|` and `|vy|` never change |
| Bunnies.Populate | src/bunnymark_sdl3_gpu.cpp:393-400 | creates exactly `n` bunnies, each at (400, 300), bunny `i` taking draws `2i` and `2i+1` as `vx, vy`; draws in `[-1, 1]` give velocities in `[-1, 1]` |
| Bunnies.Step | src/bunnymark_sdl3_gpu.cpp:451-457 | the by-reference loop replaces every bunny, and only it, by its `Advance` |
| FrameClocks.MillisElapsed | src/bunnymark_sdl3_gpu.cpp:57-60 | the result is the nanosecond difference divided by 10^6, positive exactly when `a > b` |
| FrameClocks.MillisElapsedAdds | src/bunnymark_sdl3_gpu.cpp:57-60 | elapsed times add along the clock |
| FrameClocks.TickMeasuresDt | src/bunnymark_sdl3_gpu.cpp:438-440 | `dt` is the time since the previous tick, and `now` becomes the previous tick |
| FrameClocks.TickReportsIffSecondPassed | src/bunnymark_sdl3_gpu.cpp:443-448 | a tick reports iff more than 1000 ms have passed since the last report; a report carries the incremented (wrapping) count and resets the counter and the report time; otherwise the count is incremented and the report time kept |
| FrameClocks.DtsSumToWallTime | src/bunnymark_sdl3_gpu.cpp:438-440 | the `dt`s of a run of ticks sum to the time between the tick before the run and the last tick |
| FrameClocks.CountsWithinSecond | src/bunnymark_sdl3_gpu.cpp:443-448 | ticks within a second of the last report each add one to the counter, report nothing and keep the report time |
| FrameClocks.ReportCountsFrames | src/bunnymark_sdl3_gpu.cpp:443-448 | from a reset counter, `F` ticks of which only the last is past the second report nothing `F-1` times, then report exactly `F`, and restart the count at that tick |
| FrameClocks.RunAppend | src/bunnymark_sdl3_gpu.cpp:436-448 | a run followed by one more tick is that tick applied to the run's end state, and the reports append |
| FrameClocks.FrameClock.constructor | src/bunnymark_sdl3_gpu.cpp:421-424 | the two time points start at two successive steady-clock readings (the report time no earlier than the tick), `dt` and the counter at 0 |
| FrameClocks.FrameClock.Tick | src/bunnymark_sdl3_gpu.cpp:438-448 | the new counters are `NextState` of the old ones, and the returned report is `FpsReport` of them |
| Sdl3Gpu.EncodedRecord | src/bunnymark_sdl3_gpu.cpp:482-496 | record `i` holds bunny `i`'s x, y, z = 0, rotation 0, the texture size, tex rect (0, 0, 1, 1) and colour (1, 1, 1, 1); only the two padding words keep the buffer's old content |
| Sdl3Gpu.FillSpriteInstances | src/bunnymark_sdl3_gpu.cpp:481-497 | writes exactly records `0 .. n-1`, record `i` encoded from bunny `i`; the bunnies are not modified |
| Sdl3Gpu.PulledRecordsWritten | src/bunnymark_sdl3_gpu.cpp:552-558 | each of the `6n` vertices drawn pulls one of the `n` records written, record `i` by exactly vertices `6i .. 6i+5` |
| Sdl3Gpu.Truncated | src/bunnymark_sdl3_gpu.cpp:78 | `snprintf` into 256 bytes keeps the whole string when it fits and exactly its first 255 characters otherwise |
| Sdl3Gpu.SelectShader | src/bunnymark_sdl3_gpu.cpp:77-92 | the error "Unknown shader format" iff none of SPIR-V, MSL, DXIL is supported; otherwise the first supported of them in that order, with its extension in the path and entry point `main0` for MSL only |
| Sdl3Gpu.SpirvPreferred | src/bunnymark_sdl3_gpu.cpp:77-80 | SPIR-V wins whenever the device supports it |
| Sdl3Gpu.OrthographicMapsViewVolume | src/bunnymark_sdl3_gpu.cpp:37-51 | the matrix maps `[left, right]` and `[bottom, top]` linearly onto `[-1, 1]`, depth onto `(z + zNear) / (zNear - zFar)`, and keeps `w = 1` |
| Sdl3Gpu.CameraMapsWindow | src/bunnymark_sdl3_gpu.cpp:407-414 | the camera sends pixel (0, 0) to clip (-1, 1) and (800, 600) to (1, -1) |
| Sdl3Gpu.Frame | src/bunnymark_sdl3_gpu.cpp:436-558 | one loop iteration: the clock transition, every bunny advanced with the new `dt`, every record encoded from the moved bunny, and `6n` vertices drawn |
| Bgfx.BaseQuadTilesUnitSquare | src/bunnymark_bgfx.cpp:203-210 | the base quad is six vertices whose uv equals their position, and its two triangles tile the unit square with one winding |
| Bgfx.InstanceRecord | src/bunnymark_bgfx.cpp:318-332 | record `i` holds bunny `i`'s x, y, the texture size, rotation 0, tex (0, 0, 1, 1), colour (1, 1, 1, 1), and zero-initialised padding |
| Bgfx.FillInstanceData | src/bunnymark_bgfx.cpp:316-333 | every record of the buffer of `n` is written from the bunny of the same index; the bunnies are not modified |
| Bgfx.ShaderDirectoryDistinguishesLanguages | src/bunnymark_bgfx.cpp:62-89 | the directory is empty exactly for the renderer types without a case; two renderers share a directory exactly when they consume the same shader language (D3D11/D3D12, Agc/Gnm) |
| Bgfx.ShaderPath | src/bunnymark_bgfx.cpp:91 | the file opened is the base directory, then the renderer's directory and `/`, then the name, then `.bin` |
| Bgfx.Frame | src/bunnymark_bgfx.cpp:292-333 | one loop iteration: the clock transition, every bunny advanced, and a fresh instance buffer of exactly `n` records built from the moved bunnies in order |
| BgfxSimple.BuildIndexBuffer | src/bunnymark_bgfx_simple.cpp:199-209 | with the cursor starting at `(uint32_t)-1`, the stores hit slots `0, 1, 2, …` in order, each slot of the `6n` exactly once, and slot `k` holds `4(k/6) + [0,1,2,0,2,3][k%6]` |
| BgfxSimple.IndexWithinSprite | src/bunnymark_bgfx_simple.cpp:202-208 | every index is below `4n`, the vertex count allocated each frame, and sprite `i`'s indices name only vertices `4i .. 4i+3` |
| BgfxSimple.CornerMatchesTexCoord | src/bunnymark_bgfx_simple.cpp:316-319 | each vertex is opaque white and sits where its uv says on the rectangle `bunny ± (hw, hh)`; the uvs are the texture's corners |
| BgfxSimple.IndexedTrianglesTile | src/bunnymark_bgfx_simple.cpp:203-208 | the two triangles the index pattern forms over a sprite's four vertices tile its texture with one winding |
| BgfxSimple.FillVertices | src/bunnymark_bgfx_simple.cpp:312-320 | the `int` cursor from -1 stores to slots `0 .. 4n-1` in order, each exactly once, and bunny `i` fills `data[4i .. 4i+3]` with its four corners |
| BgfxSimple.IndexedVertexOfSprite | src/bunnymark_bgfx_simple.cpp:311-325 | the vertex slot `k` of the index buffer selects is in the vertex buffer and is corner `[0,1,2,0,2,3][k%6]` of bunny `k/6` |
| BgfxSimple.HalfExtent | src/bunnymark_bgfx_simple.cpp:175-176 | `w / 2` on `uint16_t` rounds down: `2r <= w <= 2r + 1` |
| BgfxSimple.HalfOfNarrowedExtent | src/bunnymark_bgfx_simple.cpp:173-176 | for image sizes that fit 16 bits, the half extent is half the size, rounded down |
| BgfxSimple.ShaderPathsDisjoint | src/bunnymark_bgfx_simple.cpp:86 | the two bgfx benchmarks never open each other's shader binaries |
| BgfxSimple.Frame | src/bunnymark_bgfx_simple.cpp:289-320 | one loop iteration: the clock transition, every bunny advanced, and a fresh buffer of exactly `4n` vertices built from the moved bunnies |
| SdlRenderer.HalfExtent | src/bunnymark_sdl_renderer.cpp:80-81 | `w / 2` on `int` truncates toward zero: the remainder `w - 2r` is 0 or 1 for `w >= 0`, 0 or -1 otherwise |
| SdlRenderer.QuadVertexMatchesTexCoord | src/bunnymark_sdl_renderer.cpp:164-169 | each of the six vertices sits where its uv says on `bunny ± (hw, hh)`, with a corner of the texture as uv; vertices 3 and 4 repeat vertices 2 and 1 |
| SdlRenderer.QuadTrianglesTile | src/bunnymark_sdl_renderer.cpp:164-169 | the two triangles of each quad tile its texture with one winding |
| SdlRenderer.WriteQuad | src/bunnymark_sdl_renderer.cpp:164-169 | six pre-increments advance the cursor by 6, filling the next six slots with the quad in order and nothing else |
| SdlRenderer.UpdateAndBuild | src/bunnymark_sdl_renderer.cpp:150-170 | every bunny is advanced; vertex `k` is corner `k%6` of bunny `k/6` at its moved position; the cursor ends at `6n - 1`, so exactly the `6n` slots are written |
| SdlRenderer.DrawCount | src/bunnymark_sdl_renderer.cpp:181 | the draw call's vertex count is six per bunny |
| SdlRenderer.Frame | src/bunnymark_sdl_renderer.cpp:135-185 | one loop iteration: the clock transition, then the fused loop with the new `dt`, then a draw of every vertex written |
| Sdl2Gpu.BlitsOf | src/bunnymark_sdl2_gpu.cpp:114 | one blit per bunny, in order, at the bunny's position |
| Sdl2Gpu.UpdateAndBlit | src/bunnymark_sdl2_gpu.cpp:106-115 | every bunny is advanced in place, and the blits are exactly one per bunny in array order at the moved positions |
| Sdl2Gpu.Frame | src/bunnymark_sdl2_gpu.cpp:91-115 | one loop iteration: the clock transition, then the update-and-blit loop with the new `dt` |

The initialisation loop, the update loop and the frame clock are the same text in all five
benchmarks. For example, the SDL renderer has them at src/bunnymark_sdl_renderer.cpp:96-103,
153-158 and 136-146. `Bunnies.Populate`, `Bunnies.Step`, `Bunnies.Advance` and
`FrameClocks.FrameClock.Tick` model each copy. The bgfx_simple `loadShader` switch
(src/bunnymark_bgfx_simple.cpp:57-84) is the same as the bgfx one, and `Bgfx.ShaderDirectory`
models both.

## Left out

- Window, device, swapchain, pipeline, sampler and texture creation, and their error-cleanup paths: foreign library calls with no logic of their own.
- File I/O in `loadShader` and the PNG load: only the path and format decision is modelled, and the image sizes are parameters.
- The random generator (`std::mt19937`, `std::uniform_real_distribution{-1, 1}`): its output is library-defined, so the draws are an input; the range `[-1, 1]` is a hypothesis (`UnitRange`).
- IEEE float rounding in the bunny step, in `getMillisElapsed` and in the camera matrix: all are real arithmetic here.
- `bx::mtxOrtho` and `bx::mtxLookAt` in the bgfx benchmarks, which are library code.
- Transfer-buffer mapping and cycling, copy/upload passes, submit, present and frame: the mapped or allocated region is a plain array.
- Bgfx.Frame: assumes `allocInstanceDataBuffer` grants all `n` records.
- BgfxSimple.Frame: assumes `allocTransientVertexBuffer` grants all `4n` vertices. The code never checks the granted count.
- The vertex shaders that read the buffers are not part of this model. `Sdl3Gpu.PulledRecordsWritten` states the `vertex / 6` indexing they are written for.
- The event-polling loop and quit handling: UI plumbing. The game loop appears as one `Frame` per iteration.
- Printing: the `FPS: <n>` line is the report a tick returns.
- Sdl3Gpu.OrthographicMapsViewVolume: requires distinct planes, because the float code divides by their differences and yields infinities there.
- BgfxSimple.BuildIndexBuffer: requires `6n <= 2^32`, so that the `uint32_t` cursor and `base` do not wrap within the buffer.
