# Fractal flames: kernel generator, frame scheduler and GPU bindings

This project models the host side of a browser fractal-flame renderer. The
renderer draws an iterated function system (IFS) with the "chaos game" on
the GPU. The model covers three parts of it:

- **The kernel generator** (`src/lib/math.ts`). `prefixSums` turns the
  normalised weights of the functions into a cumulative distribution.
  `toShader` emits one affine-plus-variation transform per function. It also
  emits a dispatcher loop of 10000 iterations: each iteration draws `r` and
  takes the first `else if (r < P_i)` arm. `color_pixel` is called only after 20
  warm-up iterations. The model keeps the kernel as a structure
  (`FlameMath.Kernel`: transforms, iteration constants, and branches
  `(threshold, name, params, color)`) with a `Select(r)` function. Each
  transform keeps its exact text from the template, and a parser proves
  that text round-trips.
- **The frame scheduler and the one-shot clear latch** (`src/lib/flames.ts`).
  `init` creates the buffers, orders the resources, sizes the workgroups of
  every compute pass, and subscribes a latch to the `CLEAR` store. `Flames.Renderer`
  is that object. Its `Frame` writes the uniform block first. It then
  encodes the clear pass (resetting the latch) or the average pass, then
  the flame, filter and fullscreen passes, and submits them. `Flames.Run`
  is the latch as a state machine over a sequence of events, and `Frame`
  is proved to follow it.
- **Sizing and binding** (`src/lib/wgpu.ts`). Storage buffers take `4 *
  product(dims)` bytes and uniform buffers `4 * num_params` bytes. The
  uniform block has a fixed field order. Compute layouts keep each buffer's
  binding type and render layouts map `storage` to `read-only-storage`.
  Binding `i` is always resource `i`.

The WebGPU device is a recorder (`Wgpu.Device`): it logs the buffers created,
the buffer writes and the submitted command lists. Each pass appends to a
`Wgpu.CommandEncoder` the record of what it hands to the device: shader,
entry points, layout entries, bind-group entries, and the workgroup or draw
counts.

The scaled weights and thresholds are `Numbers.Num`: exact reals plus the
two infinities and NaN, so the scaled weights `w / totalWeight`, and so
the thresholds, are modelled for every total, a zero total included. Weights, parameters
and colours are exact reals, so normalisation is exact.

`toShader` validates nothing: an empty list yields a kernel with no
transforms and no arms (`FlameMath.EmptyListKernel`). The `else if` chain
has no final `else`, so a draw that no arm takes applies nothing
(`FlameMath.NoFallback`).

## Model

| member | source | states |
|---|---|---|
| FlameMath.Prefix | src/lib/math.ts:68-74 | the prefix sums have the input's length, start with the first input, and each later element is the previous one plus the input at that index |
| FlameMath.PrefixSums | src/lib/math.ts:68-74 | `prefixSums` returns a fresh array (the input is not modified) whose contents are the prefix sums of the input |
| FlameMath.PrefixOfReals | src/lib/math.ts:69-72 | on finite inputs, element `i` of the prefix sums is the sum of inputs `0..i` |
| FlameMath.PrefixLast | src/lib/math.ts:68-74 | the last prefix sum is the total sum |
| FlameMath.PrefixNondecreasing | src/lib/math.ts:68-74 | for non-negative inputs the prefix sums are finite and non-decreasing |
| FlameMath.TotalWeight | src/lib/math.ts:79 | the total weight is 0 for no functions and positive when every weight is |
| FlameMath.SumPositive | src/lib/math.ts:79 | a non-empty sum of positive weights is positive |
| FlameMath.Scaled | src/lib/math.ts:80 | one scaled weight per function: `w_i / total` exactly when the total is non-zero, and a non-finite value (an infinity or NaN) for every function when it is zero |
| FlameMath.SumDividedBy | src/lib/math.ts:79-80 | dividing every weight by the total divides their sum by the total |
| FlameMath.NormalisedWeights | src/lib/math.ts:79-81 | with positive weights the total is positive, every scaled weight `w_i / total` is finite and positive, and the scaled weights sum to 1 |
| FlameMath.CdfShape | src/lib/math.ts:79-81 | with positive weights the cumulative distribution runs from 0 to 1, strictly increases, and its step `i` is `w_i / total` |
| FlameMath.ThresholdIsCdf | src/lib/math.ts:81 | the threshold of arm `i` is the cumulative normalised weight of functions `0..i` |
| FlameMath.ToShader | src/lib/math.ts:76-101 | the kernel runs 10000 iterations with 20 warm-up ones; it has one transform and one arm per function, in list order; arm `i` calls function `i` by name with its first six parameters in order (missing ones are `undefined`) and colours with its colour |
| FlameMath.Select | src/lib/math.ts:89-97 | the else-if chain takes the first arm whose threshold exceeds `r`, and takes none exactly when no threshold does |
| FlameMath.SelectIffBucket | src/lib/math.ts:89-97 | with positive weights and `r >= 0`, arm `i` is taken if and only if `r` lies in the bucket `[P_(i-1), P_i)` |
| FlameMath.SelectInBucket | src/lib/math.ts:89-97 | for strictly increasing thresholds, the chain takes arm `i` exactly when `r` is below threshold `i` and not below threshold `i - 1` |
| FlameMath.SelectTotal | src/lib/math.ts:89-97 | with positive weights every draw in `[0, 1)` takes some arm |
| FlameMath.NoFallback | src/lib/math.ts:89-97 | a draw of 1 or more takes no arm: there is no fallback function |
| FlameMath.EmptyListKernel | src/lib/math.ts:76-101 | an empty function list yields no transforms and no arms, and no draw takes an arm |
| FlameMath.Contributions | src/lib/math.ts:88-97 | no more `color_pixel` calls than iterations, each for an arm of the kernel and with that arm's colour |
| FlameMath.WarmupColorsNothing | src/lib/math.ts:94-96 | the first 20 iterations make no `color_pixel` call |
| FlameMath.ContributionCountOf | src/lib/math.ts:88-96 | when every draw takes an arm, the number of `color_pixel` calls is the number of iterations after the warm-up |
| FlameMath.ContributionsAreSelections | src/lib/math.ts:88-96 | when every draw takes an arm, the `j`-th `color_pixel` call is made by iteration `warmup + j` (20 in the generated kernel), for the arm the `else if` chain selects for that iteration's draw |
| FlameMath.ContributionCount | src/lib/math.ts:88-96 | with positive weights and draws in `[0, 1)`, the number of a walker's `color_pixel` calls is the number of iterations after the first 20 |
| FlameMath.FullRunContributions | src/lib/math.ts:77-78 | a full run of 10000 iterations makes 9980 `color_pixel` calls |
| FlameMath.ContributionColors | src/lib/math.ts:95 | every `color_pixel` call passes the colour of the function that was applied |
| FlameMath.FunctionToShader | src/lib/math.ts:57-65 | the transform text of a function (whose name has no parenthesis) parses back to its name and to its variation's `dataX, dataY` |
| FlameMath.EmitParseTransform | src/lib/math.ts:57-65 | any text the parser accepts is exactly the template filled with the name and result it parsed |
| FlameMath.UnfillFill | src/lib/math.ts:58-65 | for any template whose text after the name starts with `(`, reading back a filled template gives the name and result that filled it |
| FlameMath.FillUnfill | src/lib/math.ts:58-65 | for any template, a text the reader accepts is the template filled with what it read |
| Numbers.Add | src/lib/math.ts:71 | JavaScript addition: finite exactly when both operands are finite, the exact sum then, and NaN when either is NaN |
| Numbers.Div | src/lib/math.ts:80 | JavaScript division: the exact quotient for a non-zero divisor; by zero, an infinity of the numerator's sign or NaN for 0/0 |
| Wgpu.ToBytes | src/lib/wgpu.ts:12-25 | `toBytes` yields 7 values, and value `k` is the field named by `UNIFORM_KEYS[k]` |
| Wgpu.UniformKeysDistinct | src/lib/wgpu.ts:25 | the 7 uniform keys are pairwise distinct |
| Wgpu.ToBytesInjective | src/lib/wgpu.ts:12-22 | two uniform blocks with the same bytes are equal |
| Wgpu.Product | src/lib/wgpu.ts:40 | the element count `dims.reduce((a, b) => a * b, 1)` is 1 for no dimensions, the dimension itself for one, and zero exactly when some dimension is zero |
| Wgpu.ProductAppend | src/lib/wgpu.ts:40 | the element count of concatenated dimensions is the product of the two counts |
| Wgpu.ProductNonNegative | src/lib/wgpu.ts:40 | non-negative dimensions give a non-negative element count, which is zero exactly when some dimension is zero |
| Wgpu.ComputeBuffer.constructor | src/lib/wgpu.ts:38-46 | the buffer takes `4 * product(dims)` bytes, binds as `storage`, and is created with usage STORAGE and COPY_SRC as the next device handle |
| Wgpu.UniformBuffer.constructor | src/lib/wgpu.ts:54-61 | the buffer takes `4 * num_params` bytes, binds as `uniform`, and is created with usage UNIFORM and COPY_DST |
| Wgpu.UniformBuffer.Write | src/lib/wgpu.ts:63-69 | writing appends one write of the uniform bytes at offset 0 of this buffer to the device log |
| Wgpu.UniformWriteFits | src/lib/wgpu.ts:54-69 | a uniform buffer sized by `UNIFORM_KEYS.length` holds exactly the bytes `toBytes` writes |
| Wgpu.ComputeLayout | src/lib/wgpu.ts:91-101 | one compute-visible entry per resource; entry `i` has binding `i` and the resource's type |
| Wgpu.ReadOnlyView | src/lib/wgpu.ts:162 | the render view of a binding type is never `storage`, and any other type is unchanged |
| Wgpu.RenderLayout | src/lib/wgpu.ts:156-166 | one fragment-visible entry per resource; entry `i` has binding `i` and the resource's type with `storage` read-only |
| Wgpu.BindGroupEntries | src/lib/wgpu.ts:112-120 | one bind entry per resource; entry `i` pairs binding `i` with buffer `i` |
| Wgpu.BindGroupsMatchLayouts | src/lib/wgpu.ts:112-120 | the bind group matches both the compute and the render layout, binding for binding |
| Wgpu.RenderLayoutFromCompute | src/lib/wgpu.ts:156-166 | a render entry keeps the compute entry's binding; its type is `read-only-storage` exactly when the compute type is `storage` or `read-only-storage`, and any type other than `storage` is unchanged |
| Wgpu.ComputePass.constructor | src/lib/wgpu.ts:83-87 | a compute pass keeps the shader, entry point and workgroup counts it is given |
| Wgpu.ComputePass.EncodePass | src/lib/wgpu.ts:89-125 | encoding appends one compute record: this pass's shader, entry point and workgroups, the compute layout and the bind group |
| Wgpu.RenderPass.constructor | src/lib/wgpu.ts:135-140 | a render pass keeps the shader, both entry points and the presentation format it is given |
| Wgpu.RenderPass.EncodePass | src/lib/wgpu.ts:144-203 | encoding appends one render record: the shader with both entry points, the target format, a colour attachment on the view cleared to opaque black and stored, a triangle list, the render layout, the bind group, and a draw of 6 vertices and 1 instance from vertex 0 and instance 0 |
| Flames.CeilDiv | src/lib/flames.ts:177-193 | the workgroup count is the least number of tiles that covers the work |
| Flames.ImageBytes | src/lib/flames.ts:151-159 | an image buffer of dimensions `[4, H, W]` takes `16 * H * W` bytes |
| Flames.InitDispatch | src/lib/flames.ts:114-146 | in the kernel `init` builds, draws in `[0, 5/6)` apply `f1` and draws in `[5/6, 1)` apply `f2` |
| Flames.Schedule | src/lib/flames.ts:229-241 | a frame encodes 4 passes, exactly one of clear and average (clear exactly when the latch is set), then flame, filter and fullscreen |
| Flames.Run | src/lib/flames.ts:202-234 | one encoded frame per call of `frame`, each the schedule for a set or a clear latch; with the latch clear and no `CLEAR.set(true)`, every frame averages |
| Flames.LatchAfter | src/lib/flames.ts:202-234 | the latch is set only if it started set or some `CLEAR.set(true)` happened, and it is clear after a frame |
| Flames.RunAppend | src/lib/flames.ts:202-234 | the frames of two event sequences in turn are the frames of the first, then those of the second run from the latch the first leaves |
| Flames.LatchAfterAppend | src/lib/flames.ts:202-234 | the latch after two event sequences in turn is the latch the second leaves, starting from the latch the first leaves |
| Flames.TicksAppend | src/lib/flames.ts:208-256 | the frames of two event sequences add up |
| Flames.LatchAfterLast | src/lib/flames.ts:202-234 | the latch is the last `CLEAR` value set, or false once a frame has run after it |
| Flames.ClearsIffLatched | src/lib/flames.ts:229-234 | the frame after any events clears exactly when the latch those events leave is set |
| Flames.OneShot | src/lib/flames.ts:229-234 | of two frames with no request between them, the second runs the average pass |
| Flames.ClearsBounded | src/lib/flames.ts:202-234 | there are never more clearing frames than `CLEAR.set(true)` requests, plus one for a latch already set |
| Flames.InitResources | src/lib/flames.ts:151-169 | the five buffers `init` creates have distinct handles, and each was created with a usage that permits both its compute binding and its render binding |
| Flames.CreateBuffers | src/lib/flames.ts:151-169 | `init` creates three `[4, H, W]` image buffers of `16 * H * W` bytes, a 4-byte max-hits buffer and a 28-byte uniform buffer, in that order, and orders them flame, average, output, uniform, max-hits; the five handles are distinct and each buffer's usage permits its compute and render binding |
| Flames.CreatePasses | src/lib/flames.ts:177-200 | each pass gets its shader and entry points; the flame pass covers the resolution in 8 by 8 tiles, clear and average cover the `H * W` pixels in groups of 256, and the filter covers the image in 8 by 8 tiles |
| Flames.Renderer.constructor | src/lib/flames.ts:102-205 | `init` builds the kernel from `f1` (weight 5, Horseshoe) and `f2` (weight 1, Handkerchief); creates three `[4, H, W]` image buffers of `16 * H * W` bytes, a 4-byte max-hits buffer and a 28-byte uniform buffer, in that order; orders the resources flame, average, output, uniform, max-hits; gives every pass its shader, entry points and workgroup counts; and starts the latch at the store's value |
| Flames.Renderer.RequestClear | src/lib/flames.ts:202-205 | `CLEAR.set(v)` sets the store and, through the subscription, the latch; no frame is encoded |
| Flames.Renderer.EncodeFrame | src/lib/flames.ts:229-241 | a frame's command list holds, in order, the encoding of each pass `Schedule` names: the clear pass exactly when the latch is set, otherwise the average pass, then the flame, filter and fullscreen passes, all bound to the renderer's resources |
| Flames.Renderer.Frame | src/lib/flames.ts:208-256 | a frame writes the uniforms (width, height, seed, camera, resolution) before submitting exactly the passes `Schedule` names for the latch; it resets both the latch and the store, follows `Run`, and keeps every resource bound to a buffer whose usage permits its binding |

## Left out

- `initGPU` (asynchronous) and `context.configure` are browser calls. The preferred canvas format is a constructor parameter.
- The FPS counter (`performance.now`, `FPS.set`) and the `requestAnimationFrame` loop are timing and scheduling. Each call of `Renderer.Frame` is one frame.
- `Math.random()` is not modelled. The six affine coefficients of each function, the per-frame seed, and each walker's draws are parameters.
- The WGSL shaders (flame template, average, filter, fullscreen) are not part of this model. `FlameShader(kernel)` stands for the template with the generated code inserted, and the other shaders are named by file.
- The generated text outside the transforms is not modelled: the joined flame function and the printing of thresholds, parameters and colours. The kernel is modelled structurally.
- Variation formulas are opaque strings, and the walker's position is not tracked. `FlameMath.Contributions` records which function fired and its colour, not the position passed to `color_pixel`.
- Floating point is not modelled: `Float32Array` rounding in `toBytes`, and float drift in the normalised weights (which in JavaScript may leave the last threshold below 1). Weights are exact reals.
- Numbers.Add does not distinguish -0 from +0.
- Flames.CeilDiv: buffer dimensions and the resolution are natural numbers, so `Math.ceil` of a non-integer quotient is only modelled through integer ceiling division.
- Wgpu.Device records only buffer creation, buffer writes and submission. Bind-group layouts, pipelines, shader modules and bind groups appear only as the descriptors inside each encoded pass record.
- The `CLEAR` store is modelled as a field of each renderer (`clearStore`), not as a module-wide store shared between renderers.
- FlameMath.Select: with a zero total the thresholds are `Infinity`, `-Infinity` or `NaN`, which the generated text prints as `r < Infinity`, `r < -Infinity` or `r < NaN`; WGSL rejects those, so the kernel does not compile. `Numbers.Less` on a non-finite threshold therefore stands for no behaviour of the program, and what `Select` does with such thresholds is a property of the model only.
