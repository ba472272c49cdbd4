/**
 * The renderer of src/lib/flames.ts: `init` builds the buffers, the passes and
 * their workgroup counts, and the `frame` it returns writes the uniform block,
 * then encodes either the clear pass or the average pass, chosen by a one-shot
 * latch that mirrors the `CLEAR` store, followed by the flame, filter and
 * fullscreen passes.
 *
 * `Run` is the latch as a state machine over a sequence of events (a `CLEAR`
 * request or a frame); `Renderer` is the object `init` sets up, and its
 * `Frame` is proved to follow `Run`.
 */
module Flames {
  import opened Wrappers
  import opened Numbers
  import opened FlameMath
  import opened Wgpu

  /** Colour channels per pixel of the image buffers. */
  const Channels: int := 4

  /** The camera the UI owns; the renderer reads it afresh every frame. */
  class Camera {
    var logScale: real
    var xOffset: real
    var yOffset: real

    constructor(logScale: real, xOffset: real, yOffset: real)
      ensures this.logScale == logScale && this.xOffset == xOffset && this.yOffset == yOffset
    {
      this.logScale := logScale;
      this.xOffset := xOffset;
      this.yOffset := yOffset;
    }
  }

  /** `Math.ceil(n / d)`: the least number of tiles of size `d` that covers `n` items. */
  function CeilDiv(n: int, d: int): (q: int)
    requires d > 0
    ensures q * d >= n
    ensures (q - 1) * d < n
  {
    var q := (n + d - 1) / d;
    assert (n + d - 1) == q * d + (n + d - 1) % d;
    q
  }

  /** The two functions `init` compiles, with their six random affine coefficients each. */
  function InitFunctions(params1: seq<real>, params2: seq<real>): seq<Function> {
    [ Function(params1, 5.0, "f1", Horseshoe, Color(0.0, 255.0, 255.0)),
      Function(params2, 1.0, "f2", Handkerchief, Color(255.0, 0.0, 255.0)) ]
  }

  /** In the kernel `init` builds, a draw in [0, 5/6) applies `f1` and a draw in [5/6, 1) applies `f2`. */
  lemma InitDispatch(params1: seq<real>, params2: seq<real>, r: real)
    requires 0.0 <= r
    ensures Select(ToShader(InitFunctions(params1, params2)).branches, r) == Some(0) <==> r < 5.0 / 6.0
    ensures Select(ToShader(InitFunctions(params1, params2)).branches, r) == Some(1) <==> 5.0 / 6.0 <= r < 1.0
  {
    var fs := InitFunctions(params1, params2);
    assert Weights(fs) == [5.0, 1.0];
    assert Weights(fs)[..0] == [] && Weights(fs)[..1] == [5.0] && Weights(fs)[..2] == [5.0, 1.0];
    assert Sum([5.0]) == 5.0 by { assert [5.0][..0] == []; }
    assert Sum([5.0, 1.0]) == 6.0 by { assert [5.0, 1.0][..1] == [5.0]; }
    assert TotalWeight(fs) == 6.0;
    assert Cdf(fs, 1) == 5.0 / 6.0;
    assert Cdf(fs, 2) == 1.0;
    SelectIffBucket(fs, r, 0);
    SelectIffBucket(fs, r, 1);
  }

  // ---------------------------------------------------------------------------
  // The clear latch and the frame schedule

  datatype PassName = ClearPass | AvgPass | FlamePass | FilterPass | FullscreenPass

  /** The passes one frame encodes, in order, when the latch reads `shouldClear`. */
  function Schedule(shouldClear: bool): (s: seq<PassName>)
    ensures |s| == 4 && s[1..] == [FlamePass, FilterPass, FullscreenPass]
    ensures s[0] == ClearPass <==> shouldClear
    ensures s[0] == AvgPass <==> !shouldClear
  {
    [if shouldClear then ClearPass else AvgPass, FlamePass, FilterPass, FullscreenPass]
  }

  /** What happens to a renderer: `CLEAR.set(clear)`, or one call of `frame`. */
  datatype Event = Request(clear: bool) | Tick

  /** The passes of each frame, when the latch starts at `latch` and `events` happen in order. */
  function Run(latch: bool, events: seq<Event>): (r: seq<seq<PassName>>)
    ensures |r| == Ticks(events)
    ensures forall i :: 0 <= i < |r| ==> r[i] == Schedule(true) || r[i] == Schedule(false)
    ensures !latch && Request(true) !in events ==> forall i :: 0 <= i < |r| ==> r[i] == Schedule(false)
    decreases events
  {
    if |events| == 0 then []
    else match events[0]
      case Request(v) => Run(v, events[1..])
      case Tick => [Schedule(latch)] + Run(false, events[1..])
  }

  /**
   * The latch after `events`: a request sets it; a frame leaves it false, since a clearing
   * frame resets it and a frame that does not clear found it false already.
   */
  function LatchAfter(latch: bool, events: seq<Event>): (r: bool)
    ensures r ==> latch || Request(true) in events
    ensures |events| > 0 && events[|events| - 1] == Tick ==> !r
    decreases events
  {
    if |events| == 0 then latch
    else match events[0]
      case Request(v) => LatchAfter(v, events[1..])
      case Tick => LatchAfter(false, events[1..])
  }

  function Ticks(events: seq<Event>): nat {
    if |events| == 0 then 0 else (if events[0] == Tick then 1 else 0) + Ticks(events[1..])
  }

  /** The number of `CLEAR.set(true)` requests among `events`. */
  function ClearRequests(events: seq<Event>): nat {
    if |events| == 0 then 0 else (if events[0] == Request(true) then 1 else 0) + ClearRequests(events[1..])
  }

  /** The number of frames that encode the clear pass. */
  function ClearingFrames(frames: seq<seq<PassName>>): nat {
    if |frames| == 0 then 0
    else (if |frames[0]| > 0 && frames[0][0] == ClearPass then 1 else 0) + ClearingFrames(frames[1..])
  }

  /** Running the events of `a` then those of `b` is running `b` from the latch `a` leaves. */
  lemma {:induction false} RunAppend(latch: bool, a: seq<Event>, b: seq<Event>)
    ensures Run(latch, a + b) == Run(latch, a) + Run(LatchAfter(latch, a), b)
    decreases a
  {
    if |a| > 0 {
      assert (a + b)[0] == a[0] && (a + b)[1..] == a[1..] + b;
      match a[0]
      case Request(v) => RunAppend(v, a[1..], b);
      case Tick => RunAppend(false, a[1..], b);
    } else {
      assert a + b == b;
    }
  }

  /** The latch after the events of `a` then those of `b` is the latch `b` leaves from the one `a` leaves. */
  lemma {:induction false} LatchAfterAppend(latch: bool, a: seq<Event>, b: seq<Event>)
    ensures LatchAfter(latch, a + b) == LatchAfter(LatchAfter(latch, a), b)
    decreases a
  {
    if |a| > 0 {
      assert (a + b)[0] == a[0] && (a + b)[1..] == a[1..] + b;
      match a[0]
      case Request(v) => LatchAfterAppend(v, a[1..], b);
      case Tick => LatchAfterAppend(false, a[1..], b);
    } else {
      assert a + b == b;
    }
  }

  lemma {:induction false} TicksAppend(a: seq<Event>, b: seq<Event>)
    ensures Ticks(a + b) == Ticks(a) + Ticks(b)
    decreases a
  {
    if |a| > 0 {
      assert (a + b)[0] == a[0] && (a + b)[1..] == a[1..] + b;
      TicksAppend(a[1..], b);
    } else {
      assert a + b == b;
    }
  }

  /** The latch is the last request since the last frame, or false if a frame came after it. */
  lemma {:induction false} LatchAfterLast(latch: bool, events: seq<Event>)
    requires |events| > 0
    ensures LatchAfter(latch, events) == match events[|events| - 1] case Request(v) => v case Tick => false
  {
    var n := |events| - 1;
    assert events == events[..n] + [events[n]];
    LatchAfterAppend(latch, events[..n], [events[n]]);
  }

  /** The frame after events `a` clears exactly when the latch they leave is set. */
  lemma ClearsIffLatched(latch: bool, a: seq<Event>, b: seq<Event>)
    ensures |Run(latch, a + [Tick] + b)| > Ticks(a)
    ensures Run(latch, a + [Tick] + b)[Ticks(a)] == Schedule(LatchAfter(latch, a))
  {
    RunAppend(latch, a, [Tick] + b);
    assert a + [Tick] + b == a + ([Tick] + b);
  }

  /** One-shot: of two frames with no request between them, the second averages. */
  lemma OneShot(latch: bool, a: seq<Event>, b: seq<Event>)
    ensures |Run(latch, a + [Tick, Tick] + b)| > Ticks(a) + 1
    ensures Run(latch, a + [Tick, Tick] + b)[Ticks(a) + 1] == Schedule(false)
  {
    var a' := a + [Tick];
    assert a + [Tick, Tick] + b == a' + [Tick] + b;
    ClearsIffLatched(latch, a', b);
    TicksAppend(a, [Tick]);
    LatchAfterLast(latch, a');
  }

  /** Never sticky: there are at most as many clearing frames as requests, plus one for a latch already set. */
  lemma {:induction false} ClearsBounded(latch: bool, events: seq<Event>)
    ensures ClearingFrames(Run(latch, events)) <= ClearRequests(events) + (if latch then 1 else 0)
    decreases events
  {
    if |events| > 0 {
      match events[0]
      case Request(v) => ClearsBounded(v, events[1..]);
      case Tick =>
        ClearsBounded(false, events[1..]);
        assert Run(latch, events)[1..] == Run(false, events[1..]);
    }
  }

  // ---------------------------------------------------------------------------
  // The renderer `init` sets up

  /** An image buffer of dimensions `[4, H, W]` takes 4 bytes for each of its `4 * H * W` elements. */
  lemma ImageBytes(h: int, w: int)
    ensures BytesPerElement * Product([Channels, h, w]) == 16 * h * w
  {
    assert [Channels, h, w][..2] == [Channels, h];
    assert [Channels, h][..1] == [Channels];
    assert [Channels][..0] == [];
    assert Product([Channels]) == 4;
    assert Product([Channels, h]) == 4 * h;
    assert Product([Channels, h, w]) == 4 * h * w;
  }

  /** The `i`-th resource was created on the device with a usage that permits its compute and render bindings. */
  ghost predicate Bindable(log: seq<DeviceCall>, res: seq<Buffer>, i: nat)
    requires i < |res|
  {
    && res[i].buffer < |log|
    && log[res[i].buffer].BufferCreated?
    && UsageAllows(log[res[i].buffer].descriptor.usage, ComputeLayout(res)[i].bindingType)
    && UsageAllows(log[res[i].buffer].descriptor.usage, RenderLayout(res)[i].bindingType)
  }

  /** Appending to the device log keeps every resource bindable. */
  lemma BindableGrows(log0: seq<DeviceCall>, log1: seq<DeviceCall>, res: seq<Buffer>)
    requires log0 <= log1
    requires forall i :: 0 <= i < |res| ==> Bindable(log0, res, i)
    ensures forall i :: 0 <= i < |res| ==> Bindable(log1, res, i)
  {
    forall i | 0 <= i < |res| ensures Bindable(log1, res, i) {
      assert Bindable(log0, res, i);
      assert log1[res[i].buffer] == log0[res[i].buffer];
    }
  }

  /**
   * The five buffers `init` creates, right after the log `log[..n]`: each is a distinct handle whose
   * creation usage permits its compute and its render binding.
   */
  lemma InitResources(log: seq<DeviceCall>, n: nat, imageBytes: int, res: seq<Buffer>)
    requires |log| == n + 5
    requires log[n..] == [
      BufferCreated(BufferDescriptor(imageBytes, {UsageStorage, UsageCopySrc})),
      BufferCreated(BufferDescriptor(imageBytes, {UsageStorage, UsageCopySrc})),
      BufferCreated(BufferDescriptor(imageBytes, {UsageStorage, UsageCopySrc})),
      BufferCreated(BufferDescriptor(4, {UsageStorage, UsageCopySrc})),
      BufferCreated(BufferDescriptor(28, {UsageUniform, UsageCopyDst}))]
    requires res == [Buffer(n, Storage), Buffer(n + 1, Storage), Buffer(n + 2, Storage),
                     Buffer(n + 4, Uniform), Buffer(n + 3, Storage)]
    ensures forall i, j :: 0 <= i < j < |res| ==> res[i].buffer != res[j].buffer
    ensures forall i :: 0 <= i < |res| ==> Bindable(log, res, i)
  {
    forall i | 0 <= i < |res| ensures Bindable(log, res, i) {
      assert log[res[i].buffer] == log[n..][res[i].buffer - n];
    }
  }

  /**
   * The buffers `init` creates, in order: three `[4, H, W]` image buffers, the max-hits buffer and
   * the uniform buffer; `res` orders them flame, average, output, uniform, max-hits.
   */
  method CreateBuffers(device: Device, h: nat, w: nat)
      returns (flame: ComputeBuffer, avg: ComputeBuffer, output: ComputeBuffer, maxHits: ComputeBuffer,
               uniform: UniformBuffer, res: seq<Buffer>)
    modifies device
    ensures flame.dims == avg.dims == output.dims == [Channels, h, w]
    ensures maxHits.dims == [1]
    ensures flame.bufferSize == avg.bufferSize == output.bufferSize == 16 * h * w
    ensures maxHits.bufferSize == 4 && uniform.bufferSize == 28
    ensures res == [flame.AsBuffer(), avg.AsBuffer(), output.AsBuffer(), uniform.AsBuffer(), maxHits.AsBuffer()]
    ensures device.log == old(device.log) + [
              BufferCreated(BufferDescriptor(16 * h * w, {UsageStorage, UsageCopySrc})),
              BufferCreated(BufferDescriptor(16 * h * w, {UsageStorage, UsageCopySrc})),
              BufferCreated(BufferDescriptor(16 * h * w, {UsageStorage, UsageCopySrc})),
              BufferCreated(BufferDescriptor(4, {UsageStorage, UsageCopySrc})),
              BufferCreated(BufferDescriptor(28, {UsageUniform, UsageCopyDst}))]
    ensures forall i, j :: 0 <= i < j < |res| ==> res[i].buffer != res[j].buffer
    ensures forall i :: 0 <= i < |res| ==> Bindable(device.log, res, i)
  {
    var dims := [Channels, h, w];
    var n := |device.log|;
    ImageBytes(h, w);
    assert Product([1]) == 1;
    ghost var image := BufferCreated(BufferDescriptor(16 * h * w, {UsageStorage, UsageCopySrc}));
    ghost var log0 := device.log;
    flame := new ComputeBuffer(dims, device);
    assert device.log == log0 + [image];
    avg := new ComputeBuffer(dims, device);
    assert device.log == log0 + [image, image];
    output := new ComputeBuffer(dims, device);
    assert device.log == log0 + [image, image, image];
    maxHits := new ComputeBuffer([1], device);
    assert device.log == log0 + [image, image, image, BufferCreated(BufferDescriptor(4, {UsageStorage, UsageCopySrc}))];
    assert |UniformKeys| == 7;
    uniform := new UniformBuffer(|UniformKeys|, device);
    ghost var created := [image, image, image,
      BufferCreated(BufferDescriptor(4, {UsageStorage, UsageCopySrc})),
      BufferCreated(BufferDescriptor(28, {UsageUniform, UsageCopyDst}))];
    assert device.log == log0 + created;
    res := [flame.AsBuffer(), avg.AsBuffer(), output.AsBuffer(), uniform.AsBuffer(), maxHits.AsBuffer()];
    assert device.log[n..] == created;
    InitResources(device.log, n, 16 * h * w, res);
  }

  /** The shader files of the average, filter and fullscreen passes. */
  const AverageShader := ShaderFile("average.wgsl")
  const FilterShader := ShaderFile("filter.wgsl")
  const FullscreenShader := ShaderFile("fullscreen.wgsl")

  /** The passes `init` creates: each pass's shader, entry points and workgroup counts. */
  method CreatePasses(k: Kernel, h: nat, w: nat, resolution: nat, presentationFormat: string)
      returns (flame: ComputePass, clear: ComputePass, avg: ComputePass, filter: ComputePass, fullscreen: RenderPass)
    ensures flame.code == FlameShader(k) && flame.entrypoint == "main"
    ensures flame.workgroups == Workgroups(CeilDiv(resolution, 8), Some(CeilDiv(resolution, 8)), None)
    ensures clear.code == avg.code == AverageShader
    ensures clear.entrypoint == "clear" && avg.entrypoint == "avg"
    ensures clear.workgroups == avg.workgroups == Workgroups(CeilDiv(h * w, 256), None, None)
    ensures filter.code == FilterShader && filter.entrypoint == "apply_filter"
    ensures filter.workgroups == Workgroups(CeilDiv(w, 8), Some(CeilDiv(h, 8)), None)
    ensures fullscreen.code == FullscreenShader
    ensures fullscreen.vertexEntrypoint == "vert_main" && fullscreen.fragmentEntrypoint == "frag_main"
    ensures fullscreen.presentationFormat == presentationFormat
  {
    flame := new ComputePass(FlameShader(k), "main",
      Workgroups(CeilDiv(resolution, 8), Some(CeilDiv(resolution, 8)), None));
    clear := new ComputePass(AverageShader, "clear",
      Workgroups(CeilDiv(h * w, 256), None, None));
    avg := new ComputePass(AverageShader, "avg",
      Workgroups(CeilDiv(h * w, 256), None, None));
    filter := new ComputePass(FilterShader, "apply_filter",
      Workgroups(CeilDiv(w, 8), Some(CeilDiv(h, 8)), None));
    fullscreen := new RenderPass(FullscreenShader, "vert_main", "frag_main", presentationFormat);
  }

  class Renderer {
    const device: Device
    const camera: Camera
    const presentationWidth: nat
    const presentationHeight: nat
    const resolution: nat
    const kernel: Kernel
    const flameBuffer: ComputeBuffer
    const flameAvgBuffer: ComputeBuffer
    const flameOutputBuffer: ComputeBuffer
    const maxHitsBuffer: ComputeBuffer
    const uniformBuffer: UniformBuffer
    const resources: seq<Buffer>
    const flamePass: ComputePass
    const clearPass: ComputePass
    const avgPass: ComputePass
    const filterPass: ComputePass
    const fullscreenPass: RenderPass

    /** The value of the `CLEAR` store. */
    var clearStore: bool
    /** The renderer's copy of `CLEAR`, kept by its subscription. */
    var shouldClear: bool

    /** The latch the renderer started with and the events since, for relating it to `Run`. */
    ghost const initialLatch: bool
    ghost var history: seq<Event>

    /**
     * The subscription keeps the latch equal to the store, the latch is what `Run` predicts,
     * and every resource is a distinct buffer whose creation usage permits how both kinds of pass bind it.
     */
    ghost predicate Valid()
      reads this, device
    {
      && shouldClear == clearStore
      && shouldClear == LatchAfter(initialLatch, history)
      && (forall i, j :: 0 <= i < j < |resources| ==> resources[i].buffer != resources[j].buffer)
      && (forall i :: 0 <= i < |resources| ==> Bindable(device.log, resources, i))
    }

    /**
     * `init`: generates the flame kernel, creates the three `[4, H, W]` image buffers, the max-hits
     * buffer and the uniform buffer, orders them as flame, average, output, uniform, max-hits,
     * sizes every pass's workgroups, and subscribes the latch to `CLEAR`, whose value is `clear`.
     */
    constructor(device: Device, camera: Camera, presentationWidth: nat, presentationHeight: nat, resolution: nat,
                params1: seq<real>, params2: seq<real>, presentationFormat: string, clear: bool)
      modifies device
      ensures this.device == device && this.camera == camera
      ensures this.presentationWidth == presentationWidth && this.presentationHeight == presentationHeight
      ensures this.resolution == resolution
      ensures kernel == ToShader(InitFunctions(params1, params2))
      ensures flameBuffer.dims == flameAvgBuffer.dims == flameOutputBuffer.dims == [Channels, presentationHeight, presentationWidth]
      ensures maxHitsBuffer.dims == [1]
      ensures flameBuffer.bufferSize == flameAvgBuffer.bufferSize == flameOutputBuffer.bufferSize
              == 16 * presentationHeight * presentationWidth
      ensures maxHitsBuffer.bufferSize == 4 && uniformBuffer.bufferSize == 28
      ensures resources == [flameBuffer.AsBuffer(), flameAvgBuffer.AsBuffer(), flameOutputBuffer.AsBuffer(),
                            uniformBuffer.AsBuffer(), maxHitsBuffer.AsBuffer()]
      ensures device.log == old(device.log) + [
                BufferCreated(BufferDescriptor(flameBuffer.bufferSize, {UsageStorage, UsageCopySrc})),
                BufferCreated(BufferDescriptor(flameBuffer.bufferSize, {UsageStorage, UsageCopySrc})),
                BufferCreated(BufferDescriptor(flameBuffer.bufferSize, {UsageStorage, UsageCopySrc})),
                BufferCreated(BufferDescriptor(4, {UsageStorage, UsageCopySrc})),
                BufferCreated(BufferDescriptor(28, {UsageUniform, UsageCopyDst}))]
      ensures flamePass.code == FlameShader(kernel) && flamePass.entrypoint == "main"
      ensures flamePass.workgroups == Workgroups(CeilDiv(resolution, 8), Some(CeilDiv(resolution, 8)), None)
      ensures clearPass.code == avgPass.code == AverageShader
      ensures clearPass.entrypoint == "clear" && avgPass.entrypoint == "avg"
      ensures clearPass.workgroups == avgPass.workgroups
              == Workgroups(CeilDiv(presentationHeight * presentationWidth, 256), None, None)
      ensures filterPass.code == FilterShader && filterPass.entrypoint == "apply_filter"
      ensures filterPass.workgroups
              == Workgroups(CeilDiv(presentationWidth, 8), Some(CeilDiv(presentationHeight, 8)), None)
      ensures fullscreenPass.code == FullscreenShader
      ensures fullscreenPass.vertexEntrypoint == "vert_main" && fullscreenPass.fragmentEntrypoint == "frag_main"
      ensures fullscreenPass.presentationFormat == presentationFormat
      ensures shouldClear == clearStore == clear
      ensures history == [] && initialLatch == clear
      ensures Valid()
    {
      var k := ToShader(InitFunctions(params1, params2));
      var flame, avg, output, maxHits, uniform, res := CreateBuffers(device, presentationHeight, presentationWidth);
      var flameP, clearP, avgP, filterP, fullscreenP :=
        CreatePasses(k, presentationHeight, presentationWidth, resolution, presentationFormat);

      this.device := device;
      this.camera := camera;
      this.presentationWidth := presentationWidth;
      this.presentationHeight := presentationHeight;
      this.resolution := resolution;
      kernel := k;
      flameBuffer := flame;
      flameAvgBuffer := avg;
      flameOutputBuffer := output;
      maxHitsBuffer := maxHits;
      uniformBuffer := uniform;
      resources := res;
      flamePass := flameP;
      clearPass := clearP;
      avgPass := avgP;
      filterPass := filterP;
      fullscreenPass := fullscreenP;
      clearStore := clear;
      shouldClear := clear;
      initialLatch := clear;
      history := [];
    }

    /** `CLEAR.set(value)`: the store changes and the subscription copies it into the latch. */
    method RequestClear(value: bool)
      requires Valid()
      modifies this
      ensures Valid()
      ensures clearStore == value && shouldClear == value
      ensures history == old(history) + [Request(value)]
      ensures Run(initialLatch, history) == old(Run(initialLatch, history))
    {
      clearStore := value;
      shouldClear := value;
      RunAppend(initialLatch, history, [Request(value)]);
      LatchAfterAppend(initialLatch, history, [Request(value)]);
      history := history + [Request(value)];
    }

    /** The uniform block of a frame drawn with the random seed `rng`. */
    function FrameUniforms(rng: real): Uniforms
      reads camera
    {
      Uniforms(presentationWidth as real, presentationHeight as real, rng,
               camera.logScale, camera.xOffset, camera.yOffset, resolution as real)
    }

    /** What encoding the pass `p` hands to the encoder, the fullscreen pass drawing into `view`. */
    function Encoded(p: PassName, view: Handle): EncodedPass {
      match p
      case ClearPass => clearPass.Encoded(resources)
      case AvgPass => avgPass.Encoded(resources)
      case FlamePass => flamePass.Encoded(resources)
      case FilterPass => filterPass.Encoded(resources)
      case FullscreenPass => fullscreenPass.Encoded(view, resources)
    }

    /**
     * `frame`: writes the uniform block (with the random seed `rng` and the camera as it is now), then
     * submits one command list: the clear pass if the latch is set, resetting it, or else the average
     * pass, followed by the flame, filter and fullscreen passes.
     */
    method Frame(rng: real, view: Handle) returns (encoded: seq<PassName>)
      requires Valid()
      modifies this, device
      ensures Valid()
      ensures encoded == Schedule(old(shouldClear))
      ensures !shouldClear && !clearStore
      ensures history == old(history) + [Tick]
      ensures Run(initialLatch, history) == old(Run(initialLatch, history)) + [encoded]
      ensures device.log == old(device.log) + [
                BufferWritten(uniformBuffer.buffer, 0, ToBytes(FrameUniforms(rng))),
                Submitted(Commands(encoded, view))]
    {
      ghost var log0 := device.log;
      ghost var h0 := history;
      uniformBuffer.Write(FrameUniforms(rng), device);
      encoded := Schedule(shouldClear);
      assert Run(LatchAfter(initialLatch, h0), [Tick]) == [encoded];
      var passes := EncodeFrame(shouldClear, view);
      if shouldClear {
        clearStore := false;
        shouldClear := false;
      }
      device.Submit(passes);

      RunAppend(initialLatch, h0, [Tick]);
      LatchAfterAppend(initialLatch, h0, [Tick]);
      history := history + [Tick];
      BindableGrows(log0, device.log, resources);
    }

    /**
     * The command list of one frame: a fresh encoder gets the clear pass if `clear` holds and the
     * average pass otherwise, then the flame, filter and fullscreen passes, all bound to the renderer's resources.
     */
    method EncodeFrame(clear: bool, view: Handle) returns (passes: seq<EncodedPass>)
      ensures passes == Commands(Schedule(clear), view)
    {
      var encoder := new CommandEncoder();
      if clear {
        clearPass.EncodePass(encoder, resources);
      } else {
        avgPass.EncodePass(encoder, resources);
      }
      flamePass.EncodePass(encoder, resources);
      filterPass.EncodePass(encoder, resources);
      fullscreenPass.EncodePass(encoder, view, resources);
      passes := encoder.passes;
    }

    /** What the command list of a frame that encodes `ps` holds: the encoding of each pass, in order. */
    function Commands(ps: seq<PassName>, view: Handle): (cs: seq<EncodedPass>)
      ensures |cs| == |ps|
      ensures forall i :: 0 <= i < |ps| ==> cs[i] == Encoded(ps[i], view)
    {
      if |ps| == 0 then [] else [Encoded(ps[0], view)] + Commands(ps[1..], view)
    }

  }
}
