/**
 * The WebGPU wrappers of src/lib/wgpu.ts: the uniform block and its byte
 * order, storage and uniform buffers with their sizes, and compute and render
 * passes with the bind-group layouts and bind groups they build.
 *
 * The device is foreign. It is modelled as a recorder of the calls the
 * core makes on it (`Device.log`): the buffer descriptors it receives, the
 * uniform writes and the command lists submitted to its queue. A command
 * encoder records the passes encoded into it, each as the descriptors the
 * pass hands to the device.
 */
module Wgpu {
  import opened Wrappers
  import FlameMath

  /** Identity of an object the device hands out (a buffer, a texture view). */
  type Handle = nat

  /** `GPUBufferBindingType`. */
  datatype BindingType = Uniform | Storage | ReadOnlyStorage

  /** The `GPUBufferUsage` flags the core uses. */
  datatype Usage = UsageStorage | UsageUniform | UsageCopySrc | UsageCopyDst

  /** `GPUShaderStage` visibility of a layout entry. */
  datatype Stage = Compute | Fragment

  /** Bytes per element (`Uint32Array.BYTES_PER_ELEMENT`, and one `f32` of the uniform block). */
  const BytesPerElement: int := 4

  // ---------------------------------------------------------------------------
  // The uniform block

  datatype Uniforms = Uniforms(
    presentationWidth: real,
    presentationHeight: real,
    rng: real,
    logScale: real,
    xOffset: real,
    yOffset: real,
    resolution: real)

  /** `UNIFORM_KEYS`: the property names of a `Uniforms` object, in constructor order. */
  const UniformKeys: seq<string> :=
    ["presentationWidth", "presentationHeight", "rng", "log_scale", "x_offset", "y_offset", "resolution"]

  /** The property of `u` named `key`, as `u[key]` reads it. */
  function Field(u: Uniforms, key: string): Option<real> {
    if key == "presentationWidth" then Some(u.presentationWidth)
    else if key == "presentationHeight" then Some(u.presentationHeight)
    else if key == "rng" then Some(u.rng)
    else if key == "log_scale" then Some(u.logScale)
    else if key == "x_offset" then Some(u.xOffset)
    else if key == "y_offset" then Some(u.yOffset)
    else if key == "resolution" then Some(u.resolution)
    else None
  }

  /** `toBytes`: one value per key of `UNIFORM_KEYS`, value `k` being the property named by key `k`. */
  function ToBytes(u: Uniforms): (b: seq<real>)
    ensures |b| == |UniformKeys| == 7
    ensures forall k :: 0 <= k < |b| ==> Field(u, UniformKeys[k]) == Some(b[k])
  {
    [u.presentationWidth, u.presentationHeight, u.rng, u.logScale, u.xOffset, u.yOffset, u.resolution]
  }

  /** The keys are distinct, so the byte layout gives every property its own slot. */
  lemma UniformKeysDistinct()
    ensures forall i, j :: 0 <= i < j < |UniformKeys| ==> UniformKeys[i] != UniformKeys[j]
  {
  }

  /** No property is dropped: different uniform blocks are written as different values. */
  lemma ToBytesInjective(u: Uniforms, w: Uniforms)
    requires ToBytes(u) == ToBytes(w)
    ensures u == w
  {
    assert ToBytes(u)[6] == ToBytes(w)[6];
  }

  // ---------------------------------------------------------------------------
  // The device, as the record of what it receives

  datatype BufferDescriptor = BufferDescriptor(size: int, usage: set<Usage>)

  /** The shader text of a pass: a shader file as loaded, or the flame template with the generated kernel inserted. */
  datatype ShaderCode = ShaderFile(path: string) | FlameShader(kernel: FlameMath.Kernel)

  datatype Workgroups = Workgroups(x: int, y: Option<int>, z: Option<int>)

  datatype LayoutEntry = LayoutEntry(binding: nat, visibility: Stage, bindingType: BindingType)

  datatype BindEntry = BindEntry(binding: nat, buffer: Handle)

  /** What one `encodePass` hands to the device and the encoder. */
  datatype EncodedPass =
    | ComputeRecord(code: ShaderCode, entrypoint: string,
                    layout: seq<LayoutEntry>, bindings: seq<BindEntry>, workgroups: Workgroups)
    | RenderRecord(code: ShaderCode, vertexEntrypoint: string, fragmentEntrypoint: string,
                   format: string, attachment: ColorAttachment, topology: string,
                   layout: seq<LayoutEntry>, bindings: seq<BindEntry>,
                   vertexCount: nat, instanceCount: nat, firstVertex: nat, firstInstance: nat)

  datatype Rgba = Rgba(r: real, g: real, b: real, a: real)

  /** The one colour attachment of a render pass: the view it draws into, its clear colour, load and store operations. */
  datatype ColorAttachment = ColorAttachment(view: Handle, clearValue: Rgba, loadOp: string, storeOp: string)

  /** Opaque black. */
  const Black := Rgba(0.0, 0.0, 0.0, 1.0)

  datatype DeviceCall =
    | BufferCreated(descriptor: BufferDescriptor)
    | BufferWritten(buffer: Handle, offset: int, data: seq<real>)
    | Submitted(passes: seq<EncodedPass>)

  class Device {
    var log: seq<DeviceCall>

    constructor()
      ensures log == []
    {
      log := [];
    }

    /** `createBuffer`: the new buffer is identified by the position of its creation in the log. */
    method CreateBuffer(d: BufferDescriptor) returns (h: Handle)
      modifies this
      ensures log == old(log) + [BufferCreated(d)]
      ensures h == |old(log)|
    {
      h := |log|;
      log := log + [BufferCreated(d)];
    }

    /** `queue.writeBuffer`. */
    method WriteBuffer(h: Handle, offset: int, data: seq<real>)
      modifies this
      ensures log == old(log) + [BufferWritten(h, offset, data)]
    {
      log := log + [BufferWritten(h, offset, data)];
    }

    /** `queue.submit` of one finished command buffer. */
    method Submit(passes: seq<EncodedPass>)
      modifies this
      ensures log == old(log) + [Submitted(passes)]
    {
      log := log + [Submitted(passes)];
    }
  }

  class CommandEncoder {
    var passes: seq<EncodedPass>

    constructor()
      ensures passes == []
    {
      passes := [];
    }
  }

  // ---------------------------------------------------------------------------
  // Buffers

  /** The `Buffer` interface: a device buffer and how it is bound. */
  datatype Buffer = Buffer(buffer: Handle, bindingType: BindingType)

  /** The number of elements of an array with dimensions `dims`, folded from the left from 1: zero exactly when a dimension is. */
  function Product(dims: seq<int>): (r: int)
    ensures |dims| == 0 ==> r == 1
    ensures |dims| == 1 ==> r == dims[0]
    ensures r == 0 <==> exists i :: 0 <= i < |dims| && dims[i] == 0
  {
    if |dims| == 0 then 1 else Product(dims[..|dims| - 1]) * dims[|dims| - 1]
  }

  /** Splitting the dimensions splits the element count. */
  lemma {:induction false} ProductAppend(a: seq<int>, b: seq<int>)
    ensures Product(a + b) == Product(a) * Product(b)
  {
    if |b| == 0 {
      assert a + b == a;
    } else {
      var n := |b| - 1;
      assert (a + b)[..|a + b| - 1] == a + b[..n];
      ProductAppend(a, b[..n]);
      assert Product(a + b) == Product(a) * Product(b[..n]) * b[n];
    }
  }

  /** With non-negative dimensions the element count is non-negative, and zero exactly when some dimension is. */
  lemma {:induction false} ProductNonNegative(dims: seq<int>)
    requires forall i :: 0 <= i < |dims| ==> dims[i] >= 0
    ensures Product(dims) >= 0
    ensures Product(dims) == 0 <==> exists i :: 0 <= i < |dims| && dims[i] == 0
  {
    if |dims| > 0 {
      var n := |dims| - 1;
      ProductNonNegative(dims[..n]);
      if Product(dims[..n]) == 0 {
        var i :| 0 <= i < n && dims[..n][i] == 0;
        assert dims[i] == 0;
      }
      if exists i :: 0 <= i < |dims| && dims[i] == 0 {
        var i :| 0 <= i < |dims| && dims[i] == 0;
        if i < n {
          assert dims[..n][i] == 0;
        }
      }
    }
  }

  class ComputeBuffer {
    const buffer: Handle
    const dims: seq<int>
    const bufferSize: int
    const bindingType: BindingType

    /** A storage buffer of `4 * product(dims)` bytes, created with STORAGE | COPY_SRC usage. */
    constructor(dims: seq<int>, device: Device)
      modifies device
      ensures this.dims == dims
      ensures bufferSize == BytesPerElement * Product(dims)
      ensures bindingType == Storage
      ensures device.log == old(device.log) + [BufferCreated(BufferDescriptor(bufferSize, {UsageStorage, UsageCopySrc}))]
      ensures buffer == |old(device.log)|
    {
      var size := BytesPerElement * Product(dims);
      var h := device.CreateBuffer(BufferDescriptor(size, {UsageStorage, UsageCopySrc}));
      this.dims := dims;
      bufferSize := size;
      buffer := h;
      bindingType := Storage;
    }

    function AsBuffer(): Buffer {
      Buffer(buffer, bindingType)
    }
  }

  class UniformBuffer {
    const buffer: Handle
    const bufferSize: int
    const bindingType: BindingType

    /** A uniform buffer of `4 * numParams` bytes, created with UNIFORM | COPY_DST usage. */
    constructor(numParams: int, device: Device)
      modifies device
      ensures bufferSize == numParams * BytesPerElement
      ensures bindingType == Uniform
      ensures device.log == old(device.log) + [BufferCreated(BufferDescriptor(bufferSize, {UsageUniform, UsageCopyDst}))]
      ensures buffer == |old(device.log)|
    {
      var size := numParams * BytesPerElement;
      var h := device.CreateBuffer(BufferDescriptor(size, {UsageUniform, UsageCopyDst}));
      bufferSize := size;
      buffer := h;
      bindingType := Uniform;
    }

    function AsBuffer(): Buffer {
      Buffer(buffer, bindingType)
    }

    /** `write`: the uniform values, in `toBytes` order, written at offset 0 of this buffer. */
    method Write(uniforms: Uniforms, device: Device)
      modifies device
      ensures device.log == old(device.log) + [BufferWritten(buffer, 0, ToBytes(uniforms))]
    {
      device.WriteBuffer(buffer, 0, ToBytes(uniforms));
    }
  }

  /** A uniform buffer sized by `UNIFORM_KEYS.length` holds exactly the values `toBytes` writes. */
  lemma UniformWriteFits(u: Uniforms)
    ensures BytesPerElement * |ToBytes(u)| == |UniformKeys| * BytesPerElement == 28
  {
  }

  // ---------------------------------------------------------------------------
  // Layouts and bind groups

  /** The bind-group layout of a compute pass: binding `i` is resource `i`, with the resource's own type. */
  function ComputeLayout(resources: seq<Buffer>): (entries: seq<LayoutEntry>)
    ensures |entries| == |resources|
    ensures forall i :: 0 <= i < |resources| ==>
      entries[i].binding == i && entries[i].visibility == Compute && entries[i].bindingType == resources[i].bindingType
  {
    seq(|resources|, i requires 0 <= i < |resources| => LayoutEntry(i, Compute, resources[i].bindingType))
  }

  /** A render pass binds storage buffers read-only and every other type as it is. */
  function ReadOnlyView(t: BindingType): (v: BindingType)
    ensures v != Storage
    ensures t == Storage ==> v == ReadOnlyStorage
    ensures t != Storage ==> v == t
  {
    if t == Storage then ReadOnlyStorage else t
  }

  /** The bind-group layout of a render pass: binding `i` is resource `i`, visible to the fragment stage. */
  function RenderLayout(resources: seq<Buffer>): (entries: seq<LayoutEntry>)
    ensures |entries| == |resources|
    ensures forall i :: 0 <= i < |resources| ==>
      entries[i].binding == i && entries[i].visibility == Fragment && entries[i].bindingType == ReadOnlyView(resources[i].bindingType)
  {
    seq(|resources|, i requires 0 <= i < |resources| => LayoutEntry(i, Fragment, ReadOnlyView(resources[i].bindingType)))
  }

  /** The bind group of either kind of pass: binding `i` is resource `i`'s buffer. */
  function BindGroupEntries(resources: seq<Buffer>): (entries: seq<BindEntry>)
    ensures |entries| == |resources|
    ensures forall i :: 0 <= i < |resources| ==> entries[i] == BindEntry(i, resources[i].buffer)
  {
    seq(|resources|, i requires 0 <= i < |resources| => BindEntry(i, resources[i].buffer))
  }

  /** A bind group fits its layout: both list the same bindings, in the same order. */
  ghost predicate Matches(layout: seq<LayoutEntry>, group: seq<BindEntry>) {
    |layout| == |group| && forall i :: 0 <= i < |layout| ==> layout[i].binding == group[i].binding
  }

  /** The bind group of a pass fits the layout it builds, for compute and render passes alike. */
  lemma BindGroupsMatchLayouts(resources: seq<Buffer>)
    ensures Matches(ComputeLayout(resources), BindGroupEntries(resources))
    ensures Matches(RenderLayout(resources), BindGroupEntries(resources))
  {
  }

  /** The render layout differs from the compute layout only in stage and in storage being made read-only. */
  lemma RenderLayoutFromCompute(resources: seq<Buffer>, i: nat)
    requires i < |resources|
    ensures RenderLayout(resources)[i].binding == ComputeLayout(resources)[i].binding
    ensures ComputeLayout(resources)[i].bindingType in {Storage, ReadOnlyStorage} <==> RenderLayout(resources)[i].bindingType == ReadOnlyStorage
    ensures ComputeLayout(resources)[i].bindingType != Storage ==>
      RenderLayout(resources)[i].bindingType == ComputeLayout(resources)[i].bindingType
  {
  }

  /** Whether a buffer created with `usage` may be bound as `t`. */
  predicate UsageAllows(usage: set<Usage>, t: BindingType) {
    match t
    case Uniform => UsageUniform in usage
    case Storage => UsageStorage in usage
    case ReadOnlyStorage => UsageStorage in usage
  }

  // ---------------------------------------------------------------------------
  // Passes

  class ComputePass {
    const code: ShaderCode
    const entrypoint: string
    const workgroups: Workgroups

    constructor(code: ShaderCode, entrypoint: string, workgroups: Workgroups)
      ensures this.code == code && this.entrypoint == entrypoint && this.workgroups == workgroups
    {
      this.code := code;
      this.entrypoint := entrypoint;
      this.workgroups := workgroups;
    }

    /** The pipeline, layout, bind group and dispatch of this pass over `resources`. */
    function Encoded(resources: seq<Buffer>): EncodedPass {
      ComputeRecord(code, entrypoint, ComputeLayout(resources), BindGroupEntries(resources), workgroups)
    }

    /** `encodePass`: appends this compute pass, bound to `resources` positionally, to the encoder. */
    method EncodePass(encoder: CommandEncoder, resources: seq<Buffer>)
      modifies encoder
      ensures encoder.passes == old(encoder.passes) + [Encoded(resources)]
    {
      encoder.passes := encoder.passes + [ComputeRecord(code, entrypoint, ComputeLayout(resources), BindGroupEntries(resources), workgroups)];
    }
  }

  class RenderPass {
    const code: ShaderCode
    const vertexEntrypoint: string
    const fragmentEntrypoint: string
    const presentationFormat: string

    constructor(code: ShaderCode, vertexEntrypoint: string, fragmentEntrypoint: string, presentationFormat: string)
      ensures this.code == code && this.vertexEntrypoint == vertexEntrypoint
      ensures this.fragmentEntrypoint == fragmentEntrypoint && this.presentationFormat == presentationFormat
    {
      this.code := code;
      this.vertexEntrypoint := vertexEntrypoint;
      this.fragmentEntrypoint := fragmentEntrypoint;
      this.presentationFormat := presentationFormat;
    }

    /**
     * The pipeline, layout, bind group and draw of this pass into `view`, which is cleared to
     * opaque black first and stored after: a triangle list of six vertices, one instance, from 0.
     */
    function Encoded(view: Handle, resources: seq<Buffer>): EncodedPass {
      RenderRecord(code, vertexEntrypoint, fragmentEntrypoint, presentationFormat,
                   ColorAttachment(view, Black, "clear", "store"), "triangle-list",
                   RenderLayout(resources), BindGroupEntries(resources), 6, 1, 0, 0)
    }

    /** `encodePass`: appends this render pass, drawing into `view`, to the encoder. */
    method EncodePass(encoder: CommandEncoder, view: Handle, resources: seq<Buffer>)
      modifies encoder
      ensures encoder.passes == old(encoder.passes) + [Encoded(view, resources)]
    {
      var attachment := ColorAttachment(view, Rgba(0.0, 0.0, 0.0, 1.0), "clear", "store");
      var pass := RenderRecord(code, vertexEntrypoint, fragmentEntrypoint, presentationFormat, attachment, "triangle-list",
                               RenderLayout(resources), BindGroupEntries(resources), 6, 1, 0, 0);
      encoder.passes := encoder.passes + [pass];
    }
  }
}
