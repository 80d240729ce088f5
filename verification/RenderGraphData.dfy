/** Optional values. */
module Options {
  datatype Option<+T> = None | Some(value: T)
}

/** The records a render graph keeps, as Setup leaves them, and what it means for them to be
    consistent: the version tables, the access records and the order of passes agree. */
module RenderGraphData {
  import opened Options

  const INVALID_PASS: nat := 0xFFFF_FFFF

  datatype ImageLayout =
    | Undefined | General | ColorAttachment | DepthStencilAttachment | DepthStencilReadOnly
    | ShaderReadOnly | TransferSrc | TransferDst | Present | RayTracingShared

  const TOP_OF_PIPE: bv64 := 0x80_0000
  const BOTTOM_OF_PIPE: bv64 := 0x100_0000
  const ACCESS_NONE: bv64 := 0

  // ShaderResourceWrite, ColorAttachmentWrite, DepthStencilAttachmentWrite, TransferWrite,
  // HostWrite, AccelerationStructureWrite, MemoryWrite
  const WRITE_MASK: bv64 := 0x20 | 0x80 | 0x200 | 0x800 | 0x2000 | 0x8000 | 0x8_0000

  predicate IsWriteAccess(access: bv64) {
    access & WRITE_MASK != ACCESS_NONE
  }

  predicate HasBit(mask: bv64, n: nat)
    requires n < 64
  {
    (mask >> n) & 1 == 1
  }

  /** The masks that write: those with the bit of a write access, of a shader resource, a colour or
      depth-stencil attachment, a transfer, the host, an acceleration structure, or memory at large. */
  lemma WriteBits(mask: bv64)
    ensures IsWriteAccess(mask) <==>
      || HasBit(mask, 5) || HasBit(mask, 7) || HasBit(mask, 9) || HasBit(mask, 11)
      || HasBit(mask, 13) || HasBit(mask, 15) || HasBit(mask, 19)
  {
  }

  datatype Access = Access(layout: ImageLayout, stages: bv64, mask: bv64)

  datatype AccessRecord =
    AccessRecord(index: nat, consumed: nat, produced: nat, isWrite: bool, access: Access)

  /** A barrier on one texture or buffer. Buffers have no layout; theirs reads Undefined. */
  datatype Barrier = Barrier(
    resource: nat, oldLayout: ImageLayout, newLayout: ImageLayout,
    srcStages: bv64, srcAccess: bv64, dstStages: bv64, dstAccess: bv64)

  datatype PassNode = PassNode(
    isRaster: bool, isSideEffect: bool, isAlive: bool, mergeWithPrevious: bool,
    textureAccesses: seq<AccessRecord>, bufferAccesses: seq<AccessRecord>,
    textureBarriers: seq<Barrier>, bufferBarriers: seq<Barrier>)

  datatype TextureNode = TextureNode(
    isImported: bool, initialLayout: ImageLayout, finalLayout: Option<ImageLayout>,
    currentVersion: nat, realized: bool)

  datatype BufferNode = BufferNode(isImported: bool, currentVersion: nat, realized: bool)

  datatype Graph = Graph(
    passes: seq<PassNode>, textures: seq<TextureNode>, buffers: seq<BufferNode>,
    textureProducers: seq<seq<nat>>, bufferProducers: seq<seq<nat>>)

  // ---------------------------------------------------------------- resources and uses

  datatype Resource = Texture(index: nat) | Buffer(index: nat)

  /** One access of a pass to a resource, whichever of the two record lists it sits in. */
  datatype Use = Use(resource: Resource, consumed: nat, produced: nat, isWrite: bool)

  function TextureUse(r: AccessRecord): Use {
    Use(Texture(r.index), r.consumed, r.produced, r.isWrite)
  }

  function BufferUse(r: AccessRecord): Use {
    Use(Buffer(r.index), r.consumed, r.produced, r.isWrite)
  }

  function Uses(p: PassNode): set<Use> {
    (set r | r in p.textureAccesses :: TextureUse(r)) + (set r | r in p.bufferAccesses :: BufferUse(r))
  }

  predicate IsResource(g: Graph, r: Resource) {
    match r
    case Texture(i) => i < |g.textures|
    case Buffer(i) => i < |g.buffers|
  }

  /** Entry v names the pass that produced version v; version 0 has no producer. */
  function Producers(g: Graph, r: Resource): seq<nat> {
    match r
    case Texture(i) => if i < |g.textureProducers| then g.textureProducers[i] else []
    case Buffer(i) => if i < |g.bufferProducers| then g.bufferProducers[i] else []
  }

  function CurrentVersion(g: Graph, r: Resource): nat {
    match r
    case Texture(i) => if i < |g.textures| then g.textures[i].currentVersion else 0
    case Buffer(i) => if i < |g.buffers| then g.buffers[i].currentVersion else 0
  }

  ghost predicate ProducersOk(g: Graph, r: Resource) {
    var ps := Producers(g, r);
    && |ps| == CurrentVersion(g, r) + 1
    && ps[0] == INVALID_PASS
    && (forall v :: 1 <= v < |ps| ==> ps[v] < |g.passes| && Use(r, v - 1, v, true) in Uses(g.passes[ps[v]]))
    && (forall u, v :: 1 <= u <= v < |ps| ==> ps[u] <= ps[v])
  }

  ghost predicate UseOk(g: Graph, p: nat, u: Use) {
    && IsResource(g, u.resource)
    && var ps := Producers(g, u.resource);
    && u.consumed < |ps|
    && (u.consumed >= 1 ==> ps[u.consumed] <= p)
    && (if u.isWrite then u.produced == u.consumed + 1 < |ps| && ps[u.produced] == p else u.produced == 0)
  }

  /** The invariant every recording call keeps. */
  ghost predicate WellRecorded(g: Graph) {
    && |g.passes| < INVALID_PASS
    && |g.textureProducers| == |g.textures|
    && |g.bufferProducers| == |g.buffers|
    && (forall r :: IsResource(g, r) ==> ProducersOk(g, r))
    && (forall p, u :: 0 <= p < |g.passes| && u in Uses(g.passes[p]) ==> UseOk(g, p, u))
    && (forall p :: 0 <= p < |g.passes| ==> BuffersHaveNoLayout(g.passes[p].bufferAccesses))
  }

  ghost predicate BuffersHaveNoLayout(recs: seq<AccessRecord>) {
    forall j :: 0 <= j < |recs| ==> recs[j].access.layout == Undefined
  }

  /** Every read was recorded through the newest handle: no earlier pass had already produced
      a later version. Writes assert this in the source; reads do not. */
  ghost predicate ReadsNewest(g: Graph) {
    forall p, u, v :: 0 <= p < |g.passes| && u in Uses(g.passes[p]) && !u.isWrite
        && u.consumed < v < |Producers(g, u.resource)|
      ==> Producers(g, u.resource)[v] >= p
  }

  function AliveSet(ps: seq<PassNode>): set<nat> {
    set i: nat | i < |ps| && ps[i].isAlive
  }
}
