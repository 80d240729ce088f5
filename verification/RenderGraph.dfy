/** The graph object: the recording calls Setup makes, the passes of Compile, and the two
    executors. */
module RenderGraphs {
  import opened Options
  import opened RenderGraphData
  import opened RenderGraphCulling
  import opened RenderGraphBarriers
  import opened RenderGraphExecution

  datatype Handle = Handle(index: nat, version: nat)

  class CommandList {
    var commands: seq<Command>

    constructor ()
      ensures commands == []
    {
      commands := [];
    }
  }

  // ---------------------------------------------------------------- what recording does

  /** The pass list once the last pass has one more record. */
  function WithRecord(ps: seq<PassNode>, r: Resource, record: AccessRecord): seq<PassNode> {
    if ps == [] then ps
    else
      var last := |ps| - 1;
      match r
      case Texture(_) => ps[last := ps[last].(textureAccesses := ps[last].textureAccesses + [record])]
      case Buffer(_) => ps[last := ps[last].(bufferAccesses := ps[last].bufferAccesses + [record])]
  }

  /** The graph once resource r has one more version, produced by its last pass. */
  function WithVersion(g: Graph, r: Resource): Graph {
    var i, last := r.index, |g.passes| - 1;
    match r
    case Texture(_) =>
      if last < 0 || i >= |g.textures| || i >= |g.textureProducers| then g
      else g.(textures := g.textures[i := g.textures[i].(currentVersion := g.textures[i].currentVersion + 1)],
              textureProducers := g.textureProducers[i := g.textureProducers[i] + [last]])
    case Buffer(_) =>
      if last < 0 || i >= |g.buffers| || i >= |g.bufferProducers| then g
      else g.(buffers := g.buffers[i := g.buffers[i].(currentVersion := g.buffers[i].currentVersion + 1)],
              bufferProducers := g.bufferProducers[i := g.bufferProducers[i] + [last]])
  }

  /** The graph after its last pass records an access to resource r. */
  function WithAccess(g: Graph, r: Resource, consumed: nat, isWrite: bool, access: Access): Graph {
    var record := AccessRecord(r.index, consumed, if isWrite then CurrentVersion(g, r) + 1 else 0, isWrite, access);
    (if isWrite then WithVersion(g, r) else g).(passes := WithRecord(g.passes, r, record))
  }

  /** How g' differs from g once the last pass has recorded `use`. */
  ghost predicate Grown(g: Graph, g': Graph, use: Use) {
    var last := |g.passes| - 1;
    && last >= 0 && |g'.passes| == |g.passes|
    && |g'.textures| == |g.textures| && |g'.buffers| == |g.buffers|
    && |g'.textureProducers| == |g'.textures| && |g'.bufferProducers| == |g'.buffers|
    && (forall p :: 0 <= p < last ==> g'.passes[p] == g.passes[p])
    && Uses(g'.passes[last]) == Uses(g.passes[last]) + {use}
    && (forall s :: IsResource(g, s) ==>
          && Producers(g', s) == Producers(g, s) + (if use.isWrite && s == use.resource then [last] else [])
          && CurrentVersion(g', s) == CurrentVersion(g, s) + (if use.isWrite && s == use.resource then 1 else 0))
  }

  function NextUse(g: Graph, r: Resource, consumed: nat, isWrite: bool): Use
    requires IsResource(g, r)
  {
    Use(r, consumed, if isWrite then CurrentVersion(g, r) + 1 else 0, isWrite)
  }

  lemma WithAccessGrows(g: Graph, r: Resource, consumed: nat, isWrite: bool, access: Access)
    requires |g.passes| > 0 && IsResource(g, r)
    requires |g.textureProducers| == |g.textures| && |g.bufferProducers| == |g.buffers|
    ensures Grown(g, WithAccess(g, r, consumed, isWrite, access), NextUse(g, r, consumed, isWrite))
  {
    var g', last := WithAccess(g, r, consumed, isWrite, access), |g.passes| - 1;
    var use := NextUse(g, r, consumed, isWrite);
    var record := AccessRecord(r.index, consumed, use.produced, isWrite, access);
    var was, now := g.passes[last], g'.passes[last];
    match r {
      case Texture(_) =>
        assert forall x :: x in now.textureAccesses <==> x in was.textureAccesses || x == record;
        assert TextureUse(record) == use;
      case Buffer(_) =>
        assert forall x :: x in now.bufferAccesses <==> x in was.bufferAccesses || x == record;
        assert BufferUse(record) == use;
    }
    forall s | IsResource(g, s) && !(isWrite && s == r)
      ensures Producers(g', s) == Producers(g, s) + []
    {
    }
  }

  ghost predicate ConsumesValid(g: Graph, use: Use) {
    && IsResource(g, use.resource)
    && use == NextUse(g, use.resource, use.consumed, use.isWrite)
    && use.consumed <= CurrentVersion(g, use.resource)
    && (use.isWrite ==> use.consumed == CurrentVersion(g, use.resource))
  }

  lemma GrownProducersOk(g: Graph, g': Graph, use: Use, s: Resource)
    requires Grown(g, g', use) && ConsumesValid(g, use) && IsResource(g, s) && ProducersOk(g, s)
    requires |g.passes| < INVALID_PASS
    ensures ProducersOk(g', s)
  {
    var ps, ps' := Producers(g, s), Producers(g', s);
    forall v | 1 <= v < |ps'|
      ensures ps'[v] < |g'.passes| && Use(s, v - 1, v, true) in Uses(g'.passes[ps'[v]])
    {
      if v < |ps| {
        assert Use(s, v - 1, v, true) in Uses(g.passes[ps[v]]);
      }
    }
  }

  lemma GrownUseOk(g: Graph, g': Graph, use: Use, p: nat, u: Use)
    requires Grown(g, g', use) && ConsumesValid(g, use) && p < |g'.passes| && u in Uses(g'.passes[p])
    requires u in Uses(g.passes[p]) ==> UseOk(g, p, u)
    requires ProducersOk(g, use.resource)
    ensures UseOk(g', p, u)
  {
    if u !in Uses(g.passes[p]) {
      assert u == use && p == |g.passes| - 1;
    }
  }

  lemma GrownReadNewest(g: Graph, g': Graph, use: Use, p: nat, u: Use, v: nat)
    requires Grown(g, g', use) && ConsumesValid(g, use)
    requires p < |g'.passes| && u in Uses(g'.passes[p]) && !u.isWrite && u.consumed < v < |Producers(g', u.resource)|
    requires ProducersOk(g, use.resource) && use.consumed == CurrentVersion(g, use.resource)
    requires u in Uses(g.passes[p]) ==> UseOk(g, p, u)
    requires u in Uses(g.passes[p]) && v < |Producers(g, u.resource)| ==> Producers(g, u.resource)[v] >= p
    ensures Producers(g', u.resource)[v] >= p
  {
  }

  lemma GrownReadsNewest(g: Graph, g': Graph, use: Use)
    requires Grown(g, g', use) && ConsumesValid(g, use) && WellRecorded(g) && ReadsNewest(g)
    requires use.consumed == CurrentVersion(g, use.resource)
    ensures ReadsNewest(g')
  {
    forall p, u, v | 0 <= p < |g'.passes| && u in Uses(g'.passes[p]) && !u.isWrite
        && u.consumed < v < |Producers(g', u.resource)|
      ensures Producers(g', u.resource)[v] >= p
    {
      GrownReadNewest(g, g', use, p, u, v);
    }
  }

  /** Recording keeps the version tables and the access records consistent, and keeps "reads
      use the newest handle" as long as this access does. */
  lemma WithAccessKeeps(g: Graph, r: Resource, consumed: nat, isWrite: bool, access: Access)
    requires |g.passes| > 0 && IsResource(g, r) && WellRecorded(g)
    requires consumed <= CurrentVersion(g, r) && (isWrite ==> consumed == CurrentVersion(g, r))
    requires r.Buffer? ==> access.layout == Undefined
    ensures WellRecorded(WithAccess(g, r, consumed, isWrite, access))
    ensures ReadsNewest(g) && consumed == CurrentVersion(g, r) ==> ReadsNewest(WithAccess(g, r, consumed, isWrite, access))
  {
    var g', use := WithAccess(g, r, consumed, isWrite, access), NextUse(g, r, consumed, isWrite);
    WithAccessGrows(g, r, consumed, isWrite, access);
    WithAccessBuffers(g, r, consumed, isWrite, access);
    GrownKeeps(g, g', use);
  }

  lemma WithAccessBuffers(g: Graph, r: Resource, consumed: nat, isWrite: bool, access: Access)
    requires |g.passes| > 0 && IsResource(g, r)
    requires |g.textureProducers| == |g.textures| && |g.bufferProducers| == |g.buffers|
    requires forall p :: 0 <= p < |g.passes| ==> BuffersHaveNoLayout(g.passes[p].bufferAccesses)
    requires r.Buffer? ==> access.layout == Undefined
    ensures var g' := WithAccess(g, r, consumed, isWrite, access);
      forall p :: 0 <= p < |g'.passes| ==> BuffersHaveNoLayout(g'.passes[p].bufferAccesses)
  {
    assert BuffersHaveNoLayout(g.passes[|g.passes| - 1].bufferAccesses);
  }

  lemma GrownKeeps(g: Graph, g': Graph, use: Use)
    requires Grown(g, g', use) && ConsumesValid(g, use) && WellRecorded(g)
    requires forall p :: 0 <= p < |g'.passes| ==> BuffersHaveNoLayout(g'.passes[p].bufferAccesses)
    ensures WellRecorded(g')
    ensures ReadsNewest(g) && use.consumed == CurrentVersion(g, use.resource) ==> ReadsNewest(g')
  {
    forall s | IsResource(g', s)
      ensures ProducersOk(g', s)
    {
      assert IsResource(g, s);
      GrownProducersOk(g, g', use, s);
    }
    forall p, u | 0 <= p < |g'.passes| && u in Uses(g'.passes[p])
      ensures UseOk(g', p, u)
    {
      GrownUseOk(g, g', use, p, u);
    }
    if ReadsNewest(g) && use.consumed == CurrentVersion(g, use.resource) {
      GrownReadsNewest(g, g', use);
    }
  }

  lemma WithPassKeeps(g: Graph, node: PassNode)
    requires WellRecorded(g) && |g.passes| + 1 < INVALID_PASS
    requires node.textureAccesses == [] && node.bufferAccesses == []
    ensures WellRecorded(g.(passes := g.passes + [node]))
    ensures ReadsNewest(g) ==> ReadsNewest(g.(passes := g.passes + [node]))
  {
    var g' := g.(passes := g.passes + [node]);
    assert Uses(node) == {};
    forall s
      ensures IsResource(g', s) == IsResource(g, s) && Producers(g', s) == Producers(g, s)
      ensures IsResource(g, s) ==> CurrentVersion(g', s) == CurrentVersion(g, s) && ProducersOk(g', s)
    {
      if IsResource(g, s) {
        assert ProducersOk(g, s);
        PassAppended(g, node, s);
      }
    }
    forall p, u | 0 <= p < |g'.passes| && u in Uses(g'.passes[p])
      ensures UseOk(g', p, u)
    {
      assert p < |g.passes| && g'.passes[p] == g.passes[p];
      assert UseOk(g, p, u);
    }
  }

  lemma PassAppended(g: Graph, node: PassNode, s: Resource)
    requires IsResource(g, s) && ProducersOk(g, s)
    ensures ProducersOk(g.(passes := g.passes + [node]), s)
  {
    var g', ps := g.(passes := g.passes + [node]), Producers(g, s);
    assert Producers(g', s) == ps;
    forall v | 1 <= v < |ps|
      ensures Use(s, v - 1, v, true) in Uses(g'.passes[ps[v]])
    {
      assert Use(s, v - 1, v, true) in Uses(g.passes[ps[v]]);
    }
  }

  /** Adding a resource node, or changing what is not a version, keeps the records consistent. */
  lemma WithResourceKeeps(g: Graph, g': Graph)
    requires WellRecorded(g) && g'.passes == g.passes
    requires |g'.textureProducers| == |g'.textures| >= |g.textures| && |g'.bufferProducers| == |g'.buffers| >= |g.buffers|
    requires forall s :: IsResource(g, s) ==> Producers(g', s) == Producers(g, s) && CurrentVersion(g', s) == CurrentVersion(g, s)
    requires forall s :: IsResource(g', s) && !IsResource(g, s) ==> Producers(g', s) == [INVALID_PASS] && CurrentVersion(g', s) == 0
    ensures WellRecorded(g')
    ensures ReadsNewest(g) ==> ReadsNewest(g')
  {
    forall s | IsResource(g', s)
      ensures ProducersOk(g', s)
    {
      if IsResource(g, s) {
        assert ProducersOk(g, s);
      }
    }
    forall p, u | 0 <= p < |g'.passes| && u in Uses(g'.passes[p])
      ensures UseOk(g', p, u)
      ensures IsResource(g, u.resource)
    {
      assert UseOk(g, p, u);
    }
  }

  // ---------------------------------------------------------------- the object

  /** Two pass lists that differ only in the alive marks. */
  ghost predicate OnlyMarksDiffer(ps: seq<PassNode>, qs: seq<PassNode>) {
    |ps| == |qs| && forall i :: 0 <= i < |ps| ==> qs[i] == ps[i].(isAlive := qs[i].isAlive)
  }

  ghost predicate AsRecorded(node: PassNode) {
    node.textureBarriers == [] && node.bufferBarriers == [] && !node.mergeWithPrevious
  }

  ghost predicate Ascending(order: seq<nat>) {
    forall i, j :: 0 <= i < j < |order| ==> order[i] < order[j]
  }

  /** Two pass lists that differ only in the preludes. */
  ghost predicate OnlyBarriersDiffer(ps: seq<PassNode>, qs: seq<PassNode>) {
    |ps| == |qs| && forall i :: 0 <= i < |ps| ==>
      qs[i] == ps[i].(textureBarriers := qs[i].textureBarriers, bufferBarriers := qs[i].bufferBarriers)
  }

  ghost predicate RecordsInRange(ps: seq<PassNode>, textureCount: nat, bufferCount: nat) {
    forall p :: 0 <= p < |ps| ==>
      && InRange(ps[p].textureAccesses, textureCount)
      && InRange(ps[p].bufferAccesses, bufferCount)
      && BuffersHaveNoLayout(ps[p].bufferAccesses)
  }

  function TextureLists(ps: seq<PassNode>, order: seq<nat>): seq<seq<AccessRecord>>
    requires OrderOk(ps, order)
  {
    seq(|order|, k requires 0 <= k < |order| => ps[order[k]].textureAccesses)
  }

  function BufferLists(ps: seq<PassNode>, order: seq<nat>): seq<seq<AccessRecord>>
    requires OrderOk(ps, order)
  {
    seq(|order|, k requires 0 <= k < |order| => ps[order[k]].bufferAccesses)
  }

  function InitialTextureStates(textures: seq<TextureNode>): seq<SyncState> {
    seq(|textures|, i requires 0 <= i < |textures| =>
      SyncState(if textures[i].isImported then textures[i].initialLayout else Undefined, TOP_OF_PIPE, ACCESS_NONE))
  }

  function InitialBufferStates(n: nat): seq<SyncState> {
    seq(n, _ => SyncState(Undefined, TOP_OF_PIPE, ACCESS_NONE))
  }

  predicate NoLayouts(st: seq<SyncState>) {
    forall i :: 0 <= i < |st| ==> st[i].layout == Undefined
  }

  /** The first k executed passes carry the planned texture barriers, and `st` is where that
      leaves the textures. */
  ghost predicate TexturesPlanned(ps: seq<PassNode>, order: seq<nat>, init: seq<SyncState>, st: seq<SyncState>, k: nat) {
    && OrderOk(ps, order) && k <= |order|
    && var lists := TextureLists(ps, order);
    && AllInRange(lists, |init|) && st == StateAt(init, lists, k)
    && forall j :: 0 <= j < k ==> ps[order[j]].textureBarriers == BarriersAt(init, lists, j)
  }

  ghost predicate BuffersPlanned(ps: seq<PassNode>, order: seq<nat>, init: seq<SyncState>, st: seq<SyncState>, k: nat) {
    && OrderOk(ps, order) && k <= |order|
    && var lists := BufferLists(ps, order);
    && AllInRange(lists, |init|) && st == StateAt(init, lists, k) && NoLayouts(st)
    && forall j :: 0 <= j < k ==> ps[order[j]].bufferBarriers == BarriersAt(init, lists, j)
  }

  /** Only the pass at position k of the order changed. */
  ghost predicate OnlyAt(before: seq<PassNode>, after: seq<PassNode>, order: seq<nat>, k: nat) {
    && OrderOk(before, order) && OrderOk(after, order) && k < |order|
    && forall j :: 0 <= j < |order| && j != k ==> after[order[j]] == before[order[j]]
  }

  lemma AscendingOnlyAt(before: seq<PassNode>, after: seq<PassNode>, order: seq<nat>, k: nat)
    requires OrderOk(before, order) && Ascending(order) && k < |order|
    requires |after| == |before| && forall i :: 0 <= i < |before| && i != order[k] ==> after[i] == before[i]
    ensures OnlyAt(before, after, order, k)
  {
    forall j | 0 <= j < |order| && j != k
      ensures order[j] != order[k]
    {
      if j < k { assert order[j] < order[k]; } else { assert order[k] < order[j]; }
    }
  }

  /** The first k passes of the order have their preludes, and the states are those after them. */
  ghost predicate PlannedUpTo(was: seq<PassNode>, ps: seq<PassNode>, order: seq<nat>,
                              t0: seq<SyncState>, t: seq<SyncState>, b0: seq<SyncState>, b: seq<SyncState>, k: nat) {
    && Ascending(order) && OrderOk(was, order) && OnlyBarriersDiffer(was, ps)
    && TexturesPlanned(ps, order, t0, t, k) && BuffersPlanned(ps, order, b0, b, k)
    && forall j :: k <= j < |order| ==> ps[order[j]] == was[order[j]]
  }

  lemma PlanStarts(ps: seq<PassNode>, order: seq<nat>, t0: seq<SyncState>, b0: seq<SyncState>)
    requires Ascending(order) && OrderOk(ps, order) && RecordsInRange(ps, |t0|, |b0|) && NoLayouts(b0)
    ensures PlannedUpTo(ps, ps, order, t0, t0, b0, b0, 0)
  {
  }

  lemma PlanStep(was: seq<PassNode>, before: seq<PassNode>, after: seq<PassNode>, node: PassNode, order: seq<nat>,
                 t0: seq<SyncState>, t: seq<SyncState>, t': seq<SyncState>,
                 b0: seq<SyncState>, b: seq<SyncState>, b': seq<SyncState>, k: nat)
    requires PlannedUpTo(was, before, order, t0, t, b0, b, k) && k < |order|
    requires node == before[order[k]].(textureBarriers := node.textureBarriers, bufferBarriers := node.bufferBarriers)
    requires InRange(node.textureAccesses, |t|) && InRange(node.bufferAccesses, |b|) && NoLayouts(b')
    requires PlanPass(t, node.textureAccesses) == Plan(t', node.textureBarriers)
    requires PlanPass(b, node.bufferAccesses) == Plan(b', node.bufferBarriers)
    requires after == before[order[k] := node]
    ensures PlannedUpTo(was, after, order, t0, t', b0, b', k + 1)
  {
    PreludeWritten(was, before, after, order, k);
    TexturesStep(before, after, order, t0, t, t', k);
    BuffersStep(before, after, order, b0, b, b', k);
  }

  /** Writing the preludes of the k-th pass touches no other. */
  lemma PreludeWritten(was: seq<PassNode>, before: seq<PassNode>, after: seq<PassNode>, order: seq<nat>, k: nat)
    requires OrderOk(was, order) && Ascending(order) && k < |order| && OnlyBarriersDiffer(was, before)
    requires forall j :: k <= j < |order| ==> before[order[j]] == was[order[j]]
    requires |after| == |before| && forall i :: 0 <= i < |before| && i != order[k] ==> after[i] == before[i]
    requires after[order[k]] == before[order[k]].(textureBarriers := after[order[k]].textureBarriers, bufferBarriers := after[order[k]].bufferBarriers)
    ensures OnlyAt(before, after, order, k) && OnlyBarriersDiffer(was, after) && SameAccesses(before, after)
    ensures OrderOk(before, order) && forall j :: k < j < |order| ==> after[order[j]] == was[order[j]]
  {
    AscendingOnlyAt(before, after, order, k);
    forall j | k < j < |order|
      ensures after[order[j]] == was[order[j]]
    {
      assert order[k] < order[j];
    }
  }

  /** Two pass lists that differ only in what Compile fills in. */
  ghost predicate SameRecords(ps: seq<PassNode>, qs: seq<PassNode>) {
    |ps| == |qs| && forall i :: 0 <= i < |ps| ==>
      qs[i] == ps[i].(isAlive := qs[i].isAlive, mergeWithPrevious := qs[i].mergeWithPrevious,
                      textureBarriers := qs[i].textureBarriers, bufferBarriers := qs[i].bufferBarriers)
  }

  ghost predicate SameAccesses(ps: seq<PassNode>, qs: seq<PassNode>) {
    && |ps| == |qs|
    && forall i :: 0 <= i < |ps| ==>
         qs[i].textureAccesses == ps[i].textureAccesses && qs[i].bufferAccesses == ps[i].bufferAccesses
  }

  lemma SameLists(ps: seq<PassNode>, qs: seq<PassNode>, order: seq<nat>)
    requires SameAccesses(ps, qs) && OrderOk(ps, order)
    ensures TextureLists(qs, order) == TextureLists(ps, order) && BufferLists(qs, order) == BufferLists(ps, order)
  {
  }

  lemma TexturesStep(before: seq<PassNode>, after: seq<PassNode>, order: seq<nat>,
                     init: seq<SyncState>, st: seq<SyncState>, st': seq<SyncState>, k: nat)
    requires TexturesPlanned(before, order, init, st, k) && OnlyAt(before, after, order, k) && SameAccesses(before, after)
    requires InRange(before[order[k]].textureAccesses, |st|)
    requires PlanPass(st, before[order[k]].textureAccesses) == Plan(st', after[order[k]].textureBarriers)
    ensures TexturesPlanned(after, order, init, st', k + 1)
  {
    SameLists(before, after, order);
  }

  lemma BuffersStep(before: seq<PassNode>, after: seq<PassNode>, order: seq<nat>,
                    init: seq<SyncState>, st: seq<SyncState>, st': seq<SyncState>, k: nat)
    requires BuffersPlanned(before, order, init, st, k) && OnlyAt(before, after, order, k) && SameAccesses(before, after)
    requires InRange(before[order[k]].bufferAccesses, |st|) && NoLayouts(st')
    requires PlanPass(st, before[order[k]].bufferAccesses) == Plan(st', after[order[k]].bufferBarriers)
    ensures BuffersPlanned(after, order, init, st', k + 1)
  {
    SameLists(before, after, order);
  }

  lemma HintsKeepPlans(ps: seq<PassNode>, qs: seq<PassNode>, order: seq<nat>, init: seq<SyncState>, st: seq<SyncState>, k: nat)
    requires OnlyHintsDiffer(ps, qs)
    ensures TexturesPlanned(ps, order, init, st, k) ==> TexturesPlanned(qs, order, init, st, k)
    ensures BuffersPlanned(ps, order, init, st, k) ==> BuffersPlanned(qs, order, init, st, k)
  {
    if OrderOk(ps, order) {
      SameLists(ps, qs, order);
    }
  }

  ghost predicate OnlyHintsDiffer(ps: seq<PassNode>, qs: seq<PassNode>) {
    |ps| == |qs| && forall i :: 0 <= i < |ps| ==> qs[i] == ps[i].(mergeWithPrevious := qs[i].mergeWithPrevious)
  }

  ghost predicate TexturesRealized(was: seq<TextureNode>, now: seq<TextureNode>, created: seq<bool>) {
    |now| == |was| == |created| && forall i :: 0 <= i < |was| ==> now[i] == was[i].(realized := was[i].isImported || created[i])
  }

  ghost predicate BuffersRealized(was: seq<BufferNode>, now: seq<BufferNode>, created: seq<bool>) {
    |now| == |was| == |created| && forall i :: 0 <= i < |was| ==> now[i] == was[i].(realized := was[i].isImported || created[i])
  }

  ghost predicate NoHints(ps: seq<PassNode>) {
    forall i :: 0 <= i < |ps| ==> !ps[i].mergeWithPrevious
  }

  lemma BarriersKeepMarks(ps: seq<PassNode>, qs: seq<PassNode>)
    requires OnlyBarriersDiffer(ps, qs)
    ensures AliveSet(qs) == AliveSet(ps) && SameRecords(ps, qs) && (NoHints(ps) ==> NoHints(qs))
  {
    assert forall i :: 0 <= i < |ps| ==> qs[i].isAlive == ps[i].isAlive;
  }

  lemma HintsKeepMarks(ps: seq<PassNode>, qs: seq<PassNode>)
    requires OnlyHintsDiffer(ps, qs)
    ensures AliveSet(qs) == AliveSet(ps) && SameRecords(ps, qs)
  {
    assert forall i :: 0 <= i < |ps| ==> qs[i].isAlive == ps[i].isAlive;
  }

  lemma MarksKeepRecords(ps: seq<PassNode>, qs: seq<PassNode>)
    requires OnlyMarksDiffer(ps, qs)
    ensures SameRecords(ps, qs)
  {
  }

  lemma SameRecordsTwice(ps: seq<PassNode>, qs: seq<PassNode>, rs: seq<PassNode>)
    requires SameRecords(ps, qs) && SameRecords(qs, rs)
    ensures SameRecords(ps, rs)
  {
  }

  /** The first n executed passes carry the hint Compile is to compute. */
  ghost predicate HintsMatch(ps: seq<PassNode>, order: seq<nat>, canMergeWith: (nat, nat) -> bool, n: nat) {
    && OrderOk(ps, order) && n <= |order|
    && forall i :: 0 <= i < n ==> HintOk(ps, order, canMergeWith, i)
  }

  ghost predicate HintOk(ps: seq<PassNode>, order: seq<nat>, canMergeWith: (nat, nat) -> bool, i: nat)
    requires OrderOk(ps, order) && i < |order|
  {
    ps[order[i]].mergeWithPrevious <==>
      i > 0 && ps[order[i]].isRaster && ps[order[i - 1]].isRaster && canMergeWith(order[i], order[i - 1])
  }

  class RenderGraph {
    var passes: seq<PassNode>
    var textures: seq<TextureNode>
    var buffers: seq<BufferNode>
    var executionOrder: seq<nat>
    var renderPassBatches: seq<Batch>
    var textureVersionProducers: seq<seq<nat>>
    var bufferVersionProducers: seq<seq<nat>>
    var currentTextureState: seq<SyncState>
    var currentBufferState: seq<SyncState>
    var compiled: bool

    function View(): Graph
      reads this
    {
      Graph(passes, textures, buffers, textureVersionProducers, bufferVersionProducers)
    }

    /** The state between construction and Compile. */
    ghost predicate Recording()
      reads this
    {
      !compiled && WellRecorded(View()) && forall i :: 0 <= i < |passes| ==> AsRecorded(passes[i])
    }

    ghost predicate Issued(r: Resource, h: Handle)
      reads this
    {
      r.index == h.index && IsResource(View(), r) && h.version <= CurrentVersion(View(), r)
    }

    constructor ()
      ensures Recording() && ReadsNewest(View()) && passes == []
    {
      passes, textures, buffers, executionOrder, renderPassBatches := [], [], [], [], [];
      textureVersionProducers, bufferVersionProducers := [], [];
      currentTextureState, currentBufferState, compiled := [], [], false;
    }

    /** Registers a pass; its Setup runs at once, so every record lands in the newest pass. */
    method AddPass(isRaster: bool) returns (passIndex: nat)
      requires Recording() && |passes| + 1 < INVALID_PASS
      modifies this`passes
      ensures Recording() && passIndex == |passes| - 1 == old(|passes|)
      ensures old(ReadsNewest(View())) ==> ReadsNewest(View())
      ensures passes == old(passes) + [PassNode(isRaster, false, true, false, [], [], [], [])]
    {
      var node := PassNode(isRaster, false, true, false, [], [], [], []);
      WithPassKeeps(View(), node);
      passIndex := |passes|;
      passes := passes + [node];
    }

    method CreateTexture() returns (h: Handle)
      requires Recording()
      modifies this`textures, this`textureVersionProducers
      ensures Recording() && Issued(Texture(h.index), h) && h == Handle(old(|textures|), 0)
      ensures old(ReadsNewest(View())) ==> ReadsNewest(View())
      ensures textures[..h.index] == old(textures) && textures[h.index] == TextureNode(false, Undefined, None, 0, false)
    {
      h := AddTextureNode(TextureNode(false, Undefined, None, 0, false));
    }

    method ImportTexture(initialLayout: ImageLayout) returns (h: Handle)
      requires Recording()
      modifies this`textures, this`textureVersionProducers
      ensures Recording() && Issued(Texture(h.index), h) && h == Handle(old(|textures|), 0)
      ensures old(ReadsNewest(View())) ==> ReadsNewest(View())
      ensures textures[..h.index] == old(textures) && textures[h.index] == TextureNode(true, initialLayout, None, 0, false)
    {
      h := AddTextureNode(TextureNode(true, initialLayout, None, 0, false));
    }

    method AddTextureNode(node: TextureNode) returns (h: Handle)
      requires Recording() && node.currentVersion == 0
      modifies this`textures, this`textureVersionProducers
      ensures Recording() && Issued(Texture(h.index), h) && h == Handle(old(|textures|), 0)
      ensures old(ReadsNewest(View())) ==> ReadsNewest(View())
      ensures textures == old(textures) + [node]
    {
      ghost var g := View();
      textures := textures + [node];
      textureVersionProducers := textureVersionProducers + [[INVALID_PASS]];
      WithResourceKeeps(g, View());
      h := Handle(|textures| - 1, 0);
    }

    method CreateBuffer(isImported: bool) returns (h: Handle)
      requires Recording()
      modifies this`buffers, this`bufferVersionProducers
      ensures Recording() && Issued(Buffer(h.index), h) && h == Handle(old(|buffers|), 0)
      ensures old(ReadsNewest(View())) ==> ReadsNewest(View())
      ensures buffers == old(buffers) + [BufferNode(isImported, 0, false)]
    {
      ghost var g := View();
      buffers := buffers + [BufferNode(isImported, 0, false)];
      bufferVersionProducers := bufferVersionProducers + [[INVALID_PASS]];
      WithResourceKeeps(g, View());
      h := Handle(|buffers| - 1, 0);
    }

    method SetTextureFinalLayout(h: Handle, finalLayout: ImageLayout)
      requires Recording() && Issued(Texture(h.index), h)
      modifies this`textures
      ensures Recording()
      ensures old(ReadsNewest(View())) ==> ReadsNewest(View())
      ensures textures == old(textures)[h.index := old(textures)[h.index].(finalLayout := Some(finalLayout))]
    {
      ghost var g := View();
      textures := textures[h.index := textures[h.index].(finalLayout := Some(finalLayout))];
      WithResourceKeeps(g, View());
    }

    method MarkPassSideEffect(passIndex: nat)
      requires Recording() && passIndex < |passes|
      modifies this`passes
      ensures Recording()
      ensures old(ReadsNewest(View())) ==> ReadsNewest(View())
      ensures passes == old(passes)[passIndex := old(passes)[passIndex].(isSideEffect := true)]
    {
      ghost var g := View();
      passes := passes[passIndex := passes[passIndex].(isSideEffect := true)];
      SameUsesKeep(g, View());
    }

    method RecordTextureRead(passIndex: nat, h: Handle, access: Access)
      requires Recording() && passIndex == |passes| - 1 && Issued(Texture(h.index), h)
      modifies this`passes
      ensures Recording() && View() == WithAccess(old(View()), Texture(h.index), h.version, false, access)
      ensures var was := old(passes)[passIndex];
        passes == old(passes)[passIndex :=
          was.(textureAccesses := was.textureAccesses + [AccessRecord(h.index, h.version, 0, false, access)])]
      ensures old(ReadsNewest(View())) && h.version == old(textures[h.index].currentVersion) ==> ReadsNewest(View())
    {
      WithAccessKeeps(View(), Texture(h.index), h.version, false, access);
      ReadTexture(h, access);
    }

    method ReadTexture(h: Handle, access: Access)
      requires |passes| > 0 && forall i :: 0 <= i < |passes| ==> AsRecorded(passes[i])
      modifies this`passes
      ensures View() == WithAccess(old(View()), Texture(h.index), h.version, false, access)
      ensures var was := old(passes)[|old(passes)| - 1];
        passes == old(passes)[|old(passes)| - 1 :=
          was.(textureAccesses := was.textureAccesses + [AccessRecord(h.index, h.version, 0, false, access)])]
      ensures forall i :: 0 <= i < |passes| ==> AsRecorded(passes[i])
    {
      PushTextureRecord(AccessRecord(h.index, h.version, 0, false, access));
    }

    method RecordTextureWrite(passIndex: nat, h: Handle, access: Access) returns (written: Handle)
      requires Recording() && passIndex == |passes| - 1 && Issued(Texture(h.index), h)
      requires h.version == textures[h.index].currentVersion
      modifies this`passes, this`textures, this`textureVersionProducers
      ensures Recording() && View() == WithAccess(old(View()), Texture(h.index), h.version, true, access)
      ensures var was := old(passes)[passIndex];
        passes == old(passes)[passIndex :=
          was.(textureAccesses := was.textureAccesses + [AccessRecord(h.index, h.version, h.version + 1, true, access)])]
      ensures textures == old(textures)[h.index := old(textures)[h.index].(currentVersion := h.version + 1)]
      ensures textureVersionProducers
           == old(textureVersionProducers)[h.index := old(textureVersionProducers)[h.index] + [passIndex]]
      ensures written == Handle(h.index, h.version + 1) && Issued(Texture(h.index), written)
      ensures old(ReadsNewest(View())) ==> ReadsNewest(View())
    {
      WithAccessKeeps(View(), Texture(h.index), h.version, true, access);
      var newVersion := WriteTexture(passIndex, h, access);
      written := Handle(h.index, newVersion);
    }

    method WriteTexture(passIndex: nat, h: Handle, access: Access) returns (newVersion: nat)
      requires passIndex == |passes| - 1 && |textureVersionProducers| == |textures|
      requires h.index < |textures| && h.version == textures[h.index].currentVersion
      requires forall i :: 0 <= i < |passes| ==> AsRecorded(passes[i])
      modifies this`passes, this`textures, this`textureVersionProducers
      ensures View() == WithAccess(old(View()), Texture(h.index), h.version, true, access) && newVersion == h.version + 1
      ensures var was := old(passes)[passIndex];
        passes == old(passes)[passIndex :=
          was.(textureAccesses := was.textureAccesses + [AccessRecord(h.index, h.version, h.version + 1, true, access)])]
      ensures textures == old(textures)[h.index := old(textures)[h.index].(currentVersion := h.version + 1)]
      ensures textureVersionProducers
           == old(textureVersionProducers)[h.index := old(textureVersionProducers)[h.index] + [passIndex]]
      ensures forall i :: 0 <= i < |passes| ==> AsRecorded(passes[i])
    {
      newVersion := BumpTexture(h.index, passIndex);
      PushTextureRecord(AccessRecord(h.index, h.version, newVersion, true, access));
    }

    /** Opens the next version of a texture and notes which pass produces it. */
    method BumpTexture(index: nat, passIndex: nat) returns (newVersion: nat)
      requires index < |textures| && |textureVersionProducers| == |textures|
      modifies this`textures, this`textureVersionProducers
      ensures newVersion == old(textures[index].currentVersion) + 1
      ensures textures == old(textures)[index := old(textures)[index].(currentVersion := newVersion)]
      ensures textureVersionProducers
           == old(textureVersionProducers)[index := old(textureVersionProducers)[index] + [passIndex]]
    {
      newVersion := textures[index].currentVersion + 1;
      textures := textures[index := textures[index].(currentVersion := newVersion)];
      textureVersionProducers := textureVersionProducers[index := textureVersionProducers[index] + [passIndex]];
    }

    method PushTextureRecord(record: AccessRecord)
      requires |passes| > 0
      modifies this`passes
      ensures var last := old(passes)[|old(passes)| - 1];
        passes == old(passes)[|old(passes)| - 1 := last.(textureAccesses := last.textureAccesses + [record])]
      ensures (forall i :: 0 <= i < |passes| ==> old(AsRecorded(passes[i]))) ==> forall i :: 0 <= i < |passes| ==> AsRecorded(passes[i])
    {
      var last := |passes| - 1;
      passes := passes[last := passes[last].(textureAccesses := passes[last].textureAccesses + [record])];
    }

    method RecordBufferRead(passIndex: nat, h: Handle, stages: bv64, mask: bv64)
      requires Recording() && passIndex == |passes| - 1 && Issued(Buffer(h.index), h)
      modifies this`passes
      ensures Recording() && View() == WithAccess(old(View()), Buffer(h.index), h.version, false, Access(Undefined, stages, mask))
      ensures var was := old(passes)[passIndex];
        passes == old(passes)[passIndex :=
          was.(bufferAccesses := was.bufferAccesses + [AccessRecord(h.index, h.version, 0, false, Access(Undefined, stages, mask))])]
      ensures old(ReadsNewest(View())) && h.version == old(buffers[h.index].currentVersion) ==> ReadsNewest(View())
    {
      WithAccessKeeps(View(), Buffer(h.index), h.version, false, Access(Undefined, stages, mask));
      ReadBuffer(h, Access(Undefined, stages, mask));
    }

    method ReadBuffer(h: Handle, access: Access)
      requires |passes| > 0 && forall i :: 0 <= i < |passes| ==> AsRecorded(passes[i])
      modifies this`passes
      ensures View() == WithAccess(old(View()), Buffer(h.index), h.version, false, access)
      ensures var was := old(passes)[|old(passes)| - 1];
        passes == old(passes)[|old(passes)| - 1 :=
          was.(bufferAccesses := was.bufferAccesses + [AccessRecord(h.index, h.version, 0, false, access)])]
      ensures forall i :: 0 <= i < |passes| ==> AsRecorded(passes[i])
    {
      PushBufferRecord(AccessRecord(h.index, h.version, 0, false, access));
    }

    method RecordBufferWrite(passIndex: nat, h: Handle, stages: bv64, mask: bv64) returns (written: Handle)
      requires Recording() && passIndex == |passes| - 1 && Issued(Buffer(h.index), h)
      requires h.version == buffers[h.index].currentVersion
      modifies this`passes, this`buffers, this`bufferVersionProducers
      ensures Recording() && View() == WithAccess(old(View()), Buffer(h.index), h.version, true, Access(Undefined, stages, mask))
      ensures var was := old(passes)[passIndex];
        passes == old(passes)[passIndex := was.(bufferAccesses :=
          was.bufferAccesses + [AccessRecord(h.index, h.version, h.version + 1, true, Access(Undefined, stages, mask))])]
      ensures buffers == old(buffers)[h.index := old(buffers)[h.index].(currentVersion := h.version + 1)]
      ensures bufferVersionProducers
           == old(bufferVersionProducers)[h.index := old(bufferVersionProducers)[h.index] + [passIndex]]
      ensures written == Handle(h.index, h.version + 1) && Issued(Buffer(h.index), written)
      ensures old(ReadsNewest(View())) ==> ReadsNewest(View())
    {
      WithAccessKeeps(View(), Buffer(h.index), h.version, true, Access(Undefined, stages, mask));
      var newVersion := WriteBuffer(passIndex, h, Access(Undefined, stages, mask));
      written := Handle(h.index, newVersion);
    }

    method WriteBuffer(passIndex: nat, h: Handle, access: Access) returns (newVersion: nat)
      requires passIndex == |passes| - 1 && |bufferVersionProducers| == |buffers|
      requires h.index < |buffers| && h.version == buffers[h.index].currentVersion
      requires forall i :: 0 <= i < |passes| ==> AsRecorded(passes[i])
      modifies this`passes, this`buffers, this`bufferVersionProducers
      ensures View() == WithAccess(old(View()), Buffer(h.index), h.version, true, access) && newVersion == h.version + 1
      ensures var was := old(passes)[passIndex];
        passes == old(passes)[passIndex :=
          was.(bufferAccesses := was.bufferAccesses + [AccessRecord(h.index, h.version, h.version + 1, true, access)])]
      ensures buffers == old(buffers)[h.index := old(buffers)[h.index].(currentVersion := h.version + 1)]
      ensures bufferVersionProducers
           == old(bufferVersionProducers)[h.index := old(bufferVersionProducers)[h.index] + [passIndex]]
      ensures forall i :: 0 <= i < |passes| ==> AsRecorded(passes[i])
    {
      newVersion := BumpBuffer(h.index, passIndex);
      PushBufferRecord(AccessRecord(h.index, h.version, newVersion, true, access));
    }

    /** Opens the next version of a buffer and notes which pass produces it. */
    method BumpBuffer(index: nat, passIndex: nat) returns (newVersion: nat)
      requires index < |buffers| && |bufferVersionProducers| == |buffers|
      modifies this`buffers, this`bufferVersionProducers
      ensures newVersion == old(buffers[index].currentVersion) + 1
      ensures buffers == old(buffers)[index := old(buffers)[index].(currentVersion := newVersion)]
      ensures bufferVersionProducers
           == old(bufferVersionProducers)[index := old(bufferVersionProducers)[index] + [passIndex]]
    {
      newVersion := buffers[index].currentVersion + 1;
      buffers := buffers[index := buffers[index].(currentVersion := newVersion)];
      bufferVersionProducers := bufferVersionProducers[index := bufferVersionProducers[index] + [passIndex]];
    }

    method PushBufferRecord(record: AccessRecord)
      requires |passes| > 0
      modifies this`passes
      ensures var last := old(passes)[|old(passes)| - 1];
        passes == old(passes)[|old(passes)| - 1 := last.(bufferAccesses := last.bufferAccesses + [record])]
      ensures (forall i :: 0 <= i < |passes| ==> old(AsRecorded(passes[i]))) ==> forall i :: 0 <= i < |passes| ==> AsRecorded(passes[i])
    {
      var last := |passes| - 1;
      passes := passes[last := passes[last].(bufferAccesses := passes[last].bufferAccesses + [record])];
    }

    // -------------------------------------------------------------- culling

    method CullDeadPasses()
      requires Recording()
      modifies this`passes
      ensures OnlyMarksDiffer(old(passes), passes)
      ensures IsLiveSet(old(View()), AliveSet(passes))
    {
      ghost var g := View();
      MarkRoots();
      var i := |passes|;
      while i > 0
        invariant 0 <= i <= |passes| && OnlyMarksDiffer(g.passes, passes)
        invariant Swept(g, i, AliveSet(passes))
      {
        i := i - 1;
        ghost var before := AliveSet(passes);
        if passes[i].isAlive {
          MarkProducers(g, i);
          SweepStep(g, i, before, AliveSet(passes));
        } else {
          SweepStep(g, i, before, before);
        }
      }
      SweptIsLive(g, AliveSet(passes));
    }

    method MarkRoots()
      requires Recording()
      modifies this`passes
      ensures OnlyMarksDiffer(old(passes), passes)
      ensures forall p: nat :: p in AliveSet(passes) <==> IsRoot(old(View()), p)
      ensures HasRoots(old(View()), AliveSet(passes)) && BelowEveryClosedSet(old(View()), AliveSet(passes))
    {
      ghost var g := View();
      MarkSideEffects();
      MarkLastProducers(g);
    }

    method MarkSideEffects()
      modifies this`passes
      ensures OnlyMarksDiffer(old(passes), passes)
      ensures forall j :: 0 <= j < |passes| ==> passes[j].isAlive == passes[j].isSideEffect
    {
      for i := 0 to |passes|
        invariant OnlyMarksDiffer(old(passes), passes)
        invariant forall j :: 0 <= j < i ==> passes[j].isAlive == passes[j].isSideEffect
      {
        passes := passes[i := passes[i].(isAlive := passes[i].isSideEffect)];
      }
    }

    method MarkLastProducers(ghost g: Graph)
      requires WellRecorded(g) && g == View().(passes := g.passes) && OnlyMarksDiffer(g.passes, passes)
      requires forall j :: 0 <= j < |passes| ==> passes[j].isAlive == passes[j].isSideEffect
      modifies this`passes
      ensures OnlyMarksDiffer(g.passes, passes)
      ensures forall p: nat :: p in AliveSet(passes) <==> IsRoot(g, p)
    {
      for t := 0 to |textures|
        invariant OnlyMarksDiffer(g.passes, passes)
        invariant forall j: nat :: j < |passes| ==>
          (passes[j].isAlive <==> passes[j].isSideEffect || exists u: nat :: u < t && IsLastProducer(g, u, j))
      {
        if textures[t].finalLayout.Some? {
          assert ProducersOk(g, Texture(t));
          var producers := textureVersionProducers[t];
          if |producers| > 1 {
            var lastProducer := producers[|producers| - 1];
            if lastProducer != INVALID_PASS {
              passes := passes[lastProducer := passes[lastProducer].(isAlive := true)];
              assert IsLastProducer(g, t, lastProducer);
            }
          }
        }
      }
    }

    /** The two inner loops of the sweep: keep the producers of everything pass i consumes. */
    method MarkProducers(ghost g: Graph, i: nat)
      requires g == View().(passes := g.passes) && OnlyMarksDiffer(g.passes, passes) && WellRecorded(g)
      requires i < |passes| && passes[i].isAlive && BelowEveryClosedSet(g, AliveSet(passes))
      modifies this`passes
      ensures OnlyMarksDiffer(g.passes, passes) && Marked(g, i, old(AliveSet(passes)), AliveSet(passes))
      ensures FedWithin(g, i, AliveSet(passes))
    {
      ghost var before := AliveSet(passes);
      MarkTextureProducers(g, i);
      ghost var between := AliveSet(passes);
      MarkBufferProducers(g, i);
      FedByBothLists(g, i, between, AliveSet(passes));
    }

    method MarkTextureProducers(ghost g: Graph, i: nat)
      requires g == View().(passes := g.passes) && OnlyMarksDiffer(g.passes, passes) && WellRecorded(g)
      requires i < |passes| && i in AliveSet(passes) && BelowEveryClosedSet(g, AliveSet(passes))
      modifies this`passes
      ensures OnlyMarksDiffer(g.passes, passes) && Marked(g, i, old(AliveSet(passes)), AliveSet(passes))
      ensures TexturesFed(g, i, AliveSet(passes), |g.passes[i].textureAccesses|)
    {
      ghost var before := AliveSet(passes);
      var accesses := passes[i].textureAccesses;
      for k := 0 to |accesses|
        invariant OnlyMarksDiffer(g.passes, passes) && Marked(g, i, before, AliveSet(passes))
        invariant TexturesFed(g, i, AliveSet(passes), k)
      {
        FeedTexture(g, i, k, before, accesses[k]);
      }
    }

    method FeedTexture(ghost g: Graph, ghost i: nat, ghost k: nat, ghost before: set<nat>, record: AccessRecord)
      requires g == View().(passes := g.passes) && OnlyMarksDiffer(g.passes, passes) && WellRecorded(g) && i < |g.passes|
      requires k < |g.passes[i].textureAccesses| && record == g.passes[i].textureAccesses[k]
      requires Marked(g, i, before, AliveSet(passes)) && TexturesFed(g, i, AliveSet(passes), k)
      modifies this`passes
      ensures OnlyMarksDiffer(g.passes, passes)
      ensures Marked(g, i, before, AliveSet(passes)) && TexturesFed(g, i, AliveSet(passes), k + 1)
    {
      FeedingTexture(g, i, k, before, AliveSet(passes));
      if record.consumed != 0 {
        var producer := textureVersionProducers[record.index][record.consumed];
        if producer != INVALID_PASS {
          MarkAlive(g.passes, producer);
        }
      }
    }

    method MarkBufferProducers(ghost g: Graph, i: nat)
      requires g == View().(passes := g.passes) && OnlyMarksDiffer(g.passes, passes) && WellRecorded(g)
      requires i < |passes| && i in AliveSet(passes) && BelowEveryClosedSet(g, AliveSet(passes))
      modifies this`passes
      ensures OnlyMarksDiffer(g.passes, passes) && Marked(g, i, old(AliveSet(passes)), AliveSet(passes))
      ensures BuffersFed(g, i, AliveSet(passes), |g.passes[i].bufferAccesses|)
    {
      ghost var before := AliveSet(passes);
      var accesses := passes[i].bufferAccesses;
      for k := 0 to |accesses|
        invariant OnlyMarksDiffer(g.passes, passes) && Marked(g, i, before, AliveSet(passes))
        invariant BuffersFed(g, i, AliveSet(passes), k)
      {
        FeedBuffer(g, i, k, before, accesses[k]);
      }
    }

    method FeedBuffer(ghost g: Graph, ghost i: nat, ghost k: nat, ghost before: set<nat>, record: AccessRecord)
      requires g == View().(passes := g.passes) && OnlyMarksDiffer(g.passes, passes) && WellRecorded(g) && i < |g.passes|
      requires k < |g.passes[i].bufferAccesses| && record == g.passes[i].bufferAccesses[k]
      requires Marked(g, i, before, AliveSet(passes)) && BuffersFed(g, i, AliveSet(passes), k)
      modifies this`passes
      ensures OnlyMarksDiffer(g.passes, passes)
      ensures Marked(g, i, before, AliveSet(passes)) && BuffersFed(g, i, AliveSet(passes), k + 1)
    {
      FeedingBuffer(g, i, k, before, AliveSet(passes));
      if record.consumed != 0 {
        var producer := bufferVersionProducers[record.index][record.consumed];
        if producer != INVALID_PASS {
          MarkAlive(g.passes, producer);
        }
      }
    }

    method MarkAlive(ghost was: seq<PassNode>, producer: nat)
      requires OnlyMarksDiffer(was, passes) && producer < |passes|
      modifies this`passes
      ensures OnlyMarksDiffer(was, passes)
      ensures AliveSet(passes) == old(AliveSet(passes)) + {producer}
    {
      ghost var before := passes;
      passes := passes[producer := passes[producer].(isAlive := true)];
      assert AliveSet(passes) == AliveSet(before) + {producer};
    }

    /** Add order is already topological: keep the alive passes in it. */
    method TopologicallySortPasses()
      modifies this`executionOrder
      ensures executionOrder == Kept(AliveSet(passes), |passes|)
    {
      executionOrder := [];
      for i := 0 to |passes|
        invariant executionOrder == Kept(AliveSet(passes), i)
      {
        if passes[i].isAlive {
          executionOrder := executionOrder + [i];
        }
      }
    }

    /** Imported nodes take the caller's resource; `created` says which transient ones the pool
        or the device could provide, textures and buffers apart. */
    method RealizeResources(createdTextures: seq<bool>, createdBuffers: seq<bool>)
      requires |createdTextures| == |textures| && |createdBuffers| == |buffers|
      modifies this`textures, this`buffers
      ensures TexturesRealized(old(textures), textures, createdTextures)
      ensures BuffersRealized(old(buffers), buffers, createdBuffers)
    {
      for i := 0 to |textures|
        invariant |textures| == old(|textures|) && buffers == old(buffers)
        invariant forall j :: 0 <= j < i ==>
          textures[j] == old(textures)[j].(realized := old(textures)[j].isImported || createdTextures[j])
        invariant forall j :: i <= j < |textures| ==> textures[j] == old(textures)[j]
      {
        textures := textures[i := textures[i].(realized := textures[i].isImported || createdTextures[i])];
      }
      for i := 0 to |buffers|
        invariant |buffers| == old(|buffers|) && TexturesRealized(old(textures), textures, createdTextures)
        invariant forall j :: 0 <= j < i ==>
          buffers[j] == old(buffers)[j].(realized := old(buffers)[j].isImported || createdBuffers[j])
        invariant forall j :: i <= j < |buffers| ==> buffers[j] == old(buffers)[j]
      {
        buffers := buffers[i := buffers[i].(realized := buffers[i].isImported || createdBuffers[i])];
      }
    }

    // -------------------------------------------------------------- barriers

    method PlanBarriers()
      requires Ascending(executionOrder) && OrderOk(passes, executionOrder)
      requires forall i :: 0 <= i < |passes| ==> AsRecorded(passes[i])
      requires RecordsInRange(passes, |textures|, |buffers|)
      modifies this`passes, this`currentTextureState, this`currentBufferState
      ensures OnlyBarriersDiffer(old(passes), passes)
      ensures TexturesPlanned(passes, executionOrder, InitialTextureStates(textures), currentTextureState, |executionOrder|)
      ensures BuffersPlanned(passes, executionOrder, InitialBufferStates(|buffers|), currentBufferState, |executionOrder|)
    {
      currentTextureState := InitialTextureStates(textures);
      currentBufferState := InitialBufferStates(|buffers|);
      PlanStarts(passes, executionOrder, currentTextureState, currentBufferState);
      for k := 0 to |executionOrder|
        invariant Planning(old(passes), k)
      {
        PlanOnePass(old(passes), k);
      }
    }

    /** The first k executed passes are planned; the others still look as recorded. */
    ghost predicate Planning(was: seq<PassNode>, k: nat)
      reads this
    {
      PlannedUpTo(was, passes, executionOrder, InitialTextureStates(textures), currentTextureState,
                  InitialBufferStates(|buffers|), currentBufferState, k)
    }

    method PlanOnePass(ghost was: seq<PassNode>, k: nat)
      requires Planning(was, k) && k < |executionOrder|
      requires AsRecorded(was[executionOrder[k]]) && RecordsInRange(was, |textures|, |buffers|)
      modifies this`passes, this`currentTextureState, this`currentBufferState
      ensures Planning(was, k + 1)
    {
      ghost var before, textureBefore, bufferBefore := passes, currentTextureState, currentBufferState;
      var passIdx := executionOrder[k];
      var textureBarriers := PlanTextureBarriers(passes[passIdx]);
      var bufferBarriers := PlanBufferBarriers(passes[passIdx]);
      passes := passes[passIdx := passes[passIdx].(textureBarriers := textureBarriers, bufferBarriers := bufferBarriers)];
      PlanStep(was, before, passes, passes[passIdx], executionOrder,
               InitialTextureStates(textures), textureBefore, currentTextureState,
               InitialBufferStates(|buffers|), bufferBefore, currentBufferState, k);
    }

    /** The texture half of one pass: compare each record with the current state. */
    method PlanTextureBarriers(pass: PassNode) returns (prelude: seq<Barrier>)
      requires InRange(pass.textureAccesses, |currentTextureState|) && pass.textureBarriers == []
      modifies this`currentTextureState
      ensures Plan(currentTextureState, prelude) == PlanPass(old(currentTextureState), pass.textureAccesses)
    {
      var st0, records := currentTextureState, pass.textureAccesses;
      prelude := pass.textureBarriers;
      for j := 0 to |records|
        invariant InRange(records[..j], |st0|)
        invariant Plan(currentTextureState, prelude) == PlanPass(st0, records[..j])
      {
        var record := records[j];
        PlanNext(st0, records, j);
        var prev := currentTextureState[record.index];
        var layoutChange := prev.layout != record.access.layout;
        var prevWasWrite := IsWriteAccess(prev.access);
        var nextIsWrite := record.isWrite;
        if layoutChange || prevWasWrite || nextIsWrite {
          prelude := prelude + [Barrier(record.index, prev.layout, record.access.layout,
                                        prev.stages, prev.access, record.access.stages, record.access.mask)];
        }
        currentTextureState := currentTextureState[record.index :=
          SyncState(record.access.layout, record.access.stages, record.access.mask)];
      }
      assert records[..|records|] == records;
    }

    /** The buffer half of one pass: no layouts to compare. */
    method PlanBufferBarriers(pass: PassNode) returns (prelude: seq<Barrier>)
      requires InRange(pass.bufferAccesses, |currentBufferState|) && pass.bufferBarriers == []
      requires BuffersHaveNoLayout(pass.bufferAccesses) && NoLayouts(currentBufferState)
      modifies this`currentBufferState
      ensures Plan(currentBufferState, prelude) == PlanPass(old(currentBufferState), pass.bufferAccesses)
      ensures NoLayouts(currentBufferState)
    {
      var st0, records := currentBufferState, pass.bufferAccesses;
      prelude := pass.bufferBarriers;
      for j := 0 to |records|
        invariant InRange(records[..j], |st0|) && NoLayouts(currentBufferState)
        invariant Plan(currentBufferState, prelude) == PlanPass(st0, records[..j])
      {
        var record := records[j];
        PlanNext(st0, records, j);
        var prev := currentBufferState[record.index];
        var prevWasWrite := IsWriteAccess(prev.access);
        var nextIsWrite := record.isWrite;
        if prevWasWrite || nextIsWrite {
          prelude := prelude + [Barrier(record.index, Undefined, Undefined,
                                        prev.stages, prev.access, record.access.stages, record.access.mask)];
        }
        currentBufferState := currentBufferState[record.index :=
          SyncState(Undefined, record.access.stages, record.access.mask)];
      }
      assert records[..|records|] == records;
    }

    // -------------------------------------------------------------- batching

    /** Asks each raster pass whether it can merge with the raster pass executed just before. */
    method ComputeMergeHints(canMergeWith: (nat, nat) -> bool)
      requires Ascending(executionOrder) && OrderOk(passes, executionOrder)
      requires NoHints(passes)
      modifies this`passes
      ensures OnlyHintsDiffer(old(passes), passes)
      ensures HintsMatch(passes, executionOrder, canMergeWith, |executionOrder|)
    {
      var i := 1;
      while i < |executionOrder|
        invariant 1 <= i && OnlyHintsDiffer(old(passes), passes)
        invariant HintsMatch(passes, executionOrder, canMergeWith, if i < |executionOrder| then i else |executionOrder|)
        invariant forall j :: i <= j < |executionOrder| ==> !passes[executionOrder[j]].mergeWithPrevious
      {
        ghost var before := passes;
        var curr, prev := executionOrder[i], executionOrder[i - 1];
        if passes[curr].isRaster && passes[prev].isRaster {
          passes := passes[curr := passes[curr].(mergeWithPrevious := canMergeWith(curr, prev))];
        }
        AscendingOnlyAt(before, passes, executionOrder, i);
        HintStep(before, passes, executionOrder, canMergeWith, i);
        i := i + 1;
      }
    }

    method ComputeRenderPassBatches()
      requires OrderOk(passes, executionOrder)
      modifies this`renderPassBatches
      ensures Batched(passes, executionOrder, renderPassBatches, |executionOrder|)
    {
      renderPassBatches := [];
      if executionOrder == [] {
        return;
      }
      for i := 0 to |executionOrder|
        invariant Batched(passes, executionOrder, renderPassBatches, i)
      {
        BatchPass(i);
      }
    }

    /** The next pass joins the last batch or opens a new one. */
    method BatchPass(i: nat)
      requires Batched(passes, executionOrder, renderPassBatches, i) && i < |executionOrder|
      modifies this`renderPassBatches
      ensures Batched(passes, executionOrder, renderPassBatches, i + 1)
    {
      var node := passes[executionOrder[i]];
      var canExtend := renderPassBatches != [] && node.isRaster && node.mergeWithPrevious;
      GrowBatches(passes, executionOrder, renderPassBatches, i);
      if canExtend {
        var last := renderPassBatches[|renderPassBatches| - 1];
        renderPassBatches := renderPassBatches[|renderPassBatches| - 1 := last.(count := last.count + 1)];
      } else {
        renderPassBatches := renderPassBatches + [Batch(i, 1)];
      }
    }

    // -------------------------------------------------------------- compile

    /** What the executors rely on. */
    ghost predicate Compiled()
      reads this
    {
      && compiled && |currentTextureState| == |textures|
      && Batched(passes, executionOrder, renderPassBatches, |executionOrder|)
      && HintsAreRaster(passes, executionOrder)
    }

    /** What Compile promises about the graph g that was recorded: exactly the live passes run,
        in add order, with the planned preludes, hints and batches. */
    ghost predicate CompiledFrom(g: Graph, canMergeWith: (nat, nat) -> bool)
      reads this
    {
      && Lowered(canMergeWith)
      && IsLiveSet(g, AliveSet(passes))
      && executionOrder == Kept(AliveSet(passes), |passes|)
      && SameRecords(g.passes, passes)
    }

    ghost predicate Lowered(canMergeWith: (nat, nat) -> bool)
      reads this
    {
      && Compiled()
      && HintsMatch(passes, executionOrder, canMergeWith, |executionOrder|)
      && TexturesPlanned(passes, executionOrder, InitialTextureStates(textures), currentTextureState, |executionOrder|)
      && BuffersPlanned(passes, executionOrder, InitialBufferStates(|buffers|), currentBufferState, |executionOrder|)
    }

    method Compile(createdTextures: seq<bool>, createdBuffers: seq<bool>, canMergeWith: (nat, nat) -> bool)
      requires Recording() && |createdTextures| == |textures| && |createdBuffers| == |buffers|
      modifies this
      ensures CompiledFrom(old(View()), canMergeWith)
      ensures TexturesRealized(old(textures), textures, createdTextures)
      ensures BuffersRealized(old(buffers), buffers, createdBuffers)
    {
      ghost var g := View();
      CullAndOrder();
      MarksKeepRecords(g.passes, passes);
      ghost var culled := passes;
      Lower(createdTextures, createdBuffers, canMergeWith);
      SameRecordsTwice(g.passes, culled, passes);
    }

    /** Everything after culling. */
    method Lower(createdTextures: seq<bool>, createdBuffers: seq<bool>, canMergeWith: (nat, nat) -> bool)
      requires |createdTextures| == |textures| && |createdBuffers| == |buffers|
      requires Ascending(executionOrder) && OrderOk(passes, executionOrder)
      requires (forall i :: 0 <= i < |passes| ==> AsRecorded(passes[i])) && RecordsInRange(passes, |textures|, |buffers|)
      modifies this
      ensures Lowered(canMergeWith) && executionOrder == old(executionOrder)
      ensures AliveSet(passes) == old(AliveSet(passes)) && SameRecords(old(passes), passes)
      ensures TexturesRealized(old(textures), textures, createdTextures)
      ensures BuffersRealized(old(buffers), buffers, createdBuffers)
    {
      RealizeResources(createdTextures, createdBuffers);
      PlanAndBatch(canMergeWith);
      compiled := true;
    }

    method CullAndOrder()
      requires Recording()
      modifies this`passes, this`executionOrder
      ensures OnlyMarksDiffer(old(passes), passes)
      ensures IsLiveSet(old(View()), AliveSet(passes))
      ensures executionOrder == Kept(AliveSet(passes), |passes|)
      ensures Ascending(executionOrder) && OrderOk(passes, executionOrder)
      ensures (forall i :: 0 <= i < |passes| ==> AsRecorded(passes[i])) && RecordsInRange(passes, |textures|, |buffers|)
    {
      RecordsAreInRange(View());
      ghost var was := passes;
      CullDeadPasses();
      assert forall i :: 0 <= i < |passes| ==> AsRecorded(was[i]) ==> AsRecorded(passes[i]);
      TopologicallySortPasses();
      KeptAscends(AliveSet(passes), |passes|);
    }

    method PlanAndBatch(canMergeWith: (nat, nat) -> bool)
      requires Ascending(executionOrder) && OrderOk(passes, executionOrder)
      requires (forall i :: 0 <= i < |passes| ==> AsRecorded(passes[i])) && RecordsInRange(passes, |textures|, |buffers|)
      modifies this`passes, this`currentTextureState, this`currentBufferState, this`renderPassBatches
      ensures AliveSet(passes) == old(AliveSet(passes)) && SameRecords(old(passes), passes)
      ensures HintsMatch(passes, executionOrder, canMergeWith, |executionOrder|) && HintsAreRaster(passes, executionOrder)
      ensures TexturesPlanned(passes, executionOrder, InitialTextureStates(textures), currentTextureState, |executionOrder|)
      ensures BuffersPlanned(passes, executionOrder, InitialBufferStates(|buffers|), currentBufferState, |executionOrder|)
      ensures Batched(passes, executionOrder, renderPassBatches, |executionOrder|)
    {
      PlanAndHint(canMergeWith);
      HintsAreBetweenRasterPasses(passes, executionOrder, canMergeWith);
      ComputeRenderPassBatches();
    }

    method PlanAndHint(canMergeWith: (nat, nat) -> bool)
      requires Ascending(executionOrder) && OrderOk(passes, executionOrder)
      requires (forall i :: 0 <= i < |passes| ==> AsRecorded(passes[i])) && RecordsInRange(passes, |textures|, |buffers|)
      modifies this`passes, this`currentTextureState, this`currentBufferState
      ensures AliveSet(passes) == old(AliveSet(passes)) && SameRecords(old(passes), passes)
      ensures HintsMatch(passes, executionOrder, canMergeWith, |executionOrder|)
      ensures TexturesPlanned(passes, executionOrder, InitialTextureStates(textures), currentTextureState, |executionOrder|)
      ensures BuffersPlanned(passes, executionOrder, InitialBufferStates(|buffers|), currentBufferState, |executionOrder|)
    {
      ghost var was := passes;
      assert NoHints(was);
      PlanBarriers();
      ghost var planned := passes;
      BarriersKeepMarks(was, planned);
      ComputeMergeHints(canMergeWith);
      HintsKeepMarks(planned, passes);
      SameRecordsTwice(was, planned, passes);
      HintsKeepPlans(planned, passes, executionOrder, InitialTextureStates(textures), currentTextureState, |executionOrder|);
      HintsKeepPlans(planned, passes, executionOrder, InitialBufferStates(|buffers|), currentBufferState, |executionOrder|);
    }

    // -------------------------------------------------------------- executors

    method RecordPass(cmd: CommandList, compiledIndex: nat)
      requires OrderOk(passes, executionOrder) && compiledIndex < |executionOrder|
      modifies cmd
      ensures var pass := executionOrder[compiledIndex];
        cmd.commands == old(cmd.commands) + PassCommands(passes[pass], pass)
    {
      var passIdx := executionOrder[compiledIndex];
      var pass := passes[passIdx];
      var stream := [PushMarker(passIdx)];
      if pass.textureBarriers != [] || pass.bufferBarriers != [] {
        stream := stream + [BarrierGroup(pass.textureBarriers, pass.bufferBarriers)];
      }
      if pass.isRaster {
        stream := stream + [BeginRendering(passIdx)];
      }
      stream := stream + [Body(passIdx)];
      if pass.isRaster {
        stream := stream + [EndRendering];
      }
      cmd.commands := cmd.commands + (stream + [PopMarker]);
    }

    function ClosingBarriers(): seq<Barrier>
      requires |currentTextureState| == |textures|
      reads this
    {
      FinalBarriers(textures, currentTextureState, |textures|)
    }

    method RecordFinalLayoutTransitions(cmd: CommandList)
      requires |currentTextureState| == |textures|
      modifies cmd
      ensures cmd.commands == old(cmd.commands) + ClosingCommands(ClosingBarriers())
    {
      var barriers: seq<Barrier> := [];
      for texIdx := 0 to |textures|
        invariant barriers == FinalBarriers(textures, currentTextureState, texIdx)
      {
        var node, prev := textures[texIdx], currentTextureState[texIdx];
        if node.finalLayout.Some? && node.realized && prev.layout != node.finalLayout.value {
          barriers := barriers + [Barrier(texIdx, prev.layout, node.finalLayout.value,
                                          prev.stages, prev.access, BOTTOM_OF_PIPE, ACCESS_NONE)];
        }
      }
      if barriers != [] {
        cmd.commands := cmd.commands + [BarrierGroup(barriers, [])];
      }
    }

    /** The stream a single command list receives. */
    function SerialStream(): seq<Command>
      requires OrderOk(passes, executionOrder) && |currentTextureState| == |textures|
      reads this
    {
      Stream(passes, executionOrder, 0, |executionOrder|) + ClosingCommands(ClosingBarriers())
    }

    method Execute(cmd: CommandList)
      requires Compiled()
      modifies cmd
      ensures cmd.commands == old(cmd.commands) + SerialStream()
    {
      RecordPasses(cmd);
      RecordFinalLayoutTransitions(cmd);
    }

    method RecordPasses(cmd: CommandList)
      requires OrderOk(passes, executionOrder)
      modifies cmd
      ensures cmd.commands == old(cmd.commands) + Stream(passes, executionOrder, 0, |executionOrder|)
    {
      for i := 0 to |executionOrder|
        invariant cmd.commands == old(cmd.commands) + Stream(passes, executionOrder, 0, i)
      {
        RecordPass(cmd, i);
      }
    }

    /** Records one batch on the calling thread into a list of its own. */
    method RecordSerialBatch(batch: Batch) returns (cmd: CommandList)
      requires OrderOk(passes, executionOrder) && batch.firstExecIndex + batch.count <= |executionOrder|
      ensures fresh(cmd)
      ensures cmd.commands == Stream(passes, executionOrder, batch.firstExecIndex, batch.firstExecIndex + batch.count)
    {
      cmd := new CommandList();
      for k := 0 to batch.count
        invariant cmd.commands == Stream(passes, executionOrder, batch.firstExecIndex, batch.firstExecIndex + k)
      {
        RecordPass(cmd, batch.firstExecIndex + k);
      }
    }

    /** Fans a batch out to worker tasks, one list per pass, and waits for all of them. The
        schedule says which task takes the next step; each step records one command. */
    method RecordParallelBatch(batch: Batch, schedule: seq<nat>) returns (cmds: seq<CommandList>)
      requires OrderOk(passes, executionOrder) && batch.firstExecIndex + batch.count <= |executionOrder|
      requires IsInterleaving(schedule, Programs(passes, executionOrder, batch))
      ensures |cmds| == batch.count && fresh(set c | c in cmds)
      ensures Contents(cmds) == Programs(passes, executionOrder, batch)
    {
      cmds := NewLists(batch.count);
      RunTasks(cmds, Programs(passes, executionOrder, batch), schedule);
    }

    static method NewLists(count: nat) returns (cmds: seq<CommandList>)
      ensures |cmds| == count && fresh(set c | c in cmds) && Distinct(cmds)
      ensures forall i :: 0 <= i < |cmds| ==> cmds[i].commands == []
    {
      cmds := [];
      for k := 0 to count
        invariant |cmds| == k && fresh(set c | c in cmds) && Distinct(cmds)
        invariant forall i :: 0 <= i < k ==> cmds[i].commands == []
      {
        var cmd := new CommandList();
        cmds := cmds + [cmd];
      }
    }

    static method RunTasks(cmds: seq<CommandList>, programs: seq<seq<Command>>, schedule: seq<nat>)
      requires |cmds| == |programs| && Distinct(cmds) && IsInterleaving(schedule, programs)
      requires forall i :: 0 <= i < |cmds| ==> cmds[i].commands == []
      modifies set c | c in cmds
      ensures Contents(cmds) == programs
    {
      for i := 0 to |schedule|
        invariant forall k :: 0 <= k < |cmds| ==> Count(schedule[..i], k) <= |programs[k]|
        invariant forall k :: 0 <= k < |cmds| ==> cmds[k].commands == programs[k][..Count(schedule[..i], k)]
      {
        var task := schedule[i];
        forall k | 0 <= k < |cmds|
          ensures Count(schedule[..i], k) + (if task == k then 1 else 0) == Count(schedule[..i + 1], k) <= |programs[k]|
        {
          CountPrefix(schedule, i, k);
        }
        var cmd := cmds[task];
        cmd.commands := cmd.commands + [programs[task][|cmd.commands|]];
      }
      assert schedule[..|schedule|] == schedule;
      forall k | 0 <= k < |cmds|
        ensures cmds[k].commands == programs[k]
      {
        assert Count(schedule, k) == |programs[k]|;
      }
    }

    /** One batch: on workers when it has several passes, else on the calling thread. */
    method RecordBatch(batch: Batch, hasWorkers: bool, schedule: seq<nat>) returns (cmds: seq<CommandList>)
      requires BatchFits(batch)
      requires hasWorkers ==> IsInterleaving(schedule, Programs(passes, executionOrder, batch))
      ensures forall c :: c in cmds ==> fresh(c)
      ensures |cmds| == if hasWorkers && batch.count > 1 then batch.count else 1
      ensures Concat(Contents(cmds)) == Stream(passes, executionOrder, batch.firstExecIndex, batch.firstExecIndex + batch.count)
    {
      if hasWorkers && batch.count > 1 {
        cmds := RecordParallelBatch(batch, schedule);
        ProgramsConcat(passes, executionOrder, batch);
      } else {
        var cmd := RecordSerialBatch(batch);
        cmds := [cmd];
        ConcatOne(cmd);
      }
    }

    /** The parallel executor: whatever order the workers run in, submitting its lists in order
        is submitting the serial stream. */
    method ExecuteParallel(hasWorkers: bool, schedules: seq<seq<nat>>) returns (out: seq<CommandList>)
      requires Compiled() && |schedules| == |renderPassBatches| && (hasWorkers ==> SchedulesOk(schedules))
      ensures forall c :: c in out ==> fresh(c)
      ensures Concat(Contents(out)) == SerialStream()
    {
      out := RecordBatches(hasWorkers, schedules);
      var finalCmd := new CommandList();
      ghost var before := Contents(out);
      RecordFinalLayoutTransitions(finalCmd);
      assert Contents(out) == before;
      ConcatContents(out, [finalCmd]);
      ConcatOne(finalCmd);
      out := out + [finalCmd];
    }

    method RecordBatches(hasWorkers: bool, schedules: seq<seq<nat>>) returns (out: seq<CommandList>)
      requires OrderOk(passes, executionOrder) && Partitions(renderPassBatches, |executionOrder|)
      requires |schedules| == |renderPassBatches| && (hasWorkers ==> SchedulesOk(schedules))
      ensures forall c :: c in out ==> fresh(c)
      ensures Concat(Contents(out)) == Stream(passes, executionOrder, 0, |executionOrder|)
    {
      out := [];
      ghost var done := 0;
      for b := 0 to |renderPassBatches|
        invariant (forall c :: c in out ==> fresh(c)) && done <= |executionOrder|
        invariant done == EndOf(renderPassBatches[..b])
        invariant Concat(Contents(out)) == Stream(passes, executionOrder, 0, done)
      {
        PartitionPrefix(renderPassBatches, |executionOrder|, b);
        ghost var before := Contents(out);
        var cmds := RecordBatch(renderPassBatches[b], hasWorkers, schedules[b]);
        assert Contents(out) == before;
        ConcatContents(out, cmds);
        out := out + cmds;
        StreamSplit(passes, executionOrder, 0, done, EndOf(renderPassBatches[..b + 1]));
        done := EndOf(renderPassBatches[..b + 1]);
      }
      assert renderPassBatches[..|renderPassBatches|] == renderPassBatches;
      EndOfPartition(renderPassBatches, |executionOrder|);
    }

    ghost predicate SchedulesOk(schedules: seq<seq<nat>>)
      reads this
    {
      && |schedules| == |renderPassBatches|
      && forall b :: 0 <= b < |schedules| ==>
        && BatchFits(renderPassBatches[b])
        && IsInterleaving(schedules[b], Programs(passes, executionOrder, renderPassBatches[b]))
    }

    predicate BatchFits(batch: Batch)
      reads this
    {
      OrderOk(passes, executionOrder) && batch.firstExecIndex + batch.count <= |executionOrder|
    }
  }

  ghost predicate Distinct(cmds: seq<CommandList>) {
    forall i, j :: 0 <= i < j < |cmds| ==> cmds[i] != cmds[j]
  }

  lemma ConcatOne(cmd: CommandList)
    ensures Concat(Contents([cmd])) == cmd.commands
  {
    assert Contents([cmd]) == [cmd.commands];
    assert [cmd.commands][..0] == [];
    assert Concat([cmd.commands]) == Concat([]) + cmd.commands;
  }

  lemma ConcatContents(a: seq<CommandList>, b: seq<CommandList>)
    ensures Concat(Contents(a + b)) == Concat(Contents(a)) + Concat(Contents(b))
  {
    assert Contents(a + b) == Contents(a) + Contents(b);
    ConcatAppend(Contents(a), Contents(b));
  }

  function Contents(cmds: seq<CommandList>): seq<seq<Command>>
    reads cmds
  {
    seq(|cmds|, i requires 0 <= i < |cmds| reads cmds => cmds[i].commands)
  }

  lemma RecordsAreInRange(g: Graph)
    requires WellRecorded(g)
    ensures RecordsInRange(g.passes, |g.textures|, |g.buffers|)
  {
    forall p | 0 <= p < |g.passes|
      ensures InRange(g.passes[p].textureAccesses, |g.textures|) && InRange(g.passes[p].bufferAccesses, |g.buffers|)
    {
      forall k | 0 <= k < |g.passes[p].textureAccesses|
        ensures g.passes[p].textureAccesses[k].index < |g.textures|
      {
        TextureUseIn(g, p, k);
      }
      forall k | 0 <= k < |g.passes[p].bufferAccesses|
        ensures g.passes[p].bufferAccesses[k].index < |g.buffers|
      {
        BufferUseIn(g, p, k);
      }
    }
  }

  lemma {:induction false} KeptAscends(keep: set<nat>, n: nat)
    ensures Ascending(Kept(keep, n))
    ensures forall k :: 0 <= k < |Kept(keep, n)| ==> Kept(keep, n)[k] < n
  {
    KeptBelow(keep, n);
    if n > 0 {
      KeptAscends(keep, n - 1);
      KeptBelow(keep, n - 1);
    }
  }

  // ---------------------------------------------------------------- facts about the sweep

  lemma HintsAreBetweenRasterPasses(ps: seq<PassNode>, order: seq<nat>, canMergeWith: (nat, nat) -> bool)
    requires HintsMatch(ps, order, canMergeWith, |order|)
    ensures HintsAreRaster(ps, order)
  {
    forall i | 0 <= i < |order| && ps[order[i]].mergeWithPrevious
      ensures i > 0 && ps[order[i]].isRaster && ps[order[i - 1]].isRaster
    {
      assert HintOk(ps, order, canMergeWith, i);
    }
  }

  lemma HintStep(before: seq<PassNode>, after: seq<PassNode>, order: seq<nat>, canMergeWith: (nat, nat) -> bool, i: nat)
    requires OnlyAt(before, after, order, i) && HintsMatch(before, order, canMergeWith, i) && i >= 1
    requires OnlyHintsDiffer(before, after)
    requires after[order[i]].mergeWithPrevious <==>
      before[order[i]].isRaster && before[order[i - 1]].isRaster && canMergeWith(order[i], order[i - 1])
    ensures HintsMatch(after, order, canMergeWith, i + 1)
  {
    assert forall j :: 0 <= j < |order| ==> after[order[j]].isRaster == before[order[j]].isRaster;
    forall j | 0 <= j < i
      ensures HintOk(after, order, canMergeWith, j)
    {
      assert HintOk(before, order, canMergeWith, j);
    }
  }

  lemma SameUsesKeep(g: Graph, g': Graph)
    requires WellRecorded(g) && SameAccesses(g.passes, g'.passes)
    requires g' == g.(passes := g'.passes)
    ensures WellRecorded(g')
    ensures ReadsNewest(g) ==> ReadsNewest(g')
  {
    assert forall p :: 0 <= p < |g.passes| ==> Uses(g'.passes[p]) == Uses(g.passes[p]);
    forall s | IsResource(g', s)
      ensures ProducersOk(g', s)
    {
      assert ProducersOk(g, s);
    }
    forall p, u | 0 <= p < |g'.passes| && u in Uses(g'.passes[p])
      ensures UseOk(g', p, u)
    {
      assert UseOk(g, p, u);
    }
  }

  ghost predicate BelowEveryClosedSet(g: Graph, s: set<nat>) {
    forall t: set<nat> :: HasRoots(g, t) && Closed(g, t) ==> s <= t
  }

  /** The sweep has handled the passes from i on: each kept one has its producers kept. */
  ghost predicate Swept(g: Graph, i: nat, s: set<nat>) {
    && (forall p :: p in s ==> p < |g.passes|)
    && HasRoots(g, s) && BelowEveryClosedSet(g, s)
    && forall p :: p in s && i <= p < |g.passes| ==> FedWithin(g, p, s)
  }

  /** What handling pass i may do to the kept set. */
  ghost predicate Marked(g: Graph, i: nat, before: set<nat>, after: set<nat>) {
    && i in before && before <= after && BelowEveryClosedSet(g, after)
    && forall p :: p in after && p !in before ==> p < i
  }

  lemma SweepStep(g: Graph, i: nat, before: set<nat>, after: set<nat>)
    requires i < |g.passes| && Swept(g, i + 1, before)
    requires if i in before then Marked(g, i, before, after) && FedWithin(g, i, after) else after == before
    ensures Swept(g, i, after)
  {
    forall p | p in after && i <= p < |g.passes|
      ensures FedWithin(g, p, after)
    {
      if p > i {
        assert FedWithin(g, p, before);
      }
    }
  }

  lemma SweptIsLive(g: Graph, s: set<nat>)
    requires Swept(g, 0, s)
    ensures IsLiveSet(g, s)
  {
  }

  ghost predicate UseFed(g: Graph, u: Use, s: set<nat>) {
    1 <= u.consumed < |Producers(g, u.resource)| ==> Producers(g, u.resource)[u.consumed] in s
  }

  ghost predicate TexturesFed(g: Graph, i: nat, s: set<nat>, k: nat)
    requires i < |g.passes| && k <= |g.passes[i].textureAccesses|
  {
    forall j :: 0 <= j < k ==> UseFed(g, TextureUse(g.passes[i].textureAccesses[j]), s)
  }

  ghost predicate BuffersFed(g: Graph, i: nat, s: set<nat>, k: nat)
    requires i < |g.passes| && k <= |g.passes[i].bufferAccesses|
  {
    forall j :: 0 <= j < k ==> UseFed(g, BufferUse(g.passes[i].bufferAccesses[j]), s)
  }

  lemma TextureUseIn(g: Graph, i: nat, k: nat)
    requires WellRecorded(g) && i < |g.passes| && k < |g.passes[i].textureAccesses|
    ensures var u := TextureUse(g.passes[i].textureAccesses[k]);
      u in Uses(g.passes[i]) && UseOk(g, i, u) && ProducersOk(g, u.resource)
  {
  }

  lemma BufferUseIn(g: Graph, i: nat, k: nat)
    requires WellRecorded(g) && i < |g.passes| && k < |g.passes[i].bufferAccesses|
    ensures var u := BufferUse(g.passes[i].bufferAccesses[k]);
      u in Uses(g.passes[i]) && UseOk(g, i, u) && ProducersOk(g, u.resource)
  {
  }

  /** Keeping the producer of the version the k-th texture record consumes. */
  lemma FeedingTexture(g: Graph, i: nat, k: nat, before: set<nat>, s: set<nat>)
    requires WellRecorded(g) && i < |g.passes| && k < |g.passes[i].textureAccesses|
    requires Marked(g, i, before, s) && TexturesFed(g, i, s, k)
    ensures var r := g.passes[i].textureAccesses[k];
      if r.consumed == 0 then TexturesFed(g, i, s, k + 1)
      else
        && r.index < |g.textureProducers| && r.consumed < |g.textureProducers[r.index]|
        && var p := g.textureProducers[r.index][r.consumed];
        p < |g.passes| && p != INVALID_PASS && Marked(g, i, before, s + {p}) && TexturesFed(g, i, s + {p}, k + 1)
  {
    var u := TextureUse(g.passes[i].textureAccesses[k]);
    TextureUseIn(g, i, k);
    if u.consumed != 0 {
      MarkKeeps(g, i, before, s, u);
    }
  }

  /** Keeping the producer of the version the k-th buffer record consumes. */
  lemma FeedingBuffer(g: Graph, i: nat, k: nat, before: set<nat>, s: set<nat>)
    requires WellRecorded(g) && i < |g.passes| && k < |g.passes[i].bufferAccesses|
    requires Marked(g, i, before, s) && BuffersFed(g, i, s, k)
    ensures var r := g.passes[i].bufferAccesses[k];
      if r.consumed == 0 then BuffersFed(g, i, s, k + 1)
      else
        && r.index < |g.bufferProducers| && r.consumed < |g.bufferProducers[r.index]|
        && var p := g.bufferProducers[r.index][r.consumed];
        p < |g.passes| && p != INVALID_PASS && Marked(g, i, before, s + {p}) && BuffersFed(g, i, s + {p}, k + 1)
  {
    var u := BufferUse(g.passes[i].bufferAccesses[k]);
    BufferUseIn(g, i, k);
    if u.consumed != 0 {
      MarkKeeps(g, i, before, s, u);
    }
  }

  lemma FedByBothLists(g: Graph, i: nat, s: set<nat>, t: set<nat>)
    requires i < |g.passes| && s <= t
    requires TexturesFed(g, i, s, |g.passes[i].textureAccesses|) && BuffersFed(g, i, t, |g.passes[i].bufferAccesses|)
    ensures FedWithin(g, i, t)
  {
    forall u | u in Uses(g.passes[i])
      ensures UseFed(g, u, t)
    {
      if r :| r in g.passes[i].textureAccesses && u == TextureUse(r) {
        var j :| 0 <= j < |g.passes[i].textureAccesses| && g.passes[i].textureAccesses[j] == r;
        assert UseFed(g, u, s);
      } else {
        var r :| r in g.passes[i].bufferAccesses && u == BufferUse(r);
        var j :| 0 <= j < |g.passes[i].bufferAccesses| && g.passes[i].bufferAccesses[j] == r;
      }
    }
  }

  lemma MarkKeeps(g: Graph, i: nat, before: set<nat>, s: set<nat>, u: Use)
    requires i < |g.passes| && Marked(g, i, before, s) && u in Uses(g.passes[i])
    requires UseOk(g, i, u) && u.consumed >= 1
    ensures Marked(g, i, before, s + {Producers(g, u.resource)[u.consumed]})
  {
    var p := Producers(g, u.resource)[u.consumed];
    forall t: set<nat> | HasRoots(g, t) && Closed(g, t)
      ensures s + {p} <= t
    {
      assert s <= t;
      assert FedWithin(g, i, t);
    }
  }
}
