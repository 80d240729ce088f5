/** What the two executors record: one command stream, or an ordered set of command lists. */
module RenderGraphExecution {
  import opened RenderGraphData

  datatype Command =
    | PushMarker(pass: nat)
    | BarrierGroup(textures: seq<Barrier>, buffers: seq<Barrier>)
    | BeginRendering(pass: nat)
    | Body(pass: nat)
    | EndRendering
    | PopMarker

  /** A run of consecutive executed passes that record into one batch. */
  datatype Batch = Batch(firstExecIndex: nat, count: nat)

  function PassCommands(node: PassNode, pass: nat): seq<Command> {
    [PushMarker(pass)]
    + (if node.textureBarriers != [] || node.bufferBarriers != []
       then [BarrierGroup(node.textureBarriers, node.bufferBarriers)] else [])
    + (if node.isRaster then [BeginRendering(pass)] else [])
    + [Body(pass)]
    + (if node.isRaster then [EndRendering] else [])
    + [PopMarker]
  }

  predicate OrderOk(ps: seq<PassNode>, order: seq<nat>) {
    forall k :: 0 <= k < |order| ==> order[k] < |ps|
  }

  /** The streams of the executed passes lo..hi-1, one after the other. */
  function Stream(ps: seq<PassNode>, order: seq<nat>, lo: nat, hi: nat): seq<Command>
    requires OrderOk(ps, order) && lo <= hi <= |order|
  {
    if lo == hi then [] else Stream(ps, order, lo, hi - 1) + PassCommands(ps[order[hi - 1]], order[hi - 1])
  }

  lemma {:induction false} StreamSplit(ps: seq<PassNode>, order: seq<nat>, lo: nat, mid: nat, hi: nat)
    requires OrderOk(ps, order) && lo <= mid <= hi <= |order|
    ensures Stream(ps, order, lo, mid) + Stream(ps, order, mid, hi) == Stream(ps, order, lo, hi)
  {
    if mid < hi {
      StreamSplit(ps, order, lo, mid, hi - 1);
      var last := PassCommands(ps[order[hi - 1]], order[hi - 1]);
      assert Stream(ps, order, lo, mid) + (Stream(ps, order, mid, hi - 1) + last)
          == (Stream(ps, order, lo, mid) + Stream(ps, order, mid, hi - 1)) + last;
    }
  }

  function ClosingCommands(closing: seq<Barrier>): seq<Command> {
    if closing == [] then [] else [BarrierGroup(closing, [])]
  }

  /** Submitting several lists in order is submitting their concatenation. */
  function Concat(lists: seq<seq<Command>>): seq<Command> {
    if lists == [] then [] else Concat(lists[..|lists| - 1]) + lists[|lists| - 1]
  }

  lemma {:induction false} ConcatAppend(a: seq<seq<Command>>, b: seq<seq<Command>>)
    ensures Concat(a + b) == Concat(a) + Concat(b)
  {
    if b == [] {
      assert a + b == a;
    } else {
      assert (a + b)[..|a + b| - 1] == a + b[..|b| - 1];
      ConcatAppend(a, b[..|b| - 1]);
    }
  }

  // ---------------------------------------------------------------- batches

  /** The batches cut [0, n) into consecutive non-empty runs. */
  ghost predicate Partitions(batches: seq<Batch>, n: nat) {
    if batches == [] then n == 0
    else
      var last := batches[|batches| - 1];
      last.count > 0 && last.firstExecIndex + last.count == n && Partitions(batches[..|batches| - 1], last.firstExecIndex)
  }

  predicate Extends(ps: seq<PassNode>, order: seq<nat>, i: nat)
    requires OrderOk(ps, order) && i < |order|
  {
    i > 0 && ps[order[i]].isRaster && ps[order[i]].mergeWithPrevious
  }

  /** A pass starts a batch exactly when it does not extend the previous one. */
  ghost predicate CutsMatch(ps: seq<PassNode>, order: seq<nat>, batches: seq<Batch>, n: nat)
    requires OrderOk(ps, order) && n <= |order|
  {
    && (forall b :: 0 <= b < |batches| && batches[b].firstExecIndex < n ==> !Extends(ps, order, batches[b].firstExecIndex))
    && (forall b, i :: 0 <= b < |batches| && batches[b].firstExecIndex < i < batches[b].firstExecIndex + batches[b].count && i < n
          ==> Extends(ps, order, i))
  }

  /** Compile's merge hints: a hint is only ever given between two raster passes. */
  ghost predicate HintsAreRaster(ps: seq<PassNode>, order: seq<nat>)
    requires OrderOk(ps, order)
  {
    forall i :: 0 <= i < |order| && ps[order[i]].mergeWithPrevious ==>
      i > 0 && ps[order[i]].isRaster && ps[order[i - 1]].isRaster
  }

  /** Batches longer than one are all raster. */
  lemma LongBatchesAreRaster(ps: seq<PassNode>, order: seq<nat>, batches: seq<Batch>, b: nat, i: nat)
    requires OrderOk(ps, order) && HintsAreRaster(ps, order) && CutsMatch(ps, order, batches, |order|)
    requires b < |batches| && batches[b].count > 1
    requires batches[b].firstExecIndex <= i < batches[b].firstExecIndex + batches[b].count <= |order|
    ensures ps[order[i]].isRaster
  {
    if i == batches[b].firstExecIndex {
      assert Extends(ps, order, i + 1);
    } else {
      assert Extends(ps, order, i);
    }
  }

  predicate StartsBatch(batches: seq<Batch>, i: nat) {
    exists b :: 0 <= b < |batches| && batches[b].firstExecIndex == i
  }

  lemma {:induction false} InSomeBatch(batches: seq<Batch>, n: nat, i: nat) returns (b: nat)
    requires Partitions(batches, n) && i < n
    ensures b < |batches| && batches[b].firstExecIndex <= i < batches[b].firstExecIndex + batches[b].count
    decreases |batches|
  {
    var last := |batches| - 1;
    if i < batches[last].firstExecIndex {
      b := InSomeBatch(batches[..last], batches[last].firstExecIndex, i);
    } else {
      b := last;
    }
  }

  /** A batch starts at a pass exactly if that pass is the first, no raster pass, or one that does not
      merge with its predecessor. */
  lemma BatchesCutAtMerges(ps: seq<PassNode>, order: seq<nat>, batches: seq<Batch>, i: nat)
    requires OrderOk(ps, order) && Partitions(batches, |order|) && CutsMatch(ps, order, batches, |order|) && i < |order|
    ensures StartsBatch(batches, i) <==> i == 0 || !ps[order[i]].isRaster || !ps[order[i]].mergeWithPrevious
  {
    var b := InSomeBatch(batches, |order|, i);
    if batches[b].firstExecIndex < i {
      assert Extends(ps, order, i);
    }
  }

  // ---------------------------------------------------------------- worker interleavings

  function Count(schedule: seq<nat>, k: nat): nat {
    if schedule == [] then 0 else Count(schedule[..|schedule| - 1], k) + (if schedule[|schedule| - 1] == k then 1 else 0)
  }

  /** A full interleaving of n tasks: task k takes exactly as many steps as its program has. */
  ghost predicate IsInterleaving(schedule: seq<nat>, programs: seq<seq<Command>>) {
    && (forall i :: 0 <= i < |schedule| ==> schedule[i] < |programs|)
    && (forall k :: 0 <= k < |programs| ==> Count(schedule, k) == |programs[k]|)
  }

  lemma {:induction false} CountSplit(a: seq<nat>, b: seq<nat>, k: nat)
    ensures Count(a + b, k) == Count(a, k) + Count(b, k)
  {
    if b == [] {
      assert a + b == a;
    } else {
      assert (a + b)[..|a + b| - 1] == a + b[..|b| - 1];
      CountSplit(a, b[..|b| - 1], k);
    }
  }

  lemma CountPrefix(schedule: seq<nat>, i: nat, k: nat)
    requires i < |schedule|
    ensures Count(schedule[..i], k) + (if schedule[i] == k then 1 else 0) == Count(schedule[..i + 1], k) <= Count(schedule, k)
  {
    assert schedule[..i + 1][..i] == schedule[..i];
    CountSplit(schedule[..i + 1], schedule[i + 1..], k);
    assert schedule[..i + 1] + schedule[i + 1..] == schedule;
  }

  function Programs(ps: seq<PassNode>, order: seq<nat>, b: Batch): (r: seq<seq<Command>>)
    requires OrderOk(ps, order) && b.firstExecIndex + b.count <= |order|
    ensures |r| == b.count
  {
    seq(b.count, k requires 0 <= k < b.count =>
      PassCommands(ps[order[b.firstExecIndex + k]], order[b.firstExecIndex + k]))
  }

  lemma {:induction false} ProgramsConcat(ps: seq<PassNode>, order: seq<nat>, b: Batch)
    requires OrderOk(ps, order) && b.firstExecIndex + b.count <= |order|
    ensures Concat(Programs(ps, order, b)) == Stream(ps, order, b.firstExecIndex, b.firstExecIndex + b.count)
    decreases b.count
  {
    if b.count > 0 {
      var shorter := Batch(b.firstExecIndex, b.count - 1);
      ProgramsConcat(ps, order, shorter);
      assert Programs(ps, order, b)[..b.count - 1] == Programs(ps, order, shorter);
    }
  }

  // ---------------------------------------------------------------- growing the partition

  lemma {:induction false} BatchesFit(batches: seq<Batch>, n: nat)
    requires Partitions(batches, n)
    ensures forall b :: 0 <= b < |batches| ==> batches[b].count > 0 && batches[b].firstExecIndex + batches[b].count <= n
    ensures forall b :: 0 <= b < |batches| - 1 ==>
      batches[b].firstExecIndex + batches[b].count <= batches[|batches| - 1].firstExecIndex
  {
    if batches != [] {
      BatchesFit(batches[..|batches| - 1], batches[|batches| - 1].firstExecIndex);
    }
  }

  lemma AppendBatch(ps: seq<PassNode>, order: seq<nat>, batches: seq<Batch>, n: nat)
    requires OrderOk(ps, order) && n < |order| && Partitions(batches, n) && CutsMatch(ps, order, batches, n)
    requires !Extends(ps, order, n)
    ensures Partitions(batches + [Batch(n, 1)], n + 1)
    ensures CutsMatch(ps, order, batches + [Batch(n, 1)], n + 1)
  {
    BatchesFit(batches, n);
    assert (batches + [Batch(n, 1)])[..|batches|] == batches;
  }

  lemma ExtendBatch(ps: seq<PassNode>, order: seq<nat>, batches: seq<Batch>, n: nat)
    requires OrderOk(ps, order) && n < |order| && Partitions(batches, n) && CutsMatch(ps, order, batches, n)
    requires Extends(ps, order, n) && batches != []
    ensures var last := batches[|batches| - 1];
      var grown := batches[|batches| - 1 := last.(count := last.count + 1)];
      Partitions(grown, n + 1) && CutsMatch(ps, order, grown, n + 1)
  {
    var last := batches[|batches| - 1];
    var grown := batches[|batches| - 1 := last.(count := last.count + 1)];
    BatchesFit(batches, n);
    assert grown[..|batches| - 1] == batches[..|batches| - 1];
  }

  ghost predicate Batched(ps: seq<PassNode>, order: seq<nat>, batches: seq<Batch>, n: nat) {
    OrderOk(ps, order) && n <= |order| && Partitions(batches, n) && CutsMatch(ps, order, batches, n)
  }

  lemma GrowBatches(ps: seq<PassNode>, order: seq<nat>, batches: seq<Batch>, n: nat)
    requires Batched(ps, order, batches, n) && n < |order|
    ensures var node := ps[order[n]];
      if batches != [] && node.isRaster && node.mergeWithPrevious then
        var last := batches[|batches| - 1];
        Batched(ps, order, batches[|batches| - 1 := last.(count := last.count + 1)], n + 1)
      else Batched(ps, order, batches + [Batch(n, 1)], n + 1)
  {
    BatchesFit(batches, n);
    if Extends(ps, order, n) {
      ExtendBatch(ps, order, batches, n);
    } else {
      AppendBatch(ps, order, batches, n);
    }
  }

  function EndOf(batches: seq<Batch>): nat {
    if batches == [] then 0 else batches[|batches| - 1].firstExecIndex + batches[|batches| - 1].count
  }

  lemma {:induction false} PartitionPrefix(batches: seq<Batch>, n: nat, b: nat)
    requires Partitions(batches, n) && b < |batches|
    ensures Partitions(batches[..b], EndOf(batches[..b])) && EndOf(batches[..b]) == batches[b].firstExecIndex
    ensures Partitions(batches[..b + 1], EndOf(batches[..b + 1])) && EndOf(batches[..b + 1]) <= n
    ensures EndOf(batches[..b + 1]) == batches[b].firstExecIndex + batches[b].count
    ensures b + 1 == |batches| ==> EndOf(batches[..b + 1]) == n
    decreases |batches|
  {
    var init := batches[..|batches| - 1];
    if b < |init| {
      PartitionPrefix(init, batches[|batches| - 1].firstExecIndex, b);
      assert init[..b] == batches[..b] && init[..b + 1] == batches[..b + 1];
    } else {
      assert batches[..b] == init && batches[..b + 1] == batches;
      if init != [] {
        PartitionPrefix(init, batches[b].firstExecIndex, |init| - 1);
        assert init[..|init|] == init;
      }
    }
  }

  lemma EndOfPartition(batches: seq<Batch>, n: nat)
    requires Partitions(batches, n)
    ensures EndOf(batches) == n
  {
  }
}
