/** TaskGraph as a builder: AddNode, AddParallelFor, Submit; and ParallelFor on top of it. */
module TaskGraphs {
  import opened Dependencies
  import opened Executors
  import opened Occurrences
  import opened TaskGraphMachine
  import opened TaskGraphExecutions

  /** A chunk's body walks [start, stop); a join's does nothing. */
  datatype Body = Join | Chunk(start: nat, stop: nat) | Other(id: nat)

  datatype Builder = Builder(dependsOn: seq<nat>, body: Body)

  function DepsOf(b: seq<Builder>): seq<seq<nat>> {
    seq(|b|, j requires 0 <= j < |b| => b[j].dependsOn)
  }

  /** Every dependency was added before the node that names it. */
  ghost predicate EarlierDeps(b: seq<Builder>) {
    EarlierOnly(DepsOf(b))
  }

  lemma EarlierGrows(b: seq<Builder>, node: Builder)
    ensures EarlierDeps(b) && (forall d :: d in node.dependsOn ==> d < |b|) ==> EarlierDeps(b + [node])
  {
    if EarlierDeps(b) && forall d :: d in node.dependsOn ==> d < |b| {
      forall j, k | 0 <= j < |b| + 1 && 0 <= k < |DepsOf(b + [node])[j]|
        ensures DepsOf(b + [node])[j][k] < j
      {
        if j < |b| {
          assert DepsOf(b)[j] == DepsOf(b + [node])[j];
        } else {
          assert node.dependsOn[k] in node.dependsOn;
        }
      }
    }
  }

  /** Ids come from AddNode, so a submitted graph has no cycle: the order of addition ranks it. */
  lemma AddOrderIsAcyclic(b: seq<Builder>)
    requires EarlierDeps(b)
    ensures Acyclic(DepsOf(b))
  {
    var rank: seq<nat> := seq(|b|, j => j);
    assert Ranked(DepsOf(b), rank);
  }

  // ---------------------------------------------------------------- chunks

  predicate Covers(node: Builder, x: nat) {
    node.body.Chunk? && node.body.start <= x < node.body.stop
  }

  /** How many chunks hold index x. */
  function Hits(b: seq<Builder>, x: nat): nat {
    if b == [] then 0 else Hits(b[..|b| - 1], x) + (if Covers(b[|b| - 1], x) then 1 else 0)
  }

  lemma HitsSnoc(b: seq<Builder>, node: Builder, x: nat)
    ensures Hits(b + [node], x) == Hits(b, x) + if Covers(node, x) then 1 else 0
  {
    assert (b + [node])[..|b|] == b;
  }

  /** The chunk nodes split [begin, end): every index in it lies in exactly one chunk, no other
      index in any, no chunk is empty, and all wait for deps. */
  ghost predicate Splits(chunks: seq<Builder>, begin: nat, end: nat, deps: seq<nat>) {
    && (forall x: nat :: Hits(chunks, x) == if begin <= x < end then 1 else 0)
    && forall c :: 0 <= c < |chunks| ==>
         chunks[c].dependsOn == deps && chunks[c].body.Chunk? && begin <= chunks[c].body.start < chunks[c].body.stop <= end
  }

  /** Each chunk starts where the one before it stops, and is `size` long unless the range ends. */
  predicate Even(chunks: seq<Builder>, begin: nat, end: nat, size: nat) {
    forall c :: 0 <= c < |chunks| ==> EvenAt(chunks, begin, end, size, c)
  }

  predicate EvenAt(chunks: seq<Builder>, begin: nat, end: nat, size: nat, c: nat)
    requires c < |chunks|
  {
    && chunks[c].body.Chunk?
    && chunks[c].body.start == (if c == 0 then begin else StopOf(chunks[c - 1]))
    && chunks[c].body.stop == (if chunks[c].body.start + size < end then chunks[c].body.start + size else end)
  }

  /** The last chunk ends where the range does. */
  predicate Reaches(chunks: seq<Builder>, end: nat) {
    chunks != [] && StopOf(chunks[|chunks| - 1]) == end
  }

  function StopOf(node: Builder): nat {
    if node.body.Chunk? then node.body.stop else 0
  }

  /** The chunks made so far, when the next one is to start at `start`. */
  ghost predicate Chunked(chunks: seq<Builder>, begin: nat, start: nat, end: nat, size: nat, deps: seq<nat>) {
    && begin <= start
    && Splits(chunks, begin, if start < end then start else end, deps)
    && Even(chunks, begin, end, size)
    && (chunks != [] ==> StopOf(chunks[|chunks| - 1]) == if start < end then start else end)
    && (chunks == [] ==> start == begin)
  }

  lemma SplitGrows(chunks: seq<Builder>, begin: nat, start: nat, stop: nat, deps: seq<nat>)
    requires begin <= start < stop && Splits(chunks, begin, start, deps)
    ensures Splits(chunks + [Builder(deps, Chunk(start, stop))], begin, stop, deps)
  {
    var node := Builder(deps, Chunk(start, stop));
    forall x: nat
      ensures Hits(chunks + [node], x) == if begin <= x < stop then 1 else 0
    {
      HitsSnoc(chunks, node, x);
    }
  }

  lemma ChunkedGrows(chunks: seq<Builder>, begin: nat, start: nat, end: nat, size: nat, deps: seq<nat>)
    requires Chunked(chunks, begin, start, end, size, deps) && start < end && size > 0
    ensures var stop := if start + size < end then start + size else end;
      Chunked(chunks + [Builder(deps, Chunk(start, stop))], begin, start + size, end, size, deps)
  {
    var stop := if start + size < end then start + size else end;
    var node := Builder(deps, Chunk(start, stop));
    SplitGrows(chunks, begin, start, stop, deps);
    EvenGrows(chunks, begin, start, end, size, node);
    assert (chunks + [node])[|chunks|] == node;
    assert stop == if start + size < end then start + size else end;
  }

  lemma EvenGrows(chunks: seq<Builder>, begin: nat, start: nat, end: nat, size: nat, node: Builder)
    requires Even(chunks, begin, end, size) && node.body.Chunk? && node.body.start == start
    requires start == if chunks == [] then begin else StopOf(chunks[|chunks| - 1])
    requires node.body.stop == if start + size < end then start + size else end
    ensures Even(chunks + [node], begin, end, size)
  {
    var grown := chunks + [node];
    forall c | 0 <= c < |grown|
      ensures EvenAt(grown, begin, end, size, c)
    {
      assert c > 0 ==> grown[c - 1] == chunks[c - 1];
      if c < |chunks| {
        assert EvenAt(chunks, begin, end, size, c) && grown[c] == chunks[c];
      }
    }
  }

  const WORD: nat := 0x1_0000_0000_0000_0000

  /** Chunks wanted: two per hardware thread, eight when their number is unknown. */
  function ChunkTarget(hardware: nat): nat {
    if hardware > 0 then hardware * 2 else 8
  }

  /** The requested chunk size, or the ceiling share of the target number of chunks. Rounding up
      leaves the 64-bit word for totals within a target of 2^64; exactly then the guard against a
      derived size of zero acts, and chunks are single indices. */
  function ResolveChunkSize(total: nat, chunkSize: nat, hardware: nat): (chunk: nat)
    ensures chunk == 0 <==> total == 0
    ensures total > 0 && chunkSize > 0 ==> chunk == chunkSize
    ensures var target := if hardware > 0 then hardware * 2 else 8;
      0 < total < WORD && chunkSize == 0 && target <= WORD / 2 ==>
        && ((chunk - 1) * target < total <= chunk * target <==> total + target - 1 < WORD)
        && (total + target - 1 >= WORD ==> chunk == 1)
  {
    if total == 0 then 0
    else if chunkSize > 0 then chunkSize
    else
      var target := ChunkTarget(hardware);
      var derived := (total + target - 1) % WORD / target;
      ShareFits(total, target);
      if derived > 0 then derived else 1
  }

  lemma ShareFits(total: nat, target: nat)
    requires total > 0 && 0 < target
    ensures var derived := (total + target - 1) % WORD / target;
      && (total + target - 1 < WORD ==> derived > 0 && (derived - 1) * target < total <= derived * target)
      && (total + target - 1 >= WORD && total < WORD && target <= WORD / 2 ==> derived == 0 && total > target)
  {
    if total + target - 1 < WORD {
      CeilingDivision(total, target);
    } else if total < WORD && target <= WORD / 2 {
      assert (total + target - 1) % WORD == total + target - 1 - WORD;
    }
  }

  lemma CeilingDivision(total: nat, target: nat)
    requires total > 0 && target > 0
    ensures var derived := (total + target - 1) / target;
      derived > 0 && (derived - 1) * target < total <= derived * target
  {
    var derived := (total + target - 1) / target;
    assert total + target - 1 == derived * target + (total + target - 1) % target;
    assert (derived - 1) * target == derived * target - target;
  }

  /** The ids from..to. */
  function Ids(from: nat, to: nat): seq<nat>
    requires from <= to
  {
    seq(to - from, k requires 0 <= k < to - from => from + k)
  }

  lemma IdsGrow(from: nat, to: nat)
    requires from <= to
    ensures Ids(from, to + 1) == Ids(from, to) + [to]
  {
  }

  lemma IdsAreBetween(from: nat, to: nat)
    requires from <= to
    ensures forall d :: d in Ids(from, to) <==> from <= d < to
  {
    forall d | from <= d < to
      ensures d in Ids(from, to)
    {
      assert Ids(from, to)[d - from] == d;
    }
  }

  class TaskGraph {
    var builders: seq<Builder>
    var submitted: bool

    constructor ()
      ensures builders == [] && !submitted
    {
      builders, submitted := [], false;
    }

    method AddNode(deps: seq<nat>, body: Body) returns (id: nat)
      modifies this`builders
      ensures id == |old(builders)| && builders == old(builders) + [Builder(deps, body)]
      ensures old(EarlierDeps(builders)) && (forall d :: d in deps ==> d < id) ==> EarlierDeps(builders)
    {
      id := |builders|;
      EarlierGrows(builders, Builder(deps, body));
      builders := builders + [Builder(deps, body)];
    }

    /** One chunk node per slice, in order. */
    method AddChunks(deps: seq<nat>, begin: nat, end: nat, chunk: nat) returns (ids: seq<nat>)
      requires begin < end && chunk > 0
      modifies this`builders
      ensures |builders| >= |old(builders)| && builders[..|old(builders)|] == old(builders)
      ensures Splits(builders[|old(builders)|..], begin, end, deps) && Even(builders[|old(builders)|..], begin, end, chunk)
      ensures Reaches(builders[|old(builders)|..], end)
      ensures ids == Ids(|old(builders)|, |builders|)
      ensures old(EarlierDeps(builders)) && (forall d :: d in deps ==> d < |old(builders)|) ==> EarlierDeps(builders)
    {
      ids := [];
      var start := begin;
      ghost var base := |builders|;
      ghost var chunks: seq<Builder> := [];
      while start < end
        invariant builders == old(builders) + chunks && base == |old(builders)| <= |builders|
        invariant Chunked(chunks, begin, start, end, chunk, deps)
        invariant ids == Ids(base, |builders|)
        invariant old(EarlierDeps(builders)) && (forall d :: d in deps ==> d < base) ==> EarlierDeps(builders)
        decreases end - start
      {
        var stop := if start + chunk < end then start + chunk else end;
        ChunkedGrows(chunks, begin, start, end, chunk, deps);
        IdsGrow(base, |builders|);
        var id := AddNode(deps, Chunk(start, stop));
        chunks := chunks + [Builder(deps, Chunk(start, stop))];
        ids := ids + [id];
        start := start + chunk;
      }
      assert builders[base..] == chunks;
    }

    /** A parallel loop as one logical node: the join it returns waits for every chunk. */
    method AddParallelFor(deps: seq<nat>, begin: nat, end: nat, chunkSize: nat, hardware: nat) returns (join: nat)
      modifies this`builders
      ensures join == |builders| - 1 >= |old(builders)| && builders[..|old(builders)|] == old(builders)
      ensures var base := |old(builders)|;
        && Splits(builders[base..join], begin, end, deps)
        && Even(builders[base..join], begin, end, ResolveChunkSize(if begin < end then end - begin else 0, chunkSize, hardware))
        && (begin < end ==> Reaches(builders[base..join], end))
        && builders[join] == Builder(if begin < end then Ids(base, join) else deps, Join)
        && (begin < end ==> forall d :: d in builders[join].dependsOn <==> base <= d < join)
      ensures old(EarlierDeps(builders)) && (forall d :: d in deps ==> d < |old(builders)|) ==> EarlierDeps(builders)
    {
      ghost var before := builders;
      if begin >= end {
        join := AddNode(deps, Join);
        assert builders[|before|..join] == [];
        return;
      }
      var chunk := ResolveChunkSize(end - begin, chunkSize, hardware);
      var ids := AddChunks(deps, begin, end, chunk);
      ghost var after := builders;
      IdsAreBetween(|before|, |builders|);
      join := AddNode(ids, Join);
      assert builders[..|before|] == after[..|before|];
      assert builders[|before|..join] == after[|before|..];
    }

    /** Moves the builders into an execution and starts it; no execution is needed for an empty
        graph, whose promise is set at once. Every root has been posted when it returns. */
    method Submit(queue: QueuedExecutor<nat>) returns (execution: TaskGraphExecution?)
      requires !submitted && InRange(DepsOf(builders)) && queue.pending == []
      modifies this, queue
      ensures submitted && builders == []
      ensures execution == null <==> old(builders) == []
      ensures execution != null ==>
        && fresh(execution) && execution.queue == queue
        && ValidDag(execution.g) && |execution.g.deps| == |old(builders)|
        && (forall j :: 0 <= j < |old(builders)| ==> execution.g.deps[j] == old(builders)[j].dependsOn)
        && execution.Agrees([], -1) && execution.m.scan == |execution.g.deps| && !execution.m.canceled
        && (forall x :: x in queue.pending <==> 0 <= x < |execution.g.deps| && execution.g.deps[x] == [])
        && (old(EarlierDeps(builders)) ==> Acyclic(execution.g.deps))
    {
      submitted := true;
      if builders == [] {
        return null;
      }
      var succ := FileSuccessors();
      if EarlierDeps(builders) {
        AddOrderIsAcyclic(builders);
      }
      execution := new TaskGraphExecution(Dag(DepsOf(builders), succ), queue);
      execution.Start();
      builders := [];
    }

    method FileSuccessors() returns (succ: seq<seq<nat>>)
      requires InRange(DepsOf(builders))
      ensures Inverse(DepsOf(builders), succ)
    {
      var n := |builders|;
      succ := seq(n, _ => []);
      var i := 0;
      while i < n
        invariant i <= n && Filed(DepsOf(builders), succ, i, 0)
      {
        var k := 0;
        while k < |builders[i].dependsOn|
          invariant k <= |builders[i].dependsOn| && Filed(DepsOf(builders), succ, i, k)
        {
          var dep := builders[i].dependsOn[k];
          FileOne(DepsOf(builders), succ, i, k);
          succ := succ[dep := succ[dep] + [i]];
          k := k + 1;
        }
        RowFiled(DepsOf(builders), succ, i);
        i := i + 1;
      }
      AllFiled(DepsOf(builders), succ);
    }
  }

  // ---------------------------------------------------------------- ParallelFor

  /** How often the loop body ran for index x, when node j's body ran bodies[j] times. */
  function Iterations(b: seq<Builder>, bodies: seq<nat>, x: nat): nat
    requires |bodies| == |b|
  {
    if b == [] then 0
    else Iterations(b[..|b| - 1], bodies[..|b| - 1], x) + (if Covers(b[|b| - 1], x) then bodies[|b| - 1] else 0)
  }

  lemma {:induction false} EachChunkOnce(b: seq<Builder>, bodies: seq<nat>, x: nat)
    requires |bodies| == |b| && forall j :: 0 <= j < |b| ==> bodies[j] == 1
    ensures Iterations(b, bodies, x) == Hits(b, x)
  {
    if b != [] {
      EachChunkOnce(b[..|b| - 1], bodies[..|b| - 1], x);
    }
  }

  lemma {:induction false} ChunksAtMostOnce(b: seq<Builder>, bodies: seq<nat>, x: nat)
    requires |bodies| == |b| && forall j :: 0 <= j < |b| ==> bodies[j] <= 1
    ensures Iterations(b, bodies, x) <= Hits(b, x)
  {
    if b != [] {
      ChunksAtMostOnce(b[..|b| - 1], bodies[..|b| - 1], x);
    }
  }

  /** Submits one edge-free node per chunk, all of them posted on return; an empty range is
      answered at once, without a graph. */
  method ParallelFor(begin: nat, end: nat, chunkSize: nat, hardware: nat, queue: QueuedExecutor<nat>)
    returns (execution: TaskGraphExecution?, ghost chunks: seq<Builder>)
    requires queue.pending == []
    modifies queue
    ensures Splits(chunks, begin, end, [])
    ensures begin < end ==> Reaches(chunks, end) && Even(chunks, begin, end, ResolveChunkSize(end - begin, chunkSize, hardware))
    ensures execution == null <==> begin >= end
    ensures execution != null ==>
      && fresh(execution) && execution.queue == queue && ValidDag(execution.g) && execution.g.deps == DepsOf(chunks)
      && execution.Agrees([], -1) && execution.m.scan == |execution.g.deps| && !execution.m.canceled
      && (forall x :: x in queue.pending <==> 0 <= x < |execution.g.deps|)
  {
    execution, chunks := null, [];
    if begin < end {
      var graph := new TaskGraph();
      var chunk := ResolveChunkSize(end - begin, chunkSize, hardware);
      var ids := graph.AddChunks([], begin, end, chunk);
      chunks := graph.builders;
      assert graph.builders[0..] == chunks;
      SomeChunk(chunks, begin, end);
      execution := graph.Submit(queue);
    }
  }

  lemma SomeChunk(b: seq<Builder>, begin: nat, end: nat)
    requires begin < end && Splits(b, begin, end, [])
    ensures b != []
  {
    assert Hits(b, begin) == 1;
  }

  /** On any executor, in any interleaving: the loop body runs at most once for any index, never
      for one outside [begin, end), and when the loop's future resolves it has run exactly once
      for every index inside. */
  lemma ParallelForRunsEachIndexOnce(b: seq<Builder>, begin: nat, end: nat, g: Dag, acts: seq<Action>, x: nat)
    requires Splits(b, begin, end, []) && ValidDag(g) && g.deps == DepsOf(b) && |b| > 0
    requires Executable(g, Init(g), acts) && !Final(g, Init(g), acts).canceled
    ensures var s := Final(g, Init(g), acts);
      && |s.bodies| == |b|
      && Iterations(b, s.bodies, x) <= (if begin <= x < end then 1 else 0)
      && (s.sets == 1 ==> Iterations(b, s.bodies, x) == if begin <= x < end then 1 else 0)
  {
    var s := Final(g, Init(g), acts);
    assert EdgeFree(g);
    EdgeFreeDispatchesOnce(g, acts);
    PromiseSetIffAllDone(g, s);
    ChunksAtMostOnce(b, s.bodies, x);
    if s.sets == 1 {
      EachChunkOnce(b, s.bodies, x);
    }
  }

  /** And the future does resolve once nothing more can run. */
  lemma ParallelForResolves(b: seq<Builder>, begin: nat, end: nat, g: Dag, acts: seq<Action>)
    requires Splits(b, begin, end, []) && ValidDag(g) && g.deps == DepsOf(b) && |b| > 0
    requires Executable(g, Init(g), acts) && Final(g, Init(g), acts).scan == |g.deps|
    requires Quiescent(g, Final(g, Init(g), acts))
    ensures Final(g, Init(g), acts).sets == 1
  {
    assert EdgeFree(g);
    EdgeFreeDispatchesOnce(g, acts);
    assert EarlierDeps(b);
    AddOrderIsAcyclic(b);
    AcyclicNeverStalls(g, Final(g, Init(g), acts));
  }
}
