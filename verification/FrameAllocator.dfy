/** The per-frame arena: a list of chunks filled from the bottom, emptied all at once. */
module FrameAllocators {
  import opened Bits

  const DEFAULT_CHUNK_SIZE: nat := 64 * 1024

  // ---------------------------------------------------------------- alignment

  /** The code's mask expression, (value + alignment - 1) & ~(alignment - 1). */
  function AlignUp(value: nat, alignment: nat): nat {
    if alignment == 0 then value else BitClear(value + alignment - 1, alignment - 1)
  }

  /** It is the least multiple of a power of two that is not below the value. */
  lemma AlignUpIsLeastMultiple(value: nat, alignment: nat)
    requires IsPow2(alignment)
    ensures alignment > 0 && AlignUp(value, alignment) % alignment == 0
    ensures value <= AlignUp(value, alignment) < value + alignment
  {
    var k: nat :| Pow2(k) == alignment;
    var x := value + alignment - 1;
    assert AlignUp(value, alignment) == x - x % alignment by { ClearRoundsDown(x, k); }
    RoundedIsMultiple(x, alignment);
  }

  lemma RoundedIsMultiple(x: nat, m: nat)
    requires m > 0
    ensures (x - x % m) % m == 0 && 0 <= x % m < m
  {
    assert x - x % m == m * (x / m) + 0;
    DivModUnique(x - x % m, m, x / m, 0);
  }

  // ---------------------------------------------------------------- the arena as a value

  datatype Chunk = Chunk(base: nat, capacity: nat, used: nat)

  /** heapBase is where the heap puts a new chunk, should this request need one. */
  datatype Request = Request(size: nat, alignment: nat, heapBase: nat)

  datatype Arena = Arena(chunks: seq<Chunk>, current: nat, defaultSize: nat)

  /** A request for nothing gets one byte. */
  function Size(r: Request): nat {
    if r.size == 0 then 1 else r.size
  }

  function Offset(c: Chunk, alignment: nat): int {
    AlignUp(c.base + c.used, alignment) - c.base
  }

  predicate Fits(c: Chunk, size: nat, alignment: nat) {
    Offset(c, alignment) + size <= c.capacity
  }

  /** The first chunk from `from` on that has room, or the number of chunks. */
  function FirstFit(chunks: seq<Chunk>, from: nat, size: nat, alignment: nat): (i: nat)
    ensures from <= |chunks| ==> from <= i
    ensures i <= |chunks|
    ensures i < |chunks| ==> Fits(chunks[i], size, alignment)
    decreases |chunks| - from
  {
    if from >= |chunks| then |chunks|
    else if Fits(chunks[from], size, alignment) then from
    else FirstFit(chunks, from + 1, size, alignment)
  }

  function GrownSize(a: Arena, r: Request): nat {
    var needed := Size(r) + r.alignment;
    if needed > a.defaultSize then needed else a.defaultSize
  }

  function Grow(a: Arena, r: Request): Arena {
    a.(chunks := a.chunks + [Chunk(r.heapBase, GrownSize(a, r), 0)], current := |a.chunks|)
  }

  function Put(a: Arena, i: nat, r: Request): Arena
    requires i < |a.chunks|
  {
    var c := a.chunks[i];
    var end := Offset(c, r.alignment) + Size(r);
    if end < 0 then a else a.(chunks := a.chunks[i := c.(used := end)], current := i)
  }

  /** The arena in which the request is placed, grown if need be, and the chunk it goes to. */
  function Prepared(a: Arena, r: Request): (p: (Arena, nat))
    ensures p.1 < |p.0.chunks|
  {
    var i := FirstFit(a.chunks, a.current, Size(r), r.alignment);
    if i < |a.chunks| then (a, i) else (Grow(a, r), |a.chunks|)
  }

  function Serve(a: Arena, r: Request): Arena
  {
    var (b, i) := Prepared(a, r);
    Put(b, i, r)
  }

  function Address(a: Arena, r: Request): nat
  {
    var (b, i) := Prepared(a, r);
    AlignUp(b.chunks[i].base + b.chunks[i].used, r.alignment)
  }

  ghost predicate Filled(a: Arena) {
    && (forall i :: 0 <= i < |a.chunks| ==> a.chunks[i].used <= a.chunks[i].capacity)
    && a.current < |a.chunks|
  }

  /** A chunk grown for a request has room for it, whatever its address: one growth is enough. */
  lemma GrownChunkFits(a: Arena, r: Request)
    requires IsPow2(r.alignment)
    ensures Fits(Chunk(r.heapBase, GrownSize(a, r), 0), Size(r), r.alignment)
  {
    AlignUpIsLeastMultiple(r.heapBase, r.alignment);
  }

  ghost predicate Roomy(a: Arena, r: Request) {
    FirstFit(a.chunks, a.current, Size(r), r.alignment) < |a.chunks|
  }

  /** So the second attempt succeeds, and is what Serve does at once. */
  lemma GrownIsRoomy(a: Arena, r: Request)
    requires IsPow2(r.alignment) && !Roomy(a, r)
    ensures Roomy(Grow(a, r), r)
    ensures Serve(Grow(a, r), r) == Serve(a, r) && Address(Grow(a, r), r) == Address(a, r)
  {
    GrownChunkFits(a, r);
    assert Grow(a, r).chunks[|a.chunks|] == Chunk(r.heapBase, GrownSize(a, r), 0);
  }

  /** A request that fits goes right behind what its chunk holds, aligned. */
  lemma ServedInPlace(a: Arena, r: Request, i: nat)
    requires Filled(a) && IsPow2(r.alignment)
    requires i < |a.chunks| && i == FirstFit(a.chunks, a.current, Size(r), r.alignment)
    ensures var c, offset := a.chunks[i], Offset(a.chunks[i], r.alignment);
      && c.used <= offset && offset + Size(r) <= c.capacity && Address(a, r) == c.base + offset
      && Serve(a, r) == a.(chunks := a.chunks[i := c.(used := offset + Size(r))], current := i)
  {
    AlignUpIsLeastMultiple(a.chunks[i].base + a.chunks[i].used, r.alignment);
  }

  /** An aligned place behind what the chunk holds, with room up to the chunk's end. */
  predicate IsRoom(c: Chunk, size: nat, alignment: nat, start: nat) {
    alignment > 0 && start % alignment == 0 && c.base + c.used <= start && start + size <= c.base + c.capacity
  }

  ghost predicate HasRoom(c: Chunk, size: nat, alignment: nat) {
    exists start: nat :: IsRoom(c, size, alignment, start)
  }

  /** No multiple of m lies strictly between two neighbouring ones. */
  lemma LeastAbove(a: nat, b: nat, m: nat)
    requires m > 0 && a % m == 0 && b % m == 0 && a < b + m
    ensures a <= b
  {
    var d := a / m - b / m;
    assert a - b == m * d;
    MulBounds(m, d);
  }

  /** The code's test finds room exactly where there is some, and the place it takes is the first. */
  lemma FitsIffRoom(c: Chunk, size: nat, alignment: nat)
    requires IsPow2(alignment)
    ensures Fits(c, size, alignment) <==> HasRoom(c, size, alignment)
    ensures var start := AlignUp(c.base + c.used, alignment);
      && (HasRoom(c, size, alignment) ==> IsRoom(c, size, alignment, start))
      && forall other: nat :: IsRoom(c, size, alignment, other) ==> start <= other
  {
    var start := AlignUp(c.base + c.used, alignment);
    AlignUpIsLeastMultiple(c.base + c.used, alignment);
    assert Fits(c, size, alignment) ==> IsRoom(c, size, alignment, start);
    forall other: nat | IsRoom(c, size, alignment, other)
      ensures start <= other
    {
      LeastAbove(start, other, alignment);
    }
  }

  /** The chunk a request goes to: the first from the current one on with room, or a new one. */
  ghost predicate IsChunkFor(a: Arena, r: Request, i: nat) {
    && a.current <= i <= |a.chunks|
    && (i < |a.chunks| ==> HasRoom(a.chunks[i], Size(r), r.alignment))
    && forall j :: a.current <= j < i ==> !HasRoom(a.chunks[j], Size(r), r.alignment)
  }

  lemma {:induction false} FirstFitIsFirst(chunks: seq<Chunk>, from: nat, size: nat, alignment: nat)
    requires IsPow2(alignment) && from <= |chunks|
    ensures var i := FirstFit(chunks, from, size, alignment);
      && (i < |chunks| ==> HasRoom(chunks[i], size, alignment))
      && forall j :: from <= j < i ==> !HasRoom(chunks[j], size, alignment)
    decreases |chunks| - from
  {
    if from < |chunks| {
      FitsIffRoom(chunks[from], size, alignment);
      FirstFitIsFirst(chunks, from + 1, size, alignment);
    }
  }

  /** The chunk a request ends up in, as it is before the request is placed: a listed one, or a new
      one of the default size, or of what the request may need if that is more. */
  function ChunkFor(a: Arena, r: Request, i: nat): Chunk {
    var bytes := (if r.size == 0 then 1 else r.size) + r.alignment;
    if i < |a.chunks| then a.chunks[i] else Chunk(r.heapBase, if bytes > a.defaultSize then bytes else a.defaultSize, 0)
  }

  lemma ChoosesFirstRoom(a: Arena, r: Request)
    requires IsPow2(r.alignment) && Filled(a)
    ensures var b := Serve(a, r);
      && IsChunkFor(a, r, b.current)
      && |b.chunks| == (if b.current < |a.chunks| then |a.chunks| else |a.chunks| + 1)
      && forall j :: 0 <= j < |a.chunks| && j != b.current ==> b.chunks[j] == a.chunks[j]
  {
    FirstFitIsFirst(a.chunks, a.current, Size(r), r.alignment);
    var (p, i) := Prepared(a, r);
    AlignUpIsLeastMultiple(p.chunks[i].base + p.chunks[i].used, r.alignment);
  }

  lemma TakesFirstPlace(a: Arena, r: Request)
    requires IsPow2(r.alignment) && Filled(a)
    ensures var b, at := Serve(a, r), Address(a, r);
      && b.current < |b.chunks|
      && var c := ChunkFor(a, r, b.current);
      && IsRoom(c, Size(r), r.alignment, at)
      && (forall other: nat :: IsRoom(c, Size(r), r.alignment, other) ==> at <= other)
      && b.chunks[b.current] == c.(used := at + Size(r) - c.base)
  {
    var (p, i) := Prepared(a, r);
    GrownChunkFits(a, r);
    assert p.chunks[i] == ChunkFor(a, r, i);
    FitsIffRoom(p.chunks[i], Size(r), r.alignment);
    PutFills(p, i, r);
  }

  lemma PutFills(a: Arena, i: nat, r: Request)
    requires IsPow2(r.alignment) && i < |a.chunks|
    ensures var c, at := a.chunks[i], AlignUp(a.chunks[i].base + a.chunks[i].used, r.alignment);
      c.base <= at && Put(a, i, r) == a.(chunks := a.chunks[i := c.(used := at + Size(r) - c.base)], current := i)
  {
    AlignUpIsLeastMultiple(a.chunks[i].base + a.chunks[i].used, r.alignment);
  }

  /** What serving a request does, said without the walk: the first chunk from the current one on
      with room takes it, at its first aligned free address; if and only if there is none a new
      chunk is added and takes it; no other chunk is touched. */
  lemma ServesFirstRoom(a: Arena, r: Request)
    requires IsPow2(r.alignment) && Filled(a)
    ensures var b, at, size := Serve(a, r), Address(a, r), if r.size == 0 then 1 else r.size;
      && IsChunkFor(a, r, b.current) && b.current < |b.chunks|
      && (|b.chunks| > |a.chunks| <==> forall j :: a.current <= j < |a.chunks| ==> !HasRoom(a.chunks[j], size, r.alignment))
      && (forall j :: 0 <= j < |a.chunks| && j != b.current ==> b.chunks[j] == a.chunks[j])
      && var c := ChunkFor(a, r, b.current);
      && IsRoom(c, size, r.alignment, at)
      && (forall other: nat :: IsRoom(c, size, r.alignment, other) ==> at <= other)
      && b.chunks[b.current] == c.(used := at + size - c.base)
  {
    ChoosesFirstRoom(a, r);
    TakesFirstPlace(a, r);
  }

  lemma AddressIsAligned(a: Arena, r: Request)
    requires IsPow2(r.alignment)
    ensures Address(a, r) % r.alignment == 0
  {
    var (b, i) := Prepared(a, r);
    AlignUpIsLeastMultiple(b.chunks[i].base + b.chunks[i].used, r.alignment);
  }

  function UsedSum(chunks: seq<Chunk>): nat {
    if chunks == [] then 0 else UsedSum(chunks[..|chunks| - 1]) + chunks[|chunks| - 1].used
  }

  lemma {:induction false} UsedUpdate(chunks: seq<Chunk>, i: nat, c: Chunk)
    requires i < |chunks|
    ensures UsedSum(chunks[i := c]) == UsedSum(chunks) - chunks[i].used + c.used
  {
    var n := |chunks| - 1;
    if i < n {
      assert chunks[i := c][..n] == chunks[..n][i := c];
      UsedUpdate(chunks[..n], i, c);
    } else {
      assert chunks[i := c][..n] == chunks[..n];
    }
  }

  lemma {:induction false} UsedNothing(chunks: seq<Chunk>)
    requires forall i :: 0 <= i < |chunks| ==> chunks[i].used == 0
    ensures UsedSum(chunks) == 0
  {
    if chunks != [] {
      UsedNothing(chunks[..|chunks| - 1]);
    }
  }

  // ---------------------------------------------------------------- replaying a frame

  function Emptied(chunks: seq<Chunk>): seq<Chunk> {
    seq(|chunks|, i requires 0 <= i < |chunks| => chunks[i].(used := 0))
  }

  function Rewound(a: Arena): Arena {
    a.(chunks := Emptied(a.chunks), current := 0)
  }

  function ServeAll(a: Arena, rs: seq<Request>): Arena
    decreases |rs|
  {
    if rs == [] then a else ServeAll(Serve(a, rs[0]), rs[1..])
  }

  function Addresses(a: Arena, rs: seq<Request>): seq<nat>
    decreases |rs|
  {
    if rs == [] then [] else [Address(a, rs[0])] + Addresses(Serve(a, rs[0]), rs[1..])
  }

  ghost predicate PowerAligned(rs: seq<Request>) {
    forall k :: 0 <= k < |rs| ==> IsPow2(rs[k].alignment)
  }

  /** b is a with some more chunks, all empty. */
  ghost predicate Extends(a: Arena, b: Arena, more: seq<Chunk>) {
    && b == a.(chunks := a.chunks + more)
    && forall i :: 0 <= i < |more| ==> more[i].used == 0
  }

  lemma {:induction false} FirstFitExtends(chunks: seq<Chunk>, more: seq<Chunk>, from: nat, size: nat, alignment: nat)
    requires from <= |chunks|
    ensures var i := FirstFit(chunks, from, size, alignment);
      FirstFit(chunks + more, from, size, alignment) ==
        if i < |chunks| then i else FirstFit(chunks + more, |chunks|, size, alignment)
    decreases |chunks| - from
  {
    if from < |chunks| {
      assert (chunks + more)[from] == chunks[from];
      if !Fits(chunks[from], size, alignment) {
        FirstFitExtends(chunks, more, from + 1, size, alignment);
      }
    }
  }

  /** The same demand, wherever the heap would put a new chunk. */
  predicate SameDemand(r: Request, q: Request) {
    q == r.(heapBase := q.heapBase)
  }

  /** What a replayed request must do: the same address, and no growth. */
  ghost predicate Replays(a: Arena, more: seq<Chunk>, r: Request, q: Request, rest: seq<Chunk>) {
    var b := a.(chunks := a.chunks + more);
    && Extends(Serve(a, r), Serve(b, q), rest)
    && Address(b, q) == Address(a, r)
    && Emptied(Serve(a, r).chunks + rest) == Emptied(a.chunks + more)
  }

  lemma EmptiedPut(a: Arena, i: nat, r: Request)
    requires i < |a.chunks|
    ensures Emptied(Put(a, i, r).chunks) == Emptied(a.chunks)
  {
  }

  /** Placing a request in a chunk does not touch the chunks behind. */
  lemma PutJoins(g: Arena, b: Arena, rest: seq<Chunk>, i: nat, r: Request, q: Request)
    requires i < |g.chunks| && SameDemand(r, q) && b == g.(chunks := g.chunks + rest, current := b.current)
    requires Offset(g.chunks[i], r.alignment) + Size(r) >= 0 || b.current == g.current
    ensures Put(b, i, q) == Put(g, i, r).(chunks := Put(g, i, r).chunks + rest)
  {
    assert b.chunks[i] == g.chunks[i];
    assert Put(b, i, q).chunks == Put(g, i, r).chunks + rest;
  }

  lemma ReplayInPlace(a: Arena, more: seq<Chunk>, r: Request, q: Request)
    requires SameDemand(r, q) && a.current <= |a.chunks|
    requires forall i :: 0 <= i < |more| ==> more[i].used == 0
    requires FirstFit(a.chunks, a.current, Size(r), r.alignment) < |a.chunks|
    ensures Replays(a, more, r, q, more)
  {
    var b := a.(chunks := a.chunks + more);
    var i := FirstFit(a.chunks, a.current, Size(r), r.alignment);
    FirstFitExtends(a.chunks, more, a.current, Size(r), r.alignment);
    assert b.chunks[i] == a.chunks[i];
    PutJoins(a, b, more, i, r, q);
    assert Serve(a, r) == Put(a, i, r) && Serve(b, q) == Put(b, i, q);
    EmptiedPut(a, i, r);
    EmptiedJoins(Serve(a, r).chunks, more);
    EmptiedJoins(a.chunks, more);
  }

  lemma GrownOffset(a: Arena, r: Request)
    requires IsPow2(r.alignment)
    ensures Offset(Chunk(r.heapBase, GrownSize(a, r), 0), r.alignment) >= 0
  {
    AlignUpIsLeastMultiple(r.heapBase, r.alignment);
  }

  lemma ReplayInGrown(a: Arena, more: seq<Chunk>, r: Request, q: Request)
    requires IsPow2(r.alignment) && SameDemand(r, q) && a.current <= |a.chunks|
    requires forall i :: 0 <= i < |more| ==> more[i].used == 0
    requires FirstFit(a.chunks, a.current, Size(r), r.alignment) == |a.chunks|
    requires more != [] && more[0] == Chunk(r.heapBase, GrownSize(a, r), 0)
    ensures Replays(a, more, r, q, more[1..])
  {
    var b, g, n, rest := a.(chunks := a.chunks + more), Grow(a, r), |a.chunks|, more[1..];
    assert b.chunks[n] == more[0] && b.chunks == g.chunks + rest;
    assert FirstFit(b.chunks, b.current, Size(q), q.alignment) == n by {
      FirstFitExtends(a.chunks, more, a.current, Size(r), r.alignment);
      GrownChunkFits(a, r);
    }
    GrownOffset(a, r);
    PutJoins(g, b, rest, n, r, q);
    assert Serve(a, r) == Put(g, n, r) && Serve(b, q) == Put(b, n, q);
    EmptiedPut(g, n, r);
    EmptiedJoins(Put(g, n, r).chunks, rest);
    EmptiedJoins(g.chunks, rest);
  }

  lemma GrownIsListed(a: Arena, more: seq<Chunk>, r: Request)
    requires FirstFit(a.chunks, a.current, Size(r), r.alignment) == |a.chunks|
    requires forall i :: 0 <= i < |more| ==> more[i].used == 0
    requires Emptied(Serve(a, r).chunks) <= Emptied(a.chunks + more)
    ensures more != [] && more[0] == Chunk(r.heapBase, GrownSize(a, r), 0)
  {
    var n := |a.chunks|;
    EmptiedPut(Grow(a, r), n, r);
    assert Emptied(Serve(a, r).chunks) == Emptied(Grow(a, r).chunks);
    assert |Emptied(Serve(a, r).chunks)| == n + 1;
    assert Emptied(Grow(a, r).chunks)[n] == Emptied(a.chunks + more)[n];
    assert (a.chunks + more)[n] == more[0];
  }

  /** One request, in an arena and in the same arena with the chunks it will have grown by the end
      of the frame already there. */
  lemma ReplayOne(a: Arena, more: seq<Chunk>, r: Request, q: Request) returns (rest: seq<Chunk>)
    requires IsPow2(r.alignment) && SameDemand(r, q) && a.current <= |a.chunks|
    requires forall i :: 0 <= i < |more| ==> more[i].used == 0
    requires Emptied(Serve(a, r).chunks) <= Emptied(a.chunks + more)
    ensures Replays(a, more, r, q, rest)
  {
    if FirstFit(a.chunks, a.current, Size(r), r.alignment) < |a.chunks| {
      ReplayInPlace(a, more, r, q);
      rest := more;
    } else {
      GrownIsListed(a, more, r);
      ReplayInGrown(a, more, r, q);
      rest := more[1..];
    }
  }

  lemma ServeGrows(a: Arena, r: Request)
    ensures Emptied(a.chunks) <= Emptied(Serve(a, r).chunks)
    ensures Serve(a, r).current < |Serve(a, r).chunks| || Serve(a, r).current == a.current
  {
    var (b, i) := Prepared(a, r);
    EmptiedPut(b, i, r);
    if b != a {
      EmptiedJoins(a.chunks, [Chunk(r.heapBase, GrownSize(a, r), 0)]);
    }
  }

  lemma {:induction false} ServeAllGrows(a: Arena, rs: seq<Request>)
    ensures Emptied(a.chunks) <= Emptied(ServeAll(a, rs).chunks)
    decreases |rs|
  {
    if rs != [] {
      ServeGrows(a, rs[0]);
      ServeAllGrows(Serve(a, rs[0]), rs[1..]);
    }
  }

  lemma {:induction false} ReplayAll(a: Arena, more: seq<Chunk>, rs: seq<Request>, qs: seq<Request>)
    requires PowerAligned(rs) && a.current <= |a.chunks|
    requires |qs| == |rs| && forall k :: 0 <= k < |rs| ==> SameDemand(rs[k], qs[k])
    requires forall i :: 0 <= i < |more| ==> more[i].used == 0
    requires Emptied(ServeAll(a, rs).chunks) == Emptied(a.chunks + more)
    ensures var b := a.(chunks := a.chunks + more);
      && Addresses(b, qs) == Addresses(a, rs)
      && |ServeAll(b, qs).chunks| == |b.chunks|
    decreases |rs|
  {
    var b := a.(chunks := a.chunks + more);
    if rs == [] {
      assert |Emptied(a.chunks)| == |Emptied(a.chunks + more)|;
    } else {
      ServeGrows(a, rs[0]);
      ServeAllGrows(Serve(a, rs[0]), rs[1..]);
      var rest := ReplayOne(a, more, rs[0], qs[0]);
      assert |Emptied(Serve(a, rs[0]).chunks + rest)| == |Emptied(a.chunks + more)|;
      ReplayAll(Serve(a, rs[0]), rest, rs[1..], qs[1..]);
    }
  }

  /** Steady state: after a frame from an empty arena, Reset and the same sequence of requests give
      the same addresses and grow nothing, wherever the heap would have put new chunks. */
  lemma SecondFrameIsTheFirst(a: Arena, rs: seq<Request>, qs: seq<Request>)
    requires a == Rewound(a) && PowerAligned(rs) && |a.chunks| > 0
    requires |qs| == |rs| && forall k :: 0 <= k < |rs| ==> SameDemand(rs[k], qs[k])
    ensures var b := Rewound(ServeAll(a, rs));
      && Addresses(b, qs) == Addresses(a, rs)
      && |ServeAll(b, qs).chunks| == |b.chunks|
  {
    ServeAllGrows(a, rs);
    ServeAllKeepsSize(a, rs);
    var b := Rewound(ServeAll(a, rs));
    var more := b.chunks[|a.chunks|..];
    assert Emptied(a.chunks) == a.chunks;
    assert b.chunks == a.chunks + more;
    assert b == a.(chunks := a.chunks + more);
    assert Emptied(b.chunks) == b.chunks;
    ReplayAll(a, more, rs, qs);
  }

  lemma {:induction false} ServeAllKeepsSize(a: Arena, rs: seq<Request>)
    ensures ServeAll(a, rs).defaultSize == a.defaultSize
    decreases |rs|
  {
    if rs != [] {
      ServeAllKeepsSize(Serve(a, rs[0]), rs[1..]);
    }
  }

  lemma EmptiedJoins(a: seq<Chunk>, b: seq<Chunk>)
    ensures Emptied(a + b) == Emptied(a) + Emptied(b)
  {
  }

  // ---------------------------------------------------------------- blocks handed out

  /** A block of this frame: its chunk, first address and length. */
  datatype Block = Block(chunk: nat, start: nat, size: nat)

  ghost predicate Inside(chunks: seq<Chunk>, b: Block) {
    && b.chunk < |chunks| && b.size > 0
    && chunks[b.chunk].base <= b.start
    && b.start + b.size <= chunks[b.chunk].base + chunks[b.chunk].used
  }

  predicate Apart(s: nat, n: nat, t: nat, m: nat) {
    s + n <= t || t + m <= s
  }

  /** Blocks lie in the used part of their chunks, and blocks of one chunk do not overlap. */
  ghost predicate Placed(chunks: seq<Chunk>, blocks: seq<Block>) {
    && (forall j :: 0 <= j < |blocks| ==> Inside(chunks, blocks[j]))
    && forall j, k :: 0 <= j < k < |blocks| && blocks[j].chunk == blocks[k].chunk ==>
         blocks[j].start + blocks[j].size <= blocks[k].start
  }

  ghost predicate DistinctMemory(chunks: seq<Chunk>) {
    forall i, j :: 0 <= i < j < |chunks| ==> Apart(chunks[i].base, chunks[i].capacity, chunks[j].base, chunks[j].capacity)
  }

  /** Hence no two blocks of a frame overlap. */
  lemma BlocksAreDisjoint(chunks: seq<Chunk>, blocks: seq<Block>, j: nat, k: nat)
    requires Placed(chunks, blocks) && DistinctMemory(chunks) && j < k < |blocks|
    requires forall i :: 0 <= i < |chunks| ==> chunks[i].used <= chunks[i].capacity
    ensures Apart(blocks[j].start, blocks[j].size, blocks[k].start, blocks[k].size)
  {
    assert Inside(chunks, blocks[j]) && Inside(chunks, blocks[k]);
  }

  lemma PlaceOneMore(chunks: seq<Chunk>, blocks: seq<Block>, i: nat, start: nat, size: nat)
    requires Placed(chunks, blocks) && i < |chunks| && size > 0
    requires chunks[i].base + chunks[i].used <= start
    ensures Placed(chunks[i := chunks[i].(used := start + size - chunks[i].base)], blocks + [Block(i, start, size)])
  {
    var chunks' := chunks[i := chunks[i].(used := start + size - chunks[i].base)];
    forall j | 0 <= j < |blocks|
      ensures Inside(chunks', blocks[j])
      ensures blocks[j].chunk == i ==> blocks[j].start + blocks[j].size <= start
    {
      assert Inside(chunks, blocks[j]);
    }
  }

  /** Filling a chunk further keeps the blocks placed and the chunks apart. */
  lemma FillKeeps(chunks: seq<Chunk>, blocks: seq<Block>, i: nat, offset: nat, needed: nat)
    requires Placed(chunks, blocks) && DistinctMemory(chunks) && i < |chunks| && needed > 0
    requires chunks[i].used <= offset
    ensures var chunks' := chunks[i := chunks[i].(used := offset + needed)];
      && Placed(chunks', blocks + [Block(i, chunks[i].base + offset, needed)]) && DistinctMemory(chunks')
      && UsedSum(chunks') == UsedSum(chunks) + (offset - chunks[i].used) + needed
  {
    PlaceOneMore(chunks, blocks, i, chunks[i].base + offset, needed);
    UsedUpdate(chunks, i, chunks[i].(used := offset + needed));
  }

  class FrameAllocator {
    const defaultChunkSize: nat
    var chunks: seq<Chunk>
    var currentChunkIndex: nat
    var bytesUsedThisFrame: nat
    var highWaterMark: nat
    ghost var blocks: seq<Block>

    ghost function View(): Arena
      reads this
    {
      Arena(chunks, currentChunkIndex, defaultChunkSize)
    }

    ghost predicate Valid()
      reads this
    {
      && Filled(View()) && DistinctMemory(chunks) && Placed(chunks, blocks)
      && bytesUsedThisFrame == UsedSum(chunks) <= highWaterMark
    }

    /** The heap's promise for a new chunk. */
    ghost predicate HeapFor(r: Request)
      reads this
    {
      forall i :: 0 <= i < |chunks| ==> Apart(chunks[i].base, chunks[i].capacity, r.heapBase, GrownSize(View(), r))
    }

    constructor (initialChunkBytes: nat, heapBase: nat)
      ensures Valid() && blocks == [] && highWaterMark == 0
      ensures defaultChunkSize == (if initialChunkBytes == 0 then 65536 else initialChunkBytes)
      ensures chunks == [Chunk(heapBase, defaultChunkSize, 0)]
    {
      var size := if initialChunkBytes == 0 then DEFAULT_CHUNK_SIZE else initialChunkBytes;
      defaultChunkSize := size;
      chunks, currentChunkIndex := [Chunk(heapBase, size, 0)], 0;
      bytesUsedThisFrame, highWaterMark, blocks := 0, 0, [];
      new;
      UsedNothing(chunks);
    }

    method GrowAtLeast(requiredBytes: nat, heapBase: nat)
      requires Valid()
      requires forall i :: 0 <= i < |chunks| ==> Apart(chunks[i].base, chunks[i].capacity, heapBase,
                 if requiredBytes > defaultChunkSize then requiredBytes else defaultChunkSize)
      modifies this
      ensures Valid() && blocks == old(blocks)
      ensures chunks == old(chunks) + [Chunk(heapBase, if requiredBytes > defaultChunkSize then requiredBytes else defaultChunkSize, 0)]
      ensures currentChunkIndex == |old(chunks)|
      ensures bytesUsedThisFrame == old(bytesUsedThisFrame) && highWaterMark == old(highWaterMark)
    {
      var chunkBytes := if requiredBytes > defaultChunkSize then requiredBytes else defaultChunkSize;
      chunks := chunks + [Chunk(heapBase, chunkBytes, 0)];
      currentChunkIndex := |chunks| - 1;
      assert chunks[..|chunks| - 1] == old(chunks);
    }

    /** Walks the chunks from the current one; stops at the first with room. */
    method FindRoom(needed: nat, alignment: nat) returns (i: nat)
      requires currentChunkIndex <= |chunks|
      ensures i == FirstFit(chunks, currentChunkIndex, needed, alignment)
    {
      i := currentChunkIndex;
      while i < |chunks|
        invariant currentChunkIndex <= i <= |chunks|
        invariant FirstFit(chunks, currentChunkIndex, needed, alignment) == FirstFit(chunks, i, needed, alignment)
      {
        if Fits(chunks[i], needed, alignment) {
          return;
        }
        i := i + 1;
      }
    }

    method TakeFrom(i: nat, needed: nat, alignment: nat) returns (address: nat)
      requires Valid() && i < |chunks| && needed > 0
      requires chunks[i].used <= Offset(chunks[i], alignment) && Fits(chunks[i], needed, alignment)
      modifies this
      ensures Valid() && address == old(chunks)[i].base + Offset(old(chunks)[i], alignment)
      ensures chunks == old(chunks)[i := old(chunks)[i].(used := Offset(old(chunks)[i], alignment) + needed)]
      ensures currentChunkIndex == i && blocks == old(blocks) + [Block(i, address, needed)]
      ensures highWaterMark == if bytesUsedThisFrame > old(highWaterMark) then bytesUsedThisFrame else old(highWaterMark)
    {
      var alignedOffset := AlignUp(chunks[i].base + chunks[i].used, alignment) - chunks[i].base;
      address := chunks[i].base + alignedOffset;
      Consume(i, alignedOffset, needed);
    }

    /** The placement is the one the arena as a value makes. */
    method PlaceIn(i: nat, ghost r: Request, needed: nat, alignment: nat) returns (address: nat)
      requires Valid() && IsPow2(r.alignment) && alignment == r.alignment && needed == Size(r)
      requires i < |chunks| && i == FirstFit(chunks, currentChunkIndex, needed, alignment)
      modifies this
      ensures Valid() && View() == Serve(old(View()), r) && address == Address(old(View()), r)
      ensures blocks == old(blocks) + [Block(currentChunkIndex, address, needed)]
      ensures highWaterMark == if bytesUsedThisFrame > old(highWaterMark) then bytesUsedThisFrame else old(highWaterMark)
    {
      ServedInPlace(View(), r, i);
      address := TakeFrom(i, needed, alignment);
    }

    /** Aligned, in bounds, apart from every block of this frame, and exactly where the arena as a
        value says; after at most one growth. */
    method Allocate(size: nat, alignment: nat, heapBase: nat, ghost grown: bool) returns (address: nat)
      requires Valid() && IsPow2(alignment)
      requires !grown ==> HeapFor(Request(size, alignment, heapBase))
      requires grown ==> Roomy(View(), Request(size, alignment, heapBase))
      modifies this
      ensures Valid() && address % alignment == 0
      ensures View() == Serve(old(View()), Request(size, alignment, heapBase))
      ensures address == Address(old(View()), Request(size, alignment, heapBase))
      ensures blocks == old(blocks) + [Block(currentChunkIndex, address, if size == 0 then 1 else size)]
      ensures highWaterMark == if bytesUsedThisFrame > old(highWaterMark) then bytesUsedThisFrame else old(highWaterMark)
      decreases if grown then 0 else 1
    {
      ghost var r := Request(size, alignment, heapBase);
      AddressIsAligned(View(), r);
      var needed := if size == 0 then 1 else size;
      var i := FindRoom(needed, alignment);
      if i < |chunks| {
        address := PlaceIn(i, r, needed, alignment);
        return;
      }
      GrowFor(r, needed + alignment, heapBase);
      address := Allocate(size, alignment, heapBase, true);
    }

    method GrowFor(ghost r: Request, requiredBytes: nat, heapBase: nat)
      requires Valid() && IsPow2(r.alignment) && HeapFor(r) && requiredBytes == Size(r) + r.alignment && heapBase == r.heapBase
      requires FirstFit(chunks, currentChunkIndex, Size(r), r.alignment) == |chunks|
      modifies this
      ensures Valid() && Roomy(View(), r)
      ensures Serve(View(), r) == Serve(old(View()), r) && Address(View(), r) == Address(old(View()), r)
      ensures blocks == old(blocks) && bytesUsedThisFrame == old(bytesUsedThisFrame) && highWaterMark == old(highWaterMark)
    {
      ghost var a := View();
      GrownIsRoomy(a, r);
      GrowAtLeast(requiredBytes, heapBase);
      assert View() == Grow(a, r);
    }

    method Consume(i: nat, alignedOffset: nat, needed: nat)
      requires Valid() && i < |chunks| && chunks[i].used <= alignedOffset && alignedOffset + needed <= chunks[i].capacity
      requires needed > 0
      modifies this
      ensures Valid() && currentChunkIndex == i
      ensures bytesUsedThisFrame == old(bytesUsedThisFrame) + (alignedOffset - old(chunks)[i].used) + needed
      ensures chunks == old(chunks)[i := old(chunks)[i].(used := alignedOffset + needed)]
      ensures blocks == old(blocks) + [Block(i, chunks[i].base + alignedOffset, needed)]
      ensures highWaterMark == if bytesUsedThisFrame > old(highWaterMark) then bytesUsedThisFrame else old(highWaterMark)
    {
      FillKeeps(chunks, blocks, i, alignedOffset, needed);
      var consumed := (alignedOffset - chunks[i].used) + needed;
      blocks := blocks + [Block(i, chunks[i].base + alignedOffset, needed)];
      chunks := chunks[i := chunks[i].(used := alignedOffset + needed)];
      currentChunkIndex := i;
      Account(consumed);
    }

    method Account(consumed: nat)
      modifies this`bytesUsedThisFrame, this`highWaterMark
      ensures bytesUsedThisFrame == old(bytesUsedThisFrame) + consumed
      ensures highWaterMark == if bytesUsedThisFrame > old(highWaterMark) then bytesUsedThisFrame else old(highWaterMark)
    {
      bytesUsedThisFrame := bytesUsedThisFrame + consumed;
      if bytesUsedThisFrame > highWaterMark {
        highWaterMark := bytesUsedThisFrame;
      }
    }

    method Reset()
      requires Valid()
      modifies this
      ensures Valid() && View() == Rewound(old(View())) && blocks == [] && currentChunkIndex == 0
      ensures |chunks| == |old(chunks)| && forall i :: 0 <= i < |chunks| ==> chunks[i] == old(chunks)[i].(used := 0)
      ensures bytesUsedThisFrame == 0 && highWaterMark == old(highWaterMark)
    {
      blocks := [];
      ghost var before := chunks;
      var i := 0;
      while i < |chunks|
        invariant i <= |chunks| == |before|
        invariant forall k :: 0 <= k < |before| ==> chunks[k] == if k < i then before[k].(used := 0) else before[k]
        invariant unchanged(`currentChunkIndex) && highWaterMark == old(highWaterMark) && blocks == []
      {
        chunks := chunks[i := chunks[i].(used := 0)];
        i := i + 1;
      }
      assert chunks == Emptied(before);
      UsedNothing(chunks);
      currentChunkIndex := 0;
      bytesUsedThisFrame := 0;
    }
  }
}
