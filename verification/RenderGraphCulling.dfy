/** Dead-pass culling: the set the backward sweep must compute, and why running only that set
    keeps the meaning of the whole graph. */
module RenderGraphCulling {
  import opened Options
  import opened RenderGraphData

  ghost predicate IsLastProducer(g: Graph, t: nat, p: nat) {
    && t < |g.textures| && t < |g.textureProducers|
    && g.textures[t].finalLayout.Some?
    && |g.textureProducers[t]| > 1
    && g.textureProducers[t][|g.textureProducers[t]| - 1] == p
  }

  /** Side-effect passes and the last producers of exported textures. */
  ghost predicate IsRoot(g: Graph, p: nat) {
    p < |g.passes| && (g.passes[p].isSideEffect || exists t: nat :: IsLastProducer(g, t, p))
  }

  ghost predicate HasRoots(g: Graph, s: set<nat>) {
    forall p: nat :: IsRoot(g, p) ==> p in s
  }

  ghost predicate FedWithin(g: Graph, p: nat, s: set<nat>)
    requires p < |g.passes|
  {
    forall u :: u in Uses(g.passes[p]) && 1 <= u.consumed < |Producers(g, u.resource)|
      ==> Producers(g, u.resource)[u.consumed] in s
  }

  /** Closed under "the producer of a consumed version". */
  ghost predicate Closed(g: Graph, s: set<nat>) {
    forall p: nat :: p in s && p < |g.passes| ==> FedWithin(g, p, s)
  }

  ghost predicate IsLiveSet(g: Graph, s: set<nat>) {
    && (forall p :: p in s ==> p < |g.passes|)
    && HasRoots(g, s) && Closed(g, s)
    && forall t: set<nat> :: HasRoots(g, t) && Closed(g, t) ==> s <= t
  }

  lemma LiveSetUnique(g: Graph, s: set<nat>, t: set<nat>)
    requires IsLiveSet(g, s) && IsLiveSet(g, t)
    ensures s == t
  {
  }

  /** The version a record consumes was produced by pass p, according to this producer table. */
  predicate ConsumesFrom(table: seq<seq<nat>>, r: AccessRecord, p: nat) {
    r.index < |table| && 1 <= r.consumed < |table[r.index]| && table[r.index][r.consumed] == p
  }

  /** Pass q consumes a version that pass p produced. */
  ghost predicate Feeds(g: Graph, p: nat, q: nat) {
    q < |g.passes| &&
    ((exists r :: r in g.passes[q].textureAccesses && ConsumesFrom(g.textureProducers, r, p)) ||
     (exists r :: r in g.passes[q].bufferAccesses && ConsumesFrom(g.bufferProducers, r, p)))
  }

  /** Pass p made the newest version of texture t, which is exported. */
  predicate MadeExported(g: Graph, t: nat, p: nat) {
    t < |g.textures| && t < |g.textureProducers| && g.textures[t].finalLayout.Some?
    && |g.textureProducers[t]| > 1 && g.textureProducers[t][|g.textureProducers[t]| - 1] == p
  }

  /** Why a pass is kept: it has a side effect, or made the newest version of an exported texture, or
      made a version that a kept pass consumes. */
  ghost predicate HasReason(g: Graph, live: set<nat>, p: nat) {
    p < |g.passes| &&
    (g.passes[p].isSideEffect || (exists t: nat :: MadeExported(g, t, p)) || exists q :: q in live && Feeds(g, p, q))
  }

  lemma FeedIsUse(g: Graph, p: nat, q: nat) returns (u: Use)
    requires Feeds(g, p, q)
    ensures u in Uses(g.passes[q]) && 1 <= u.consumed < |Producers(g, u.resource)| && Producers(g, u.resource)[u.consumed] == p
  {
    if r :| r in g.passes[q].textureAccesses && ConsumesFrom(g.textureProducers, r, p) {
      u := TextureUse(r);
    } else {
      var r :| r in g.passes[q].bufferAccesses && ConsumesFrom(g.bufferProducers, r, p);
      u := BufferUse(r);
    }
  }

  lemma UseIsFeed(g: Graph, q: nat, u: Use)
    requires q < |g.passes| && u in Uses(g.passes[q]) && 1 <= u.consumed < |Producers(g, u.resource)|
    ensures Feeds(g, Producers(g, u.resource)[u.consumed], q)
  {
    var p := Producers(g, u.resource)[u.consumed];
    if u.resource.Texture? {
      var r :| r in g.passes[q].textureAccesses && u == TextureUse(r);
      assert ConsumesFrom(g.textureProducers, r, p);
    } else {
      var r :| r in g.passes[q].bufferAccesses && u == BufferUse(r);
      assert ConsumesFrom(g.bufferProducers, r, p);
    }
  }

  /** A pass without a reason can be dropped from a closed set. */
  lemma DroppingKeepsClosed(g: Graph, live: set<nat>, p: nat)
    requires HasRoots(g, live) && Closed(g, live) && p in live && p < |g.passes| && !HasReason(g, live, p)
    ensures HasRoots(g, live - {p}) && Closed(g, live - {p})
  {
    forall t: nat
      ensures !IsLastProducer(g, t, p)
    {
      assert !MadeExported(g, t, p);
    }
    forall q: nat, u | q in live - {p} && q < |g.passes| && u in Uses(g.passes[q]) && 1 <= u.consumed < |Producers(g, u.resource)|
      ensures Producers(g, u.resource)[u.consumed] in live - {p}
    {
      UseIsFeed(g, q, u);
      assert FedWithin(g, q, live);
    }
  }

  /** Exactly the passes with a reason are kept. */
  lemma KeptIffReason(g: Graph, live: set<nat>, p: nat)
    requires IsLiveSet(g, live)
    ensures p in live <==> HasReason(g, live, p)
  {
    if p in live && !HasReason(g, live, p) {
      DroppingKeepsClosed(g, live, p);
    } else if HasReason(g, live, p) {
      if t: nat :| MadeExported(g, t, p) {
        assert IsLastProducer(g, t, p);
        assert IsRoot(g, p);
      } else if q :| q in live && Feeds(g, p, q) {
        var u := FeedIsUse(g, p, q);
        assert FedWithin(g, q, live);
      } else {
        assert IsRoot(g, p);
      }
    }
  }

  ghost predicate Touches(g: Graph, p: nat, r: Resource) {
    p < |g.passes| && exists u :: u in Uses(g.passes[p]) && u.resource == r
  }

  ghost predicate Writes(g: Graph, p: nat, r: Resource) {
    p < |g.passes| && exists u :: u in Uses(g.passes[p]) && u.resource == r && u.isWrite
  }

  /** The producer of a version consumed the one before it. */
  lemma ProducerOfPrevious(g: Graph, live: set<nat>, r: Resource, v: nat)
    requires WellRecorded(g) && IsResource(g, r) && Closed(g, live)
    requires 1 <= v && v + 1 < |Producers(g, r)| && Producers(g, r)[v + 1] in live
    ensures Producers(g, r)[v] in live
  {
    var p, u := Producers(g, r)[v + 1], Use(r, v, v + 1, true);
    assert p < |g.passes| && u in Uses(g.passes[p]) by {
      assert ProducersOk(g, r);
    }
    assert FedWithin(g, p, live);
    assert u.consumed == v;
  }

  lemma {:induction false} Downward(ps: seq<nat>, live: set<nat>, u: nat, v: nat)
    requires 1 <= u <= v < |ps| && ps[v] in live
    requires forall w :: 1 <= w < |ps| - 1 && ps[w + 1] in live ==> ps[w] in live
    ensures ps[u] in live
    decreases v - u
  {
    if u < v {
      assert ps[v - 1 + 1] in live;
      Downward(ps, live, u, v - 1);
    }
  }

  /** For each resource the surviving writers form a prefix of its version chain. */
  lemma SurvivingWritersArePrefix(g: Graph, live: set<nat>, r: Resource, u: nat, v: nat)
    requires WellRecorded(g) && IsResource(g, r) && Closed(g, live)
    requires 1 <= u <= v < |Producers(g, r)| && Producers(g, r)[v] in live
    ensures Producers(g, r)[u] in live
  {
    forall w: nat | 1 <= w < |Producers(g, r)| - 1 && Producers(g, r)[w + 1] in live
      ensures Producers(g, r)[w] in live
    {
      ProducerOfPrevious(g, live, r, w);
    }
    Downward(Producers(g, r), live, u, v);
  }

  // ---------------------------------------------------------------- meaning

  type Store = map<Resource, int>

  /** What each pass computes, arbitrarily: from the contents of the resources it touches to
      new contents. Only its declared writes take effect. */
  type Semantics = (nat, Store) -> Store

  ghost function TouchedBy(g: Graph, p: nat): set<Resource>
    requires p < |g.passes|
  {
    set u | u in Uses(g.passes[p]) :: u.resource
  }

  ghost function WrittenBy(g: Graph, p: nat): set<Resource>
    requires p < |g.passes|
  {
    set u | u in Uses(g.passes[p]) && u.isWrite :: u.resource
  }

  ghost function Restrict(st: Store, rs: set<Resource>): Store {
    map r | r in rs && r in st :: st[r]
  }

  ghost function Inputs(g: Graph, p: nat, st: Store): Store
    requires p < |g.passes|
  {
    Restrict(st, TouchedBy(g, p))
  }

  /** Running one pass on the shared store, in place. */
  ghost function RunPass(g: Graph, sem: Semantics, p: nat, st: Store): Store
    requires p < |g.passes|
  {
    st + Restrict(sem(p, Inputs(g, p, st)), WrittenBy(g, p))
  }

  /** The passes below `n` that are in `keep`, in add order. */
  function Kept(keep: set<nat>, n: nat): seq<nat> {
    if n == 0 then [] else Kept(keep, n - 1) + (if n - 1 in keep then [n - 1] else [])
  }

  function UpTo(n: nat): (s: set<nat>)
    ensures forall i: nat :: i in s <==> i < n
  {
    if n == 0 then {} else UpTo(n - 1) + {n - 1}
  }

  ghost function RunOrder(g: Graph, sem: Semantics, order: seq<nat>, st: Store): Store
    requires forall k :: 0 <= k < |order| ==> order[k] < |g.passes|
  {
    if order == [] then st
    else RunPass(g, sem, order[|order| - 1], RunOrder(g, sem, order[..|order| - 1], st))
  }

  /** Running the passes below `n` that are kept; the state in which pass `n` starts. */
  ghost function Before(g: Graph, sem: Semantics, keep: set<nat>, st: Store, n: nat): Store
    requires n <= |g.passes|
  {
    if n == 0 then st
    else
      var prev := Before(g, sem, keep, st, n - 1);
      if n - 1 in keep then RunPass(g, sem, n - 1, prev) else prev
  }

  lemma {:induction false} KeptBelow(keep: set<nat>, n: nat)
    ensures forall k :: 0 <= k < |Kept(keep, n)| ==> Kept(keep, n)[k] < n && Kept(keep, n)[k] in keep
  {
    if n > 0 {
      KeptBelow(keep, n - 1);
    }
  }

  lemma RunOrderSnoc(g: Graph, sem: Semantics, order: seq<nat>, p: nat, st: Store)
    requires p < |g.passes| && forall k :: 0 <= k < |order| ==> order[k] < |g.passes|
    ensures RunOrder(g, sem, order + [p], st) == RunPass(g, sem, p, RunOrder(g, sem, order, st))
  {
    assert (order + [p])[..|order|] == order;
  }

  lemma {:induction false} BeforeIsRunOrder(g: Graph, sem: Semantics, keep: set<nat>, st: Store, n: nat)
    requires n <= |g.passes|
    ensures forall k :: 0 <= k < |Kept(keep, n)| ==> Kept(keep, n)[k] < n
    ensures Before(g, sem, keep, st, n) == RunOrder(g, sem, Kept(keep, n), st)
  {
    KeptBelow(keep, n);
    if n > 0 {
      BeforeIsRunOrder(g, sem, keep, st, n - 1);
      if n - 1 in keep {
        RunOrderSnoc(g, sem, Kept(keep, n - 1), n - 1, st);
      } else {
        assert Kept(keep, n) == Kept(keep, n - 1);
      }
    }
  }

  /** The culled run shows every surviving pass the inputs of the full run, and leaves every
      exported texture with the contents of the full run. */
  ghost predicate SameMeaning(g: Graph, sem: Semantics, live: set<nat>, st: Store) {
    var n := |g.passes|;
    && (forall p: nat :: p < n && p in live ==>
          Inputs(g, p, Before(g, sem, live, st, p)) == Inputs(g, p, Before(g, sem, UpTo(n), st, p)))
    && (forall t: nat :: t < |g.textures| && g.textures[t].finalLayout.Some? ==>
          Restrict(Before(g, sem, live, st, n), {Texture(t)}) == Restrict(Before(g, sem, UpTo(n), st, n), {Texture(t)}))
  }

  /** No surviving pass touches a resource that an earlier, culled pass writes. */
  ghost predicate NoDeadWriteVisible(g: Graph, live: set<nat>) {
    forall p: nat, q: nat, r: Resource :: p < |g.passes| && p in live && q < p && q !in live && Touches(g, p, r)
      ==> !Writes(g, q, r)
  }

  ghost predicate DirtyBefore(g: Graph, live: set<nat>, n: nat, r: Resource) {
    exists q: nat :: q < n && q !in live && Writes(g, q, r)
  }

  /** The two runs agree on every resource no culled pass has written yet. */
  lemma {:induction false} RunsAgree(g: Graph, sem: Semantics, live: set<nat>, st: Store, n: nat)
    requires n <= |g.passes| && NoDeadWriteVisible(g, live)
    ensures forall r :: !DirtyBefore(g, live, n, r) ==>
      Restrict(Before(g, sem, live, st, n), {r}) == Restrict(Before(g, sem, UpTo(|g.passes|), st, n), {r})
    ensures n < |g.passes| && n in live ==>
      Inputs(g, n, Before(g, sem, live, st, n)) == Inputs(g, n, Before(g, sem, UpTo(|g.passes|), st, n))
  {
    var all := UpTo(|g.passes|);
    if n > 0 {
      RunsAgree(g, sem, live, st, n - 1);
      forall r | !DirtyBefore(g, live, n, r)
        ensures Restrict(Before(g, sem, live, st, n), {r}) == Restrict(Before(g, sem, all, st, n), {r})
      {
        assert !DirtyBefore(g, live, n - 1, r);
        AgreeStep(g, sem, live, st, n - 1, r);
      }
    }
    if n < |g.passes| && n in live {
      var a, b := Before(g, sem, live, st, n), Before(g, sem, all, st, n);
      forall r | r in TouchedBy(g, n)
        ensures Restrict(a, {r}) == Restrict(b, {r})
      {
        assert Touches(g, n, r);
        assert !DirtyBefore(g, live, n, r);
      }
      RestrictPointwise(a, b, TouchedBy(g, n));
    }
  }

  lemma RestrictPointwise(a: Store, b: Store, rs: set<Resource>)
    requires forall r :: r in rs ==> Restrict(a, {r}) == Restrict(b, {r})
    ensures Restrict(a, rs) == Restrict(b, rs)
  {
    forall r | r in rs
      ensures (r in a <==> r in b) && (r in a ==> a[r] == b[r])
    {
      assert r in a <==> r in Restrict(a, {r});
      assert r in b <==> r in Restrict(b, {r});
      assert r in a ==> Restrict(a, {r})[r] == a[r];
      assert r in b ==> Restrict(b, {r})[r] == b[r];
    }
  }

  lemma AgreeStep(g: Graph, sem: Semantics, live: set<nat>, st: Store, p: nat, r: Resource)
    requires p < |g.passes|
    requires !DirtyBefore(g, live, p + 1, r)
    requires var all := UpTo(|g.passes|);
      Restrict(Before(g, sem, live, st, p), {r}) == Restrict(Before(g, sem, all, st, p), {r})
    requires p in live ==>
      Inputs(g, p, Before(g, sem, live, st, p)) == Inputs(g, p, Before(g, sem, UpTo(|g.passes|), st, p))
    ensures Restrict(Before(g, sem, live, st, p + 1), {r}) == Restrict(Before(g, sem, UpTo(|g.passes|), st, p + 1), {r})
  {
    var all := UpTo(|g.passes|);
    var a, b := Before(g, sem, live, st, p), Before(g, sem, all, st, p);
    assert p in all;
    assert Before(g, sem, all, st, p + 1) == RunPass(g, sem, p, b);
    if p in live {
      assert Before(g, sem, live, st, p + 1) == RunPass(g, sem, p, a);
      OverwriteAgrees(a, b, Restrict(sem(p, Inputs(g, p, a)), WrittenBy(g, p)), r);
    } else {
      assert !Writes(g, p, r);
      assert r !in WrittenBy(g, p);
      OverwriteElsewhere(b, Restrict(sem(p, Inputs(g, p, b)), WrittenBy(g, p)), r);
    }
  }

  lemma OverwriteAgrees(a: Store, b: Store, d: Store, r: Resource)
    requires Restrict(a, {r}) == Restrict(b, {r})
    ensures Restrict(a + d, {r}) == Restrict(b + d, {r})
  {
    assert r in a <==> r in Restrict(a, {r});
    assert r in b <==> r in Restrict(b, {r});
    assert r in a ==> Restrict(a, {r})[r] == a[r];
    assert r in b ==> Restrict(b, {r})[r] == b[r];
  }

  lemma OverwriteElsewhere(b: Store, d: Store, r: Resource)
    requires r !in d
    ensures Restrict(b + d, {r}) == Restrict(b, {r})
  {
  }

  /** Exported textures never meet a culled writer. */
  lemma ExportedStaysClean(g: Graph, live: set<nat>, t: nat)
    requires WellRecorded(g) && HasRoots(g, live) && Closed(g, live)
    requires t < |g.textures| && g.textures[t].finalLayout.Some?
    ensures !DirtyBefore(g, live, |g.passes|, Texture(t))
  {
    var r := Texture(t);
    assert IsResource(g, r) && ProducersOk(g, r);
    var ps := Producers(g, r);
    forall q: nat | q < |g.passes| && Writes(g, q, r)
      ensures q in live
    {
      var u :| u in Uses(g.passes[q]) && u.resource == r && u.isWrite;
      assert UseOk(g, q, u);
      assert IsLastProducer(g, t, ps[|ps| - 1]);
      assert IsRoot(g, ps[|ps| - 1]);
      SurvivingWritersArePrefix(g, live, r, u.produced, |ps| - 1);
    }
  }

  lemma CleanGraphsKeepMeaning(g: Graph, sem: Semantics, live: set<nat>, st: Store)
    requires WellRecorded(g) && IsLiveSet(g, live) && NoDeadWriteVisible(g, live)
    ensures SameMeaning(g, sem, live, st)
  {
    forall p: nat | p <= |g.passes|
      ensures p < |g.passes| && p in live ==>
        Inputs(g, p, Before(g, sem, live, st, p)) == Inputs(g, p, Before(g, sem, UpTo(|g.passes|), st, p))
    {
      RunsAgree(g, sem, live, st, p);
    }
    RunsAgree(g, sem, live, st, |g.passes|);
    forall t: nat | t < |g.textures| && g.textures[t].finalLayout.Some?
      ensures Restrict(Before(g, sem, live, st, |g.passes|), {Texture(t)})
           == Restrict(Before(g, sem, UpTo(|g.passes|), st, |g.passes|), {Texture(t)})
    {
      ExportedStaysClean(g, live, t);
    }
  }

  lemma VersionsFollowPasses(g: Graph, r: Resource, v: nat, w: nat)
    requires IsResource(g, r) && ProducersOk(g, r)
    requires 1 <= v < |Producers(g, r)| && 1 <= w < |Producers(g, r)|
    requires Producers(g, r)[v] < Producers(g, r)[w]
    ensures v < w
  {
  }

  lemma EarlierWriterIsAncestor(g: Graph, live: set<nat>, p: nat, u: Use, q: nat, w: Use)
    requires WellRecorded(g) && Closed(g, live) && ReadsNewest(g)
    requires q < p < |g.passes| && p in live
    requires u in Uses(g.passes[p]) && w in Uses(g.passes[q]) && w.isWrite && w.resource == u.resource
    ensures q in live
  {
    var ps := Producers(g, u.resource);
    assert UseOk(g, p, u) && UseOk(g, q, w) && ProducersOk(g, u.resource);
    assert ps[w.produced] == q;
    if u.isWrite {
      VersionsFollowPasses(g, u.resource, w.produced, u.produced);
    }
    assert w.produced <= u.consumed;
    assert FedWithin(g, p, live);
    SurvivingWritersArePrefix(g, live, u.resource, w.produced, u.consumed);
  }

  /** Reading through the newest handle is enough: whatever an earlier pass wrote to a resource
      a surviving pass touches is an ancestor of the version that pass consumes. */
  lemma NewestReadsSeeNoDeadWrite(g: Graph, live: set<nat>)
    requires WellRecorded(g) && Closed(g, live) && ReadsNewest(g)
    ensures NoDeadWriteVisible(g, live)
  {
    forall p: nat, q: nat, r: Resource | p < |g.passes| && p in live && q < p && Touches(g, p, r) && Writes(g, q, r)
      ensures q in live
    {
      var u :| u in Uses(g.passes[p]) && u.resource == r;
      var w :| w in Uses(g.passes[q]) && w.resource == r && w.isWrite;
      EarlierWriterIsAncestor(g, live, p, u, q, w);
    }
  }

  /** Culling preserves meaning, for arbitrary passes and contents, whenever reads use the
      newest handle. */
  lemma CullingPreservesMeaning(g: Graph, sem: Semantics, live: set<nat>, st: Store)
    requires WellRecorded(g) && ReadsNewest(g) && IsLiveSet(g, live)
    ensures SameMeaning(g, sem, live, st)
  {
    NewestReadsSeeNoDeadWrite(g, live);
    CleanGraphsKeepMeaning(g, sem, live, st);
  }

  ghost predicate InGraph(g: Graph, order: seq<nat>) {
    forall k :: 0 <= k < |order| ==> order[k] < |g.passes|
  }

  /** End to end: executing Compile's order leaves every exported texture with the contents
      that executing every pass in add order would. */
  lemma CulledRunMatchesFullRun(g: Graph, sem: Semantics, live: set<nat>, st: Store, t: nat)
    requires WellRecorded(g) && ReadsNewest(g) && IsLiveSet(g, live)
    requires t < |g.textures| && g.textures[t].finalLayout.Some?
    ensures InGraph(g, Kept(live, |g.passes|)) && InGraph(g, Kept(UpTo(|g.passes|), |g.passes|))
    ensures Restrict(RunOrder(g, sem, Kept(live, |g.passes|), st), {Texture(t)})
         == Restrict(RunOrder(g, sem, Kept(UpTo(|g.passes|), |g.passes|), st), {Texture(t)})
  {
    CullingPreservesMeaning(g, sem, live, st);
    BeforeIsRunOrder(g, sem, live, st, |g.passes|);
    BeforeIsRunOrder(g, sem, UpTo(|g.passes|), st, |g.passes|);
  }

  lemma {:induction false} KeptPrefix(keep: set<nat>, n: nat, k: nat)
    requires k < |Kept(keep, n)|
    ensures Kept(keep, n)[k] < n && Kept(keep, n)[k] in keep
    ensures Kept(keep, n)[..k] == Kept(keep, Kept(keep, n)[k])
  {
    if k < |Kept(keep, n - 1)| {
      KeptPrefix(keep, n - 1, k);
      assert Kept(keep, n)[..k] == Kept(keep, n - 1)[..k];
    } else {
      assert Kept(keep, n)[..k] == Kept(keep, n - 1);
    }
  }

  lemma {:induction false} KeptAll(n: nat, m: nat)
    requires m <= n
    ensures |Kept(UpTo(n), m)| == m && forall k :: 0 <= k < m ==> Kept(UpTo(n), m)[k] == k
  {
    if m > 0 {
      KeptAll(n, m - 1);
    }
  }

  /** The k-th pass executed finds its resources as it would if every pass of the graph ran. */
  lemma SurvivorsSeeFullRun(g: Graph, sem: Semantics, live: set<nat>, st: Store, k: nat)
    requires WellRecorded(g) && ReadsNewest(g) && IsLiveSet(g, live) && k < |Kept(live, |g.passes|)|
    ensures var culled, all := Kept(live, |g.passes|), Kept(UpTo(|g.passes|), |g.passes|);
      && InGraph(g, culled) && InGraph(g, all) && culled[k] < |all| && all[culled[k]] == culled[k]
      && Inputs(g, culled[k], RunOrder(g, sem, culled[..k], st)) == Inputs(g, culled[k], RunOrder(g, sem, all[..culled[k]], st))
  {
    var n, p := |g.passes|, Kept(live, |g.passes|)[k];
    KeptPrefix(live, n, k);
    KeptAll(n, n);
    KeptPrefix(UpTo(n), n, p);
    CullingPreservesMeaning(g, sem, live, st);
    BeforeIsRunOrder(g, sem, live, st, n);
    BeforeIsRunOrder(g, sem, live, st, p);
    BeforeIsRunOrder(g, sem, UpTo(n), st, p);
  }

  // ---------------------------------------------------------------- stale reads

  /** Pass `q` stores 1 in `r`; every other pass writes back what it was given. */
  function Marker(q: nat, r: Resource): Semantics {
    (k: nat, inputs: Store) => if k == q then map[r := 1] else inputs
  }

  lemma {:induction false} MarkerRuns(g: Graph, keep: set<nat>, q: nat, r: Resource, n: nat)
    requires n <= |g.passes| && Writes(g, q, r)
    ensures Before(g, Marker(q, r), keep, map[r := 0], n) == map[r := if q < n && q in keep then 1 else 0]
  {
    if n > 0 {
      MarkerRuns(g, keep, q, r, n - 1);
      if n - 1 == q {
        assert r in WrittenBy(g, q);
      }
    }
  }

  lemma DeadWriteChangesMeaning(g: Graph, live: set<nat>)
    requires !NoDeadWriteVisible(g, live)
    ensures exists sem: Semantics, st: Store :: !SameMeaning(g, sem, live, st)
  {
    var p: nat, q: nat, r :| p < |g.passes| && p in live && q < p && q !in live && Touches(g, p, r) && Writes(g, q, r);
    var sem, st, all := Marker(q, r), map[r := 0], UpTo(|g.passes|);
    MarkerRuns(g, live, q, r, p);
    MarkerRuns(g, all, q, r, p);
    assert r in TouchedBy(g, p);
    assert Inputs(g, p, Before(g, sem, live, st, p))[r] == 0;
    assert Inputs(g, p, Before(g, sem, all, st, p))[r] == 1;
    assert !SameMeaning(g, sem, live, st);
  }

  /** Exactly when culling is sound for every meaning the passes can have. */
  lemma MeaningKeptIffNoDeadWriteVisible(g: Graph, live: set<nat>)
    requires WellRecorded(g) && IsLiveSet(g, live)
    ensures (forall sem: Semantics, st: Store :: SameMeaning(g, sem, live, st)) <==> NoDeadWriteVisible(g, live)
  {
    if NoDeadWriteVisible(g, live) {
      forall sem: Semantics, st: Store
        ensures SameMeaning(g, sem, live, st)
      {
        CleanGraphsKeepMeaning(g, sem, live, st);
      }
    } else {
      DeadWriteChangesMeaning(g, live);
    }
  }

  /** A concrete stale read: pass 0 writes version 1 of a texture, pass 1 version 2, and the
      side-effect pass 2 reads version 1. Pass 1 is culled although pass 2 sees its contents. */
  function StaleReadGraph(): Graph {
    var access := Access(General, 0, 0);
    var write1 := PassNode(false, false, true, false, [AccessRecord(0, 0, 1, true, access)], [], [], []);
    var write2 := PassNode(false, false, true, false, [AccessRecord(0, 1, 2, true, access)], [], [], []);
    var read1 := PassNode(false, true, true, false, [AccessRecord(0, 1, 0, false, access)], [], [], []);
    Graph([write1, write2, read1], [TextureNode(false, Undefined, None, 2, true)], [], [[INVALID_PASS, 0, 1]], [])
  }

  lemma StaleReadUses()
    ensures var g := StaleReadGraph();
      && Uses(g.passes[0]) == {Use(Texture(0), 0, 1, true)}
      && Uses(g.passes[1]) == {Use(Texture(0), 1, 2, true)}
      && Uses(g.passes[2]) == {Use(Texture(0), 1, 0, false)}
  {
    var g := StaleReadGraph();
    assert TextureUse(g.passes[0].textureAccesses[0]) == Use(Texture(0), 0, 1, true);
    assert TextureUse(g.passes[1].textureAccesses[0]) == Use(Texture(0), 1, 2, true);
    assert TextureUse(g.passes[2].textureAccesses[0]) == Use(Texture(0), 1, 0, false);
  }

  lemma StaleReadProducersOk()
    ensures ProducersOk(StaleReadGraph(), Texture(0))
  {
    StaleReadUses();
    assert Producers(StaleReadGraph(), Texture(0)) == [INVALID_PASS, 0, 1];
  }

  lemma StaleReadUsesOk(p: nat, u: Use)
    requires p < 3 && u in Uses(StaleReadGraph().passes[p])
    ensures UseOk(StaleReadGraph(), p, u)
  {
    StaleReadUses();
    assert Producers(StaleReadGraph(), Texture(0)) == [INVALID_PASS, 0, 1];
  }

  lemma StaleReadIsWellRecorded()
    ensures WellRecorded(StaleReadGraph())
  {
    var g := StaleReadGraph();
    forall r | IsResource(g, r)
      ensures ProducersOk(g, r)
    {
      assert r == Texture(0);
      StaleReadProducersOk();
    }
    forall p, u | 0 <= p < |g.passes| && u in Uses(g.passes[p])
      ensures UseOk(g, p, u)
    {
      StaleReadUsesOk(p, u);
    }
  }

  lemma StaleReadLiveSet()
    ensures IsLiveSet(StaleReadGraph(), {0, 2})
  {
    var g, live: set<nat> := StaleReadGraph(), {0, 2};
    StaleReadUses();
    assert Producers(g, Texture(0)) == [INVALID_PASS, 0, 1];
    assert IsRoot(g, 2);
    forall t: set<nat> | HasRoots(g, t) && Closed(g, t)
      ensures live <= t
    {
      assert 2 in t;
      assert FedWithin(g, 2, t);
      assert Use(Texture(0), 1, 0, false) in Uses(g.passes[2]);
    }
  }

  lemma StaleReadBreaksCulling()
    ensures var g, live := StaleReadGraph(), {0, 2};
      WellRecorded(g) && IsLiveSet(g, live) && exists sem: Semantics, st: Store :: !SameMeaning(g, sem, live, st)
  {
    var g, live: set<nat> := StaleReadGraph(), {0, 2};
    StaleReadUses();
    StaleReadIsWellRecorded();
    StaleReadLiveSet();
    assert Use(Texture(0), 1, 0, false) in Uses(g.passes[2]) && Use(Texture(0), 1, 2, true) in Uses(g.passes[1]);
    assert Touches(g, 2, Texture(0)) && Writes(g, 1, Texture(0));
    DeadWriteChangesMeaning(g, live);
  }
}
