/** What the barriers of a compiled graph amount to: the recorded stream replays them, and where
    they leave a write without one. */
module RenderGraphPlans {
  import opened Options
  import opened RenderGraphData
  import opened RenderGraphCulling
  import opened RenderGraphBarriers
  import opened RenderGraphExecution
  import opened RenderGraphs

  // ---------------------------------------------------------------- the recorded stream

  datatype Kind = OfTextures | OfBuffers

  function Group(c: Command, kind: Kind): seq<Barrier> {
    if !c.BarrierGroup? then [] else if kind.OfTextures? then c.textures else c.buffers
  }

  /** The barriers a stream of commands executes, in order. */
  function BarriersOf(cmds: seq<Command>, kind: Kind): seq<Barrier> {
    if cmds == [] then [] else BarriersOf(cmds[..|cmds| - 1], kind) + Group(cmds[|cmds| - 1], kind)
  }

  function Prelude(node: PassNode, kind: Kind): seq<Barrier> {
    if kind.OfTextures? then node.textureBarriers else node.bufferBarriers
  }

  lemma {:induction false} BarriersOfBoth(a: seq<Command>, b: seq<Command>, kind: Kind)
    ensures BarriersOf(a + b, kind) == BarriersOf(a, kind) + BarriersOf(b, kind)
  {
    if b == [] {
      assert a + b == a;
    } else {
      assert (a + b)[..|a + b| - 1] == a + b[..|b| - 1];
      BarriersOfBoth(a, b[..|b| - 1], kind);
    }
  }

  lemma BarriersOfNext(cmds: seq<Command>, on: bool, c: Command, kind: Kind)
    ensures BarriersOf(cmds + (if on then [c] else []), kind) == BarriersOf(cmds, kind) + (if on then Group(c, kind) else [])
  {
    if on {
      assert (cmds + [c])[..|cmds|] == cmds;
    } else {
      assert cmds + [] == cmds;
    }
  }

  lemma BarriersOfOne(c: Command, kind: Kind)
    ensures BarriersOf([c], kind) == Group(c, kind)
  {
    assert [] + [c] == [c];
    BarriersOfNext([], true, c, kind);
  }

  predicate HasPrelude(node: PassNode) {
    node.textureBarriers != [] || node.bufferBarriers != []
  }

  /** A pass executes its prelude and no other barrier. */
  lemma PassExecutesPrelude(node: PassNode, pass: nat, kind: Kind)
    ensures BarriersOf(PassCommands(node, pass), kind) == Prelude(node, kind)
  {
    var group := BarrierGroup(node.textureBarriers, node.bufferBarriers);
    var marked := [PushMarker(pass)];
    var planned := marked + if HasPrelude(node) then [group] else [];
    var begun := planned + if node.isRaster then [BeginRendering(pass)] else [];
    var run := begun + [Body(pass)];
    var ended := run + if node.isRaster then [EndRendering] else [];
    BarriersOfOne(PushMarker(pass), kind);
    BarriersOfNext(marked, HasPrelude(node), group, kind);
    BarriersOfNext(planned, node.isRaster, BeginRendering(pass), kind);
    BarriersOfNext(begun, true, Body(pass), kind);
    BarriersOfNext(run, node.isRaster, EndRendering, kind);
    BarriersOfNext(ended, true, PopMarker, kind);
    assert PassCommands(node, pass) == ended + [PopMarker];
  }

  function Preludes(ps: seq<PassNode>, order: seq<nat>, kind: Kind, k: nat): seq<Barrier>
    requires OrderOk(ps, order) && k <= |order|
  {
    if k == 0 then [] else Preludes(ps, order, kind, k - 1) + Prelude(ps[order[k - 1]], kind)
  }

  lemma {:induction false} StreamExecutesPreludes(ps: seq<PassNode>, order: seq<nat>, kind: Kind, k: nat)
    requires OrderOk(ps, order) && k <= |order|
    ensures BarriersOf(Stream(ps, order, 0, k), kind) == Preludes(ps, order, kind, k)
  {
    if k > 0 {
      var pass := order[k - 1];
      StreamExecutesPreludes(ps, order, kind, k - 1);
      BarriersOfBoth(Stream(ps, order, 0, k - 1), PassCommands(ps[pass], pass), kind);
      PassExecutesPrelude(ps[pass], pass, kind);
    }
  }

  lemma PreludesAreEmitted(ps: seq<PassNode>, order: seq<nat>, init: seq<SyncState>,
                           lists: seq<seq<AccessRecord>>, kind: Kind, n: nat)
    requires OrderOk(ps, order) && |lists| == |order| && n <= |order| && AllInRange(lists, |init|)
    requires forall j :: 0 <= j < |order| ==> Prelude(ps[order[j]], kind) == BarriersAt(init, lists, j)
    ensures Preludes(ps, order, kind, n) == Emitted(init, lists, n)
  {
    for k := 0 to n
      invariant Preludes(ps, order, kind, k) == Emitted(init, lists, k)
    {
      assert Prelude(ps[order[k]], kind) == BarriersAt(init, lists, k);
    }
  }

  lemma ClosingExecutes(closing: seq<Barrier>)
    ensures BarriersOf(ClosingCommands(closing), OfTextures) == closing
    ensures BarriersOf(ClosingCommands(closing), OfBuffers) == []
  {
    BarriersOfOne(BarrierGroup(closing, []), OfTextures);
    BarriersOfOne(BarrierGroup(closing, []), OfBuffers);
  }

  /** What the device holds before the first command: imported textures in the layout their owner
      left them in, all others in none. */
  ghost predicate HeldInitially(ls: seq<ImageLayout>, textures: seq<TextureNode>) {
    && |ls| == |textures|
    && forall i :: 0 <= i < |ls| ==> ls[i] == if textures[i].isImported then textures[i].initialLayout else Undefined
  }

  lemma PlannedFromHeld(ls: seq<ImageLayout>, textures: seq<TextureNode>)
    requires HeldInitially(ls, textures)
    ensures Layouts(InitialTextureStates(textures)) == ls
  {
  }

  /** Executing the stream Execute records on such a device: its texture barriers are, in order, the
      planned preludes and the closing transitions; none ever meets a wrong old layout, and every
      exported texture that exists ends in its final layout. */
  lemma SerialStreamReplays(rg: RenderGraph, canMergeWith: (nat, nat) -> bool, ls: seq<ImageLayout>)
    requires rg.Lowered(canMergeWith) && HeldInitially(ls, rg.textures)
    ensures var bs := BarriersOf(rg.SerialStream(), OfTextures);
      && bs == AllBarriers(rg.textures, InitialTextureStates(rg.textures), TextureLists(rg.passes, rg.executionOrder))
      && OnResources(bs, |ls|) && ReplaysCleanly(ls, bs)
      && forall i :: 0 <= i < |ls| && rg.textures[i].realized && rg.textures[i].finalLayout.Some?
           ==> Replayed(ls, bs)[i] == rg.textures[i].finalLayout.value
  {
    var ps, order, n := rg.passes, rg.executionOrder, |rg.executionOrder|;
    var init, lists := InitialTextureStates(rg.textures), TextureLists(ps, order);
    PlannedFromHeld(ls, rg.textures);
    StreamExecutesPreludes(ps, order, OfTextures, n);
    PreludesAreEmitted(ps, order, init, lists, OfTextures, n);
    BarriersOfBoth(Stream(ps, order, 0, n), ClosingCommands(rg.ClosingBarriers()), OfTextures);
    ClosingExecutes(rg.ClosingBarriers());
    WholePlanReplays(rg.textures, init, lists);
  }

  /** And its buffer barriers are the planned ones. */
  lemma SerialStreamBuffers(rg: RenderGraph, canMergeWith: (nat, nat) -> bool)
    requires rg.Lowered(canMergeWith)
    ensures BarriersOf(rg.SerialStream(), OfBuffers)
         == Emitted(InitialBufferStates(|rg.buffers|), BufferLists(rg.passes, rg.executionOrder), |rg.executionOrder|)
  {
    var ps, order, n := rg.passes, rg.executionOrder, |rg.executionOrder|;
    StreamExecutesPreludes(ps, order, OfBuffers, n);
    PreludesAreEmitted(ps, order, InitialBufferStates(|rg.buffers|), BufferLists(ps, order), OfBuffers, n);
    BarriersOfBoth(Stream(ps, order, 0, n), ClosingCommands(rg.ClosingBarriers()), OfBuffers);
    ClosingExecutes(rg.ClosingBarriers());
  }

  // ---------------------------------------------------------------- where the bodies stand

  /** The passes whose bodies a stream calls, in order. */
  function BodiesOf(cmds: seq<Command>): seq<nat> {
    if cmds == [] then []
    else BodiesOf(cmds[..|cmds| - 1]) + (if cmds[|cmds| - 1].Body? then [cmds[|cmds| - 1].pass] else [])
  }

  lemma {:induction false} BodiesOfBoth(a: seq<Command>, b: seq<Command>)
    ensures BodiesOf(a + b) == BodiesOf(a) + BodiesOf(b)
  {
    if b == [] {
      assert a + b == a;
    } else {
      assert (a + b)[..|a + b| - 1] == a + b[..|b| - 1];
      BodiesOfBoth(a, b[..|b| - 1]);
    }
  }

  lemma {:induction false} OneBody(cmds: seq<Command>, at: nat)
    requires at < |cmds| && cmds[at].Body? && forall x :: 0 <= x < |cmds| && x != at ==> !cmds[x].Body?
    ensures BodiesOf(cmds) == [cmds[at].pass]
  {
    var n := |cmds| - 1;
    if at < n {
      OneBody(cmds[..n], at);
    } else {
      NoBody(cmds[..n]);
    }
  }

  lemma {:induction false} NoBody(cmds: seq<Command>)
    requires forall x :: 0 <= x < |cmds| ==> !cmds[x].Body?
    ensures BodiesOf(cmds) == []
  {
    if cmds != [] {
      NoBody(cmds[..|cmds| - 1]);
    }
  }

  lemma StreamRunsInOrder(ps: seq<PassNode>, order: seq<nat>)
    requires OrderOk(ps, order)
    ensures BodiesOf(Stream(ps, order, 0, |order|)) == order
  {
    for k := 0 to |order|
      invariant BodiesOf(Stream(ps, order, 0, k)) == order[..k]
    {
      PassRunsOnce(ps[order[k]], order[k]);
      RunsNext(Stream(ps, order, 0, k), PassCommands(ps[order[k]], order[k]), order, k);
    }
    assert order[..|order|] == order;
  }

  lemma RunsNext(done: seq<Command>, own: seq<Command>, order: seq<nat>, k: nat)
    requires k < |order| && BodiesOf(done) == order[..k] && BodiesOf(own) == [order[k]]
    ensures BodiesOf(done + own) == order[..k + 1]
  {
    BodiesOfBoth(done, own);
    assert order[..k + 1] == order[..k] + [order[k]];
  }

  lemma PassRunsOnce(node: PassNode, pass: nat)
    ensures BodiesOf(PassCommands(node, pass)) == [pass]
  {
    CommandsAround(node, pass);
    OneBody(PassCommands(node, pass), |Opening(node, pass)|);
  }

  /** The commands of a pass before its body, and after it. */
  function Opening(node: PassNode, pass: nat): seq<Command> {
    [PushMarker(pass)]
    + (if HasPrelude(node) then [BarrierGroup(node.textureBarriers, node.bufferBarriers)] else [])
    + (if node.isRaster then [BeginRendering(pass)] else [])
  }

  function Ending(node: PassNode): seq<Command> {
    (if node.isRaster then [EndRendering] else []) + [PopMarker]
  }

  lemma CommandsAround(node: PassNode, pass: nat)
    ensures var cmds, before := PassCommands(node, pass), |Opening(node, pass)|;
      && cmds == Opening(node, pass) + [Body(pass)] + Ending(node)
      && before < |cmds| && cmds[before] == Body(pass)
      && forall x :: 0 <= x < |cmds| && x != before ==> !cmds[x].Body?
  {
    assert PassCommands(node, pass) == Opening(node, pass) + [Body(pass)] + Ending(node);
    assert forall x :: 0 <= x < |Opening(node, pass)| ==> !Opening(node, pass)[x].Body?;
    assert forall x :: 0 <= x < |Ending(node)| ==> !Ending(node)[x].Body?;
  }

  /** Every executed pass's body is called once, in execution order. */
  lemma SerialStreamRunsInOrder(rg: RenderGraph)
    requires rg.Compiled()
    ensures BodiesOf(rg.SerialStream()) == rg.executionOrder
  {
    var ps, order, n := rg.passes, rg.executionOrder, |rg.executionOrder|;
    StreamRunsInOrder(ps, order);
    BodiesOfBoth(Stream(ps, order, 0, n), ClosingCommands(rg.ClosingBarriers()));
    NoBody(ClosingCommands(rg.ClosingBarriers()));
  }

  lemma OpeningExecutesPrelude(node: PassNode, pass: nat, kind: Kind)
    ensures BarriersOf(Opening(node, pass), kind) == Prelude(node, kind)
  {
    var group := BarrierGroup(node.textureBarriers, node.bufferBarriers);
    var marked := [PushMarker(pass)];
    var planned := marked + if HasPrelude(node) then [group] else [];
    BarriersOfOne(PushMarker(pass), kind);
    BarriersOfNext(marked, HasPrelude(node), group, kind);
    BarriersOfNext(planned, node.isRaster, BeginRendering(pass), kind);
  }

  /** What a pass executes before its body: its whole prelude. */
  lemma BodyFollowsPrelude(node: PassNode, pass: nat, at: nat, kind: Kind)
    requires at < |PassCommands(node, pass)| && PassCommands(node, pass)[at].Body?
    ensures PassCommands(node, pass)[at] == Body(pass)
    ensures BarriersOf(PassCommands(node, pass)[..at], kind) == Prelude(node, kind)
  {
    CommandsAround(node, pass);
    assert PassCommands(node, pass)[..at] == Opening(node, pass);
    OpeningExecutesPrelude(node, pass, kind);
  }

  lemma BodyOfNext(before: seq<Command>, own: seq<Command>, all: seq<Command>, done: seq<Barrier>,
                   node: PassNode, pass: nat, at: nat, kind: Kind)
    requires own == PassCommands(node, pass) && all == before + own && BarriersOf(before, kind) == done
    requires |before| <= at < |all| && all[at].Body?
    ensures all[at] == Body(pass) && BarriersOf(all[..at], kind) == done + Prelude(node, kind)
  {
    assert all[..at] == before + own[..at - |before|];
    BodyFollowsPrelude(node, pass, at - |before|, kind);
    BarriersOfBoth(before, own[..at - |before|], kind);
  }

  /** The pass whose body stands at this place, and what has been executed by then. */
  lemma {:induction false} BodyFollowsPreludes(ps: seq<PassNode>, order: seq<nat>, n: nat, at: nat, stream: seq<Command>)
      returns (k: nat)
    requires OrderOk(ps, order) && n <= |order| && stream == Stream(ps, order, 0, n) && at < |stream| && stream[at].Body?
    ensures k < n && stream[at] == Body(order[k])
    ensures forall kind: Kind :: BarriersOf(stream[..at], kind) == Preludes(ps, order, kind, k + 1)
  {
    var before := Stream(ps, order, 0, n - 1);
    if at < |before| {
      k := BodyFollowsPreludes(ps, order, n - 1, at, before);
      assert stream[..at] == before[..at];
    } else {
      k := n - 1;
      BodyOfLast(ps, order, k, before, at, stream, OfTextures);
      BodyOfLast(ps, order, k, before, at, stream, OfBuffers);
    }
  }

  lemma BodyOfLast(ps: seq<PassNode>, order: seq<nat>, k: nat, before: seq<Command>, at: nat, stream: seq<Command>, kind: Kind)
    requires OrderOk(ps, order) && k < |order| && before == Stream(ps, order, 0, k)
    requires stream == before + PassCommands(ps[order[k]], order[k]) && |before| <= at < |stream| && stream[at].Body?
    ensures stream[at] == Body(order[k]) && BarriersOf(stream[..at], kind) == Preludes(ps, order, kind, k + 1)
  {
    var own, done := PassCommands(ps[order[k]], order[k]), Preludes(ps, order, kind, k);
    assert BarriersOf(before, kind) == done by {
      StreamExecutesPreludes(ps, order, kind, k);
    }
    BodyOfNext(before, own, stream, done, ps[order[k]], order[k], at, kind);
  }

  lemma BodyPosition(rg: RenderGraph, at: nat) returns (k: nat)
    requires rg.Compiled() && at < |rg.SerialStream()| && rg.SerialStream()[at].Body?
    ensures k < |rg.executionOrder| && rg.SerialStream()[at] == Body(rg.executionOrder[k])
    ensures forall kind: Kind ::
      BarriersOf(rg.SerialStream()[..at], kind) == Preludes(rg.passes, rg.executionOrder, kind, k + 1)
  {
    var stream := Stream(rg.passes, rg.executionOrder, 0, |rg.executionOrder|);
    assert at < |stream|;
    assert rg.SerialStream()[..at] == stream[..at];
    k := BodyFollowsPreludes(rg.passes, rg.executionOrder, |rg.executionOrder|, at, stream);
  }

  lemma DeclaredAfterPreludes(init: seq<SyncState>, lists: seq<seq<AccessRecord>>, k: nat,
                              ls: seq<ImageLayout>, bs: seq<Barrier>, recs: seq<AccessRecord>)
    requires k < |lists| && AllInRange(lists, |init|) && recs == lists[k]
    requires ls == Layouts(init) && bs == Emitted(init, lists, k + 1)
    ensures OnResources(bs, |ls|) && ReplaysCleanly(ls, bs) && InRange(recs, |ls|)
    ensures StartsAsDeclared(Replayed(ls, bs), recs) <==> OneLayoutPerResource(recs)
  {
    EmittedReplays(init, lists, k + 1);
    PassStartsAsDeclaredIff(init, lists, k);
  }

  /** Wherever a body stands in the stream, the device has executed exactly the preludes up to and
      including its pass's own: it finds its textures in the layouts it declared if and only if it
      declares one layout per texture. */
  lemma BodyStartsAsDeclared(rg: RenderGraph, canMergeWith: (nat, nat) -> bool, ls: seq<ImageLayout>, at: nat) returns (k: nat)
    requires rg.Lowered(canMergeWith) && HeldInitially(ls, rg.textures)
    requires at < |rg.SerialStream()| && rg.SerialStream()[at].Body?
    ensures k < |rg.executionOrder| && rg.SerialStream()[at] == Body(rg.executionOrder[k])
    ensures var bs, recs := BarriersOf(rg.SerialStream()[..at], OfTextures), rg.passes[rg.executionOrder[k]].textureAccesses;
      && OnResources(bs, |ls|) && ReplaysCleanly(ls, bs) && InRange(recs, |ls|)
      && (StartsAsDeclared(Replayed(ls, bs), recs) <==> OneLayoutPerResource(recs))
  {
    var init, lists := InitialTextureStates(rg.textures), TextureLists(rg.passes, rg.executionOrder);
    k := BodyPosition(rg, at);
    PlannedFromHeld(ls, rg.textures);
    PreludesAreEmitted(rg.passes, rg.executionOrder, init, lists, OfTextures, k + 1);
    DeclaredAfterPreludes(init, lists, k, ls, BarriersOf(rg.SerialStream()[..at], OfTextures),
                          rg.passes[rg.executionOrder[k]].textureAccesses);
  }

  /** And the buffer barriers it has executed are those of the same preludes. */
  lemma BodyFollowsBufferBarriers(rg: RenderGraph, canMergeWith: (nat, nat) -> bool, at: nat) returns (k: nat)
    requires rg.Lowered(canMergeWith) && at < |rg.SerialStream()| && rg.SerialStream()[at].Body?
    ensures k < |rg.executionOrder| && rg.SerialStream()[at] == Body(rg.executionOrder[k])
    ensures BarriersOf(rg.SerialStream()[..at], OfBuffers)
         == Emitted(InitialBufferStates(|rg.buffers|), BufferLists(rg.passes, rg.executionOrder), k + 1)
  {
    k := BodyPosition(rg, at);
    PreludesAreEmitted(rg.passes, rg.executionOrder, InitialBufferStates(|rg.buffers|),
                       BufferLists(rg.passes, rg.executionOrder), OfBuffers, k + 1);
  }

  // ---------------------------------------------------------------- scopes

  /** What is open between two commands: a pass's marker, and its rendering scope. */
  datatype Scope = Scope(marker: Option<nat>, rendering: Option<nat>)

  /** A body runs inside its own marker, and inside its own rendering scope exactly if its pass is a
      raster pass; barriers stand outside every rendering scope; nothing nests. */
  ghost predicate Allowed(ps: seq<PassNode>, scope: Scope, c: Command) {
    match c
    case PushMarker(_) => scope == Scope(None, None)
    case BarrierGroup(_, _) => scope.rendering == None
    case BeginRendering(p) => scope == Scope(Some(p), None)
    case Body(p) => p < |ps| && scope == Scope(Some(p), if ps[p].isRaster then Some(p) else None)
    case EndRendering => scope.rendering.Some?
    case PopMarker => scope.marker.Some? && scope.rendering == None
  }

  function Opened(scope: Scope, c: Command): Scope {
    match c
    case PushMarker(p) => scope.(marker := Some(p))
    case BeginRendering(p) => scope.(rendering := Some(p))
    case EndRendering => scope.(rendering := None)
    case PopMarker => scope.(marker := None)
    case _ => scope
  }

  function ScopeAfter(scope: Scope, cmds: seq<Command>): Scope {
    if cmds == [] then scope else Opened(ScopeAfter(scope, cmds[..|cmds| - 1]), cmds[|cmds| - 1])
  }

  ghost predicate WellScoped(ps: seq<PassNode>, scope: Scope, cmds: seq<Command>) {
    forall at :: 0 <= at < |cmds| ==> Allowed(ps, ScopeAfter(scope, cmds[..at]), cmds[at])
  }

  /** From scope to scope', every command allowed where it stands. */
  ghost predicate Leads(ps: seq<PassNode>, scope: Scope, cmds: seq<Command>, scope': Scope) {
    WellScoped(ps, scope, cmds) && ScopeAfter(scope, cmds) == scope'
  }

  lemma LeadsOn(ps: seq<PassNode>, s0: Scope, cmds: seq<Command>, s1: Scope, on: bool, c: Command)
    requires Leads(ps, s0, cmds, s1) && (on ==> Allowed(ps, s1, c))
    ensures Leads(ps, s0, cmds + (if on then [c] else []), if on then Opened(s1, c) else s1)
  {
    if on {
      var more := cmds + [c];
      assert more[..|cmds|] == cmds;
      forall at | 0 <= at < |more|
        ensures Allowed(ps, ScopeAfter(s0, more[..at]), more[at])
      {
        if at < |cmds| {
          assert more[..at] == cmds[..at];
        }
      }
    } else {
      assert cmds + [] == cmds;
    }
  }

  function Within(node: PassNode, pass: nat): Scope {
    Scope(Some(pass), if node.isRaster then Some(pass) else None)
  }

  lemma OpeningIsScoped(ps: seq<PassNode>, pass: nat)
    requires pass < |ps|
    ensures Leads(ps, Scope(None, None), Opening(ps[pass], pass), Within(ps[pass], pass))
  {
    var node, none := ps[pass], Scope(None, None);
    var marked := [PushMarker(pass)];
    var planned := marked + if HasPrelude(node) then [BarrierGroup(node.textureBarriers, node.bufferBarriers)] else [];
    assert [] + marked == marked;
    LeadsOn(ps, none, [], none, true, PushMarker(pass));
    LeadsOn(ps, none, marked, Scope(Some(pass), None), HasPrelude(node), BarrierGroup(node.textureBarriers, node.bufferBarriers));
    LeadsOn(ps, none, planned, Scope(Some(pass), None), node.isRaster, BeginRendering(pass));
  }

  lemma ClosingIsScoped(ps: seq<PassNode>, pass: nat, begun: seq<Command>)
    requires pass < |ps| && Leads(ps, Scope(None, None), begun, Within(ps[pass], pass))
    ensures Leads(ps, Scope(None, None),
                  begun + [Body(pass)] + (if ps[pass].isRaster then [EndRendering] else []) + [PopMarker], Scope(None, None))
  {
    var node, none := ps[pass], Scope(None, None);
    var run := begun + [Body(pass)];
    var ended := run + if node.isRaster then [EndRendering] else [];
    LeadsOn(ps, none, begun, Within(node, pass), true, Body(pass));
    LeadsOn(ps, none, run, Within(node, pass), node.isRaster, EndRendering);
    LeadsOn(ps, none, ended, Scope(Some(pass), None), true, PopMarker);
  }

  lemma PassIsScoped(ps: seq<PassNode>, pass: nat)
    requires pass < |ps|
    ensures Leads(ps, Scope(None, None), PassCommands(ps[pass], pass), Scope(None, None))
  {
    OpeningIsScoped(ps, pass);
    ClosingIsScoped(ps, pass, Opening(ps[pass], pass));
  }

  lemma {:induction false} ScopesOfBoth(s0: Scope, a: seq<Command>, b: seq<Command>)
    ensures ScopeAfter(s0, a + b) == ScopeAfter(ScopeAfter(s0, a), b)
  {
    if b == [] {
      assert a + b == a;
    } else {
      assert (a + b)[..|a + b| - 1] == a + b[..|b| - 1];
      ScopesOfBoth(s0, a, b[..|b| - 1]);
    }
  }

  lemma LeadsBoth(ps: seq<PassNode>, s0: Scope, a: seq<Command>, s1: Scope, b: seq<Command>, s2: Scope, both: seq<Command>)
    requires Leads(ps, s0, a, s1) && Leads(ps, s1, b, s2) && both == a + b
    ensures Leads(ps, s0, both, s2)
  {
    ScopesOfBoth(s0, a, b);
    forall at | 0 <= at < |both|
      ensures Allowed(ps, ScopeAfter(s0, both[..at]), both[at])
    {
      if at < |a| {
        assert both[..at] == a[..at];
      } else {
        assert both[..at] == a + b[..at - |a|];
        ScopesOfBoth(s0, a, b[..at - |a|]);
      }
    }
  }

  lemma StreamIsScoped(ps: seq<PassNode>, order: seq<nat>)
    requires OrderOk(ps, order)
    ensures Leads(ps, Scope(None, None), Stream(ps, order, 0, |order|), Scope(None, None))
  {
    for k := 0 to |order|
      invariant Leads(ps, Scope(None, None), Stream(ps, order, 0, k), Scope(None, None))
    {
      PassIsScoped(ps, order[k]);
      LeadsBoth(ps, Scope(None, None), Stream(ps, order, 0, k), Scope(None, None),
                PassCommands(ps[order[k]], order[k]), Scope(None, None), Stream(ps, order, 0, k + 1));
    }
  }

  /** Throughout the recorded stream every command stands in the scope it needs, and nothing is left
      open at the end. */
  lemma SerialStreamIsScoped(rg: RenderGraph)
    requires rg.Compiled()
    ensures WellScoped(rg.passes, Scope(None, None), rg.SerialStream())
    ensures ScopeAfter(Scope(None, None), rg.SerialStream()) == Scope(None, None)
  {
    var closing := rg.ClosingBarriers();
    StreamIsScoped(rg.passes, rg.executionOrder);
    LeadsOn(rg.passes, Scope(None, None), Stream(rg.passes, rg.executionOrder, 0, |rg.executionOrder|), Scope(None, None),
            closing != [], BarrierGroup(closing, []));
  }

  // ---------------------------------------------------------------- the first use of a resource

  lemma {:induction false} UntouchedKeeps(init: seq<SyncState>, lists: seq<seq<AccessRecord>>, k: nat, i: nat)
    requires AllInRange(lists, |init|) && k <= |lists| && i < |init| && Untouched(lists, 0, k, i)
    ensures StateAt(init, lists, k)[i] == init[i]
  {
    if k > 0 {
      UntouchedKeeps(init, lists, k - 1, i);
      StateKept(init, lists, k - 1, i);
    }
  }

  /** The first pass to use a texture gets a barrier on it unless all it does is read the texture, in
      the layout it is held in. */
  lemma FirstTextureUse(textures: seq<TextureNode>, lists: seq<seq<AccessRecord>>, k: nat, i: nat)
    requires AllInRange(lists, |textures|) && k < |lists| && i < |textures| && Untouched(lists, 0, k, i)
    ensures var held := if textures[i].isImported then textures[i].initialLayout else Undefined;
      HasBarrierOn(BarriersAt(InitialTextureStates(textures), lists, k), i) <==>
        !Quiet(SyncState(held, TOP_OF_PIPE, ACCESS_NONE), lists[k], i)
  {
    var init := InitialTextureStates(textures);
    UntouchedKeeps(init, lists, k, i);
    BarrierUnlessQuiet(StateAt(init, lists, k), lists[k], i);
  }

  /** And the barrier its first record asks for takes the texture from the layout it is held in,
      waiting for nothing. */
  lemma FirstTextureBarrier(textures: seq<TextureNode>, lists: seq<seq<AccessRecord>>, k: nat, j: nat)
    requires AllInRange(lists, |textures|) && k < |lists| && IsFirstOf(lists[k], j) && Untouched(lists, 0, k, lists[k][j].index)
    ensures var r := lists[k][j];
      var held := if textures[r.index].isImported then textures[r.index].initialLayout else Undefined;
      r.isWrite || r.access.layout != held ==>
        Barrier(r.index, held, r.access.layout, TOP_OF_PIPE, ACCESS_NONE, r.access.stages, r.access.mask)
          in BarriersAt(InitialTextureStates(textures), lists, k)
  {
    var init, r := InitialTextureStates(textures), lists[k][j];
    UntouchedKeeps(init, lists, k, r.index);
    if NeedsBarrier(init[r.index], r) {
      BarrierAtFirst(StateAt(init, lists, k), lists[k], j);
    }
  }

  /** The same for a buffer. */
  lemma FirstBufferBarrier(n: nat, lists: seq<seq<AccessRecord>>, k: nat, j: nat)
    requires AllInRange(lists, n) && k < |lists| && IsFirstOf(lists[k], j) && Untouched(lists, 0, k, lists[k][j].index)
    requires lists[k][j].isWrite && lists[k][j].access.layout == Undefined
    ensures var r := lists[k][j];
      Barrier(r.index, Undefined, Undefined, TOP_OF_PIPE, ACCESS_NONE, r.access.stages, r.access.mask)
        in BarriersAt(InitialBufferStates(n), lists, k)
  {
    var init, r := InitialBufferStates(n), lists[k][j];
    UntouchedKeeps(init, lists, k, r.index);
    BarrierAtFirst(StateAt(init, lists, k), lists[k], j);
  }

  /** A pass that only reads an imported texture, in the layout it was imported in, leaves it alone. */
  lemma ImportedReadIsFree(textures: seq<TextureNode>, lists: seq<seq<AccessRecord>>, k: nat, i: nat)
    requires AllInRange(lists, |textures|) && k < |lists| && i < |textures| && Untouched(lists, 0, k, i)
    requires textures[i].isImported
    requires forall m :: 0 <= m < |lists[k]| && lists[k][m].index == i ==>
      !lists[k][m].isWrite && lists[k][m].access.layout == textures[i].initialLayout && !IsWriteAccess(lists[k][m].access.mask)
    ensures !HasBarrierOn(BarriersAt(InitialTextureStates(textures), lists, k), i)
  {
    FirstTextureUse(textures, lists, k, i);
  }

  /** The first pass to use a buffer gets a barrier on it if it writes it, or reads it again after an
      access with a write bit, and not otherwise. */
  lemma FirstBufferUse(n: nat, lists: seq<seq<AccessRecord>>, k: nat, i: nat)
    requires AllInRange(lists, n) && k < |lists| && i < n && Untouched(lists, 0, k, i)
    requires forall c :: 0 <= c < |lists| ==> BuffersHaveNoLayout(lists[c])
    ensures HasBarrierOn(BarriersAt(InitialBufferStates(n), lists, k), i) <==>
      || (exists m :: 0 <= m < |lists[k]| && lists[k][m].index == i && lists[k][m].isWrite)
      || (exists m, x :: 0 <= m < x < |lists[k]| && lists[k][m].index == lists[k][x].index == i && IsWriteAccess(lists[k][m].access.mask))
  {
    var init := InitialBufferStates(n);
    UntouchedKeeps(init, lists, k, i);
    BarrierUnlessQuiet(StateAt(init, lists, k), lists[k], i);
    assert Quiet(init[i], lists[k], i) ==> forall m :: 0 <= m < |lists[k]| && lists[k][m].index == i ==> Harmless(init[i], lists[k][m]);
  }

  // ---------------------------------------------------------------- writes without a barrier

  function WriteOf(a: Access): AccessRecord {
    AccessRecord(0, 0, 1, true, a)
  }

  function ReadOf(a: Access): AccessRecord {
    AccessRecord(0, 1, 0, false, a)
  }

  /** Pass 0 makes `records` of an imported texture, one of which writes it; the side-effect pass
      1 reads what was written. */
  function WriterThenReader(records: seq<AccessRecord>, read: Access): Graph {
    Graph([PassNode(false, false, true, false, records, [], [], []),
           PassNode(false, true, true, false, [ReadOf(read)], [], [], [])],
          [TextureNode(true, General, None, 1, true)], [], [[INVALID_PASS, 0]], [])
  }

  ghost predicate WritesOnce(records: seq<AccessRecord>) {
    (exists w :: WriteOf(w) in records) && forall r :: r in records ==> r == WriteOf(r.access) || r == ReadOf(r.access)
  }

  lemma WriterThenReaderUses(records: seq<AccessRecord>, read: Access)
    requires WritesOnce(records)
    ensures var g := WriterThenReader(records, read);
      && Use(Texture(0), 0, 1, true) in Uses(g.passes[0])
      && (forall u :: u in Uses(g.passes[0]) ==> u == Use(Texture(0), 0, 1, true) || u == Use(Texture(0), 1, 0, false))
      && Uses(g.passes[1]) == {Use(Texture(0), 1, 0, false)}
      && Producers(g, Texture(0)) == [INVALID_PASS, 0]
  {
    var g := WriterThenReader(records, read);
    var w :| WriteOf(w) in records;
    assert TextureUse(WriteOf(w)) == Use(Texture(0), 0, 1, true);
    assert g.passes[1].textureAccesses[0] == ReadOf(read) && TextureUse(ReadOf(read)) == Use(Texture(0), 1, 0, false);
  }

  /** It can be recorded. */
  lemma WriterThenReaderIsWellRecorded(records: seq<AccessRecord>, read: Access)
    requires WritesOnce(records)
    ensures WellRecorded(WriterThenReader(records, read))
  {
    var g := WriterThenReader(records, read);
    WriterThenReaderUses(records, read);
    forall r | IsResource(g, r)
      ensures ProducersOk(g, r)
    {
      assert r == Texture(0);
    }
    forall p, u | 0 <= p < |g.passes| && u in Uses(g.passes[p])
      ensures UseOk(g, p, u)
    {
      assert p == 0 || p == 1;
    }
  }

  /** Both passes are executed. */
  lemma WriterThenReaderLiveSet(records: seq<AccessRecord>, read: Access)
    requires WritesOnce(records)
    ensures IsLiveSet(WriterThenReader(records, read), {0, 1})
    ensures Kept({0, 1}, 2) == [0, 1]
  {
    var g := WriterThenReader(records, read);
    WriterThenReaderUses(records, read);
    assert Kept({0, 1}, 1) == [0];
    assert IsRoot(g, 1);
    forall t: set<nat> | HasRoots(g, t) && Closed(g, t)
      ensures {0, 1} <= t
    {
      assert FedWithin(g, 1, t);
      assert Use(Texture(0), 1, 0, false) in Uses(g.passes[1]);
    }
  }

  ghost predicate ReaderHasBarrier(g: Graph)
    requires OrderOk(g.passes, [0, 1]) && AllInRange(TextureLists(g.passes, [0, 1]), |g.textures|)
  {
    Separated(InitialTextureStates(g.textures), TextureLists(g.passes, [0, 1]), 0, 1, 0)
  }

  lemma WriterThenReaderBarrier(records: seq<AccessRecord>, read: Access, j: nat)
    requires WritesOnce(records) && IsLastOf(records, j)
    ensures var g := WriterThenReader(records, read);
      && OrderOk(g.passes, [0, 1]) && AllInRange(TextureLists(g.passes, [0, 1]), |g.textures|)
      && (ReaderHasBarrier(g) <==> read.layout != records[j].access.layout || IsWriteAccess(records[j].access.mask))
  {
    var g := WriterThenReader(records, read);
    var lists := TextureLists(g.passes, [0, 1]);
    assert InRange(records, 1) by {
      forall x | 0 <= x < |records|
        ensures records[x].index == 0
      {
        assert records[x] in records;
      }
    }
    assert records[j] in records;
    SeparatedIff(InitialTextureStates(g.textures), lists, 0, j, 1);
    assert Window(lists, 0, 1) == [ReadOf(read)];
    assert [ReadOf(read)][0].index == 0;
    assert Mentions([ReadOf(read)], 0);
  }

  /** A pass that reads what it has written hides the write: whatever the write's access, the
      reader in the next pass gets no barrier if the two reads share a layout. */
  lemma HiddenWriteHasNoBarrier(write: Access, read: Access)
    requires !IsWriteAccess(read.mask)
    ensures var g := WriterThenReader([WriteOf(write), ReadOf(read)], read);
      && WellRecorded(g) && IsLiveSet(g, {0, 1}) && Kept({0, 1}, |g.passes|) == [0, 1]
      && OrderOk(g.passes, [0, 1]) && AllInRange(TextureLists(g.passes, [0, 1]), |g.textures|)
      && !ReaderHasBarrier(g)
  {
    var records := [WriteOf(write), ReadOf(read)];
    assert WriteOf(write) in records;
    WriterThenReaderIsWellRecorded(records, read);
    WriterThenReaderLiveSet(records, read);
    WriterThenReaderBarrier(records, read, 1);
  }

  /** A write that does not carry a write bit is invisible to the planner too. */
  lemma UnflaggedWriteHasNoBarrier(write: Access, read: Access)
    requires !IsWriteAccess(write.mask) && write.layout == read.layout
    ensures var g := WriterThenReader([WriteOf(write)], read);
      && WellRecorded(g) && IsLiveSet(g, {0, 1}) && Kept({0, 1}, |g.passes|) == [0, 1]
      && OrderOk(g.passes, [0, 1]) && AllInRange(TextureLists(g.passes, [0, 1]), |g.textures|)
      && !ReaderHasBarrier(g)
  {
    var records := [WriteOf(write)];
    assert WriteOf(write) in records;
    WriterThenReaderIsWellRecorded(records, read);
    WriterThenReaderLiveSet(records, read);
    WriterThenReaderBarrier(records, read, 0);
  }
}
