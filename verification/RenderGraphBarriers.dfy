/** Barrier planning over the record lists of the executed passes, for one family of resources
    (textures, or buffers with their constant layout). `lists[k]` holds the records of the k-th
    executed pass; `init` is the synchronisation state before the first one. */
module RenderGraphBarriers {
  import opened Options
  import opened RenderGraphData

  datatype SyncState = SyncState(layout: ImageLayout, stages: bv64, access: bv64)

  predicate InRange(recs: seq<AccessRecord>, n: nat) {
    forall j :: 0 <= j < |recs| ==> recs[j].index < n
  }

  predicate NeedsBarrier(s: SyncState, r: AccessRecord) {
    s.layout != r.access.layout || IsWriteAccess(s.access) || r.isWrite
  }

  function AfterAccess(r: AccessRecord): SyncState {
    SyncState(r.access.layout, r.access.stages, r.access.mask)
  }

  function BarrierBetween(s: SyncState, r: AccessRecord): Barrier {
    Barrier(r.index, s.layout, r.access.layout, s.stages, s.access, r.access.stages, r.access.mask)
  }

  datatype Plan = Plan(states: seq<SyncState>, barriers: seq<Barrier>)

  /** The states after a pass and the barriers of its prelude. */
  function PlanPass(st: seq<SyncState>, recs: seq<AccessRecord>): (p: Plan)
    requires InRange(recs, |st|)
    ensures |p.states| == |st|
  {
    if recs == [] then Plan(st, [])
    else
      var r := recs[|recs| - 1];
      var p := PlanPass(st, recs[..|recs| - 1]);
      var s := p.states[r.index];
      Plan(p.states[r.index := AfterAccess(r)],
           p.barriers + (if NeedsBarrier(s, r) then [BarrierBetween(s, r)] else []))
  }

  /** Planning one record more. */
  lemma PlanNext(st: seq<SyncState>, recs: seq<AccessRecord>, j: nat)
    requires j < |recs| && InRange(recs, |st|)
    ensures InRange(recs[..j], |st|) && InRange(recs[..j + 1], |st|)
    ensures var p, r := PlanPass(st, recs[..j]), recs[j];
      PlanPass(st, recs[..j + 1]) == Plan(p.states[r.index := AfterAccess(r)],
        if NeedsBarrier(p.states[r.index], r) then p.barriers + [BarrierBetween(p.states[r.index], r)] else p.barriers)
  {
    assert recs[..j + 1][..j] == recs[..j];
    assert PlanPass(st, recs[..j]).barriers + [] == PlanPass(st, recs[..j]).barriers;
  }

  predicate AllInRange(lists: seq<seq<AccessRecord>>, n: nat) {
    forall k :: 0 <= k < |lists| ==> InRange(lists[k], n)
  }

  function StateAt(init: seq<SyncState>, lists: seq<seq<AccessRecord>>, k: nat): (st: seq<SyncState>)
    requires k <= |lists| && AllInRange(lists, |init|)
    ensures |st| == |init|
  {
    if k == 0 then init else PlanPass(StateAt(init, lists, k - 1), lists[k - 1]).states
  }

  function BarriersAt(init: seq<SyncState>, lists: seq<seq<AccessRecord>>, k: nat): seq<Barrier>
    requires k < |lists| && AllInRange(lists, |init|)
  {
    PlanPass(StateAt(init, lists, k), lists[k]).barriers
  }

  // ---------------------------------------------------------------- replaying the barriers

  function Layouts(st: seq<SyncState>): (ls: seq<ImageLayout>) {
    seq(|st|, i requires 0 <= i < |st| => st[i].layout)
  }

  predicate OnResources(bs: seq<Barrier>, n: nat) {
    forall j :: 0 <= j < |bs| ==> bs[j].resource < n
  }

  /** The layouts a device is left with after executing barriers in order. */
  function Replayed(ls: seq<ImageLayout>, bs: seq<Barrier>): (r: seq<ImageLayout>)
    requires OnResources(bs, |ls|)
    ensures |r| == |ls|
  {
    if bs == [] then ls
    else Replayed(ls, bs[..|bs| - 1])[bs[|bs| - 1].resource := bs[|bs| - 1].newLayout]
  }

  /** Every barrier finds its resource in the layout it names as old. */
  predicate ReplaysCleanly(ls: seq<ImageLayout>, bs: seq<Barrier>)
    requires OnResources(bs, |ls|)
  {
    bs == [] ||
    (ReplaysCleanly(ls, bs[..|bs| - 1])
     && Replayed(ls, bs[..|bs| - 1])[bs[|bs| - 1].resource] == bs[|bs| - 1].oldLayout)
  }

  lemma ReplayOne(ls: seq<ImageLayout>, bs: seq<Barrier>, b: Barrier)
    requires OnResources(bs, |ls|) && b.resource < |ls|
    ensures OnResources(bs + [b], |ls|)
    ensures Replayed(ls, bs + [b]) == Replayed(ls, bs)[b.resource := b.newLayout]
    ensures ReplaysCleanly(ls, bs + [b]) <==> ReplaysCleanly(ls, bs) && Replayed(ls, bs)[b.resource] == b.oldLayout
  {
    assert (bs + [b])[..|bs|] == bs;
  }

  lemma LayoutsAfter(st: seq<SyncState>, i: nat, s: SyncState)
    requires i < |st|
    ensures Layouts(st[i := s]) == Layouts(st)[i := s.layout]
  {
  }

  lemma {:induction false} PlanReplays(st: seq<SyncState>, recs: seq<AccessRecord>)
    requires InRange(recs, |st|)
    ensures var p := PlanPass(st, recs);
      && OnResources(p.barriers, |st|) && ReplaysCleanly(Layouts(st), p.barriers)
      && Replayed(Layouts(st), p.barriers) == Layouts(p.states)
  {
    if recs != [] {
      var r := recs[|recs| - 1];
      var p := PlanPass(st, recs[..|recs| - 1]);
      PlanReplays(st, recs[..|recs| - 1]);
      LayoutsAfter(p.states, r.index, AfterAccess(r));
      if NeedsBarrier(p.states[r.index], r) {
        ReplayOne(Layouts(st), p.barriers, BarrierBetween(p.states[r.index], r));
      } else {
        assert PlanPass(st, recs).barriers == p.barriers;
        assert Layouts(PlanPass(st, recs).states) == Layouts(p.states);
      }
    }
  }

  /** The barriers of the first k preludes, in execution order. */
  function Emitted(init: seq<SyncState>, lists: seq<seq<AccessRecord>>, k: nat): seq<Barrier>
    requires k <= |lists| && AllInRange(lists, |init|)
  {
    if k == 0 then [] else Emitted(init, lists, k - 1) + BarriersAt(init, lists, k - 1)
  }

  lemma {:induction false} ReplayConcat(ls: seq<ImageLayout>, bs: seq<Barrier>, cs: seq<Barrier>)
    requires OnResources(bs, |ls|) && OnResources(cs, |ls|)
    ensures Replayed(ls, bs + cs) == Replayed(Replayed(ls, bs), cs)
    ensures ReplaysCleanly(ls, bs + cs) <==> ReplaysCleanly(ls, bs) && ReplaysCleanly(Replayed(ls, bs), cs)
  {
    if cs == [] {
      assert bs + cs == bs;
    } else {
      assert (bs + cs)[..|bs + cs| - 1] == bs + cs[..|cs| - 1];
      ReplayConcat(ls, bs, cs[..|cs| - 1]);
    }
  }

  /** Replaying everything the passes emit: no barrier ever names a wrong old layout, and the
      device tracks the planner's layouts. */
  lemma {:induction false} EmittedReplays(init: seq<SyncState>, lists: seq<seq<AccessRecord>>, k: nat)
    requires k <= |lists| && AllInRange(lists, |init|)
    ensures var bs := Emitted(init, lists, k);
      && OnResources(bs, |init|) && ReplaysCleanly(Layouts(init), bs)
      && Replayed(Layouts(init), bs) == Layouts(StateAt(init, lists, k))
  {
    if k > 0 {
      EmittedReplays(init, lists, k - 1);
      PlanReplays(StateAt(init, lists, k - 1), lists[k - 1]);
      ReplayConcat(Layouts(init), Emitted(init, lists, k - 1), BarriersAt(init, lists, k - 1));
    }
  }

  // ---------------------------------------------------------------- layouts at pass start

  predicate Mentions(recs: seq<AccessRecord>, i: nat) {
    exists j :: 0 <= j < |recs| && recs[j].index == i
  }

  /** Record j is the last one its pass makes of that resource. */
  predicate IsLastOf(recs: seq<AccessRecord>, j: nat) {
    j < |recs| && forall m :: j < m < |recs| ==> recs[m].index != recs[j].index
  }

  predicate IsFirstOf(recs: seq<AccessRecord>, j: nat) {
    j < |recs| && forall m :: 0 <= m < j ==> recs[m].index != recs[j].index
  }

  /** A pass leaves each resource as its last record of it says, and the others alone. */
  lemma {:induction false} PlanStates(st: seq<SyncState>, recs: seq<AccessRecord>)
    requires InRange(recs, |st|)
    ensures forall j :: 0 <= j < |recs| && IsLastOf(recs, j) ==>
      PlanPass(st, recs).states[recs[j].index] == AfterAccess(recs[j])
    ensures forall i :: 0 <= i < |st| && !Mentions(recs, i) ==> PlanPass(st, recs).states[i] == st[i]
  {
    if recs != [] {
      var init := recs[..|recs| - 1];
      PlanStates(st, init);
      forall j | 0 <= j < |recs| && IsLastOf(recs, j)
        ensures PlanPass(st, recs).states[recs[j].index] == AfterAccess(recs[j])
      {
        if j < |recs| - 1 {
          assert IsLastOf(init, j);
        }
      }
      forall i | 0 <= i < |st| && !Mentions(recs, i)
        ensures PlanPass(st, recs).states[i] == st[i]
      {
        assert recs[|recs| - 1].index != i;
        assert !Mentions(init, i) by {
          assert forall j :: 0 <= j < |init| ==> init[j] == recs[j];
        }
      }
    }
  }

  /** All of a pass's barriers sit in its prelude, so it starts with every texture in the
      declared layout. */
  predicate StartsAsDeclared(ls: seq<ImageLayout>, recs: seq<AccessRecord>)
    requires InRange(recs, |ls|)
  {
    forall j :: 0 <= j < |recs| ==> ls[recs[j].index] == recs[j].access.layout
  }

  predicate OneLayoutPerResource(recs: seq<AccessRecord>) {
    forall j, m :: 0 <= j < |recs| && 0 <= m < |recs| && recs[j].index == recs[m].index
      ==> recs[j].access.layout == recs[m].access.layout
  }

  lemma {:induction false} LastRecordOf(recs: seq<AccessRecord>, j: nat) returns (m: nat)
    requires j < |recs|
    ensures j <= m < |recs| && recs[m].index == recs[j].index && IsLastOf(recs, m)
    decreases |recs| - j
  {
    if n: nat :| j < n < |recs| && recs[n].index == recs[j].index {
      m := LastRecordOf(recs, n);
    } else {
      m := j;
    }
  }

  /** Exactly when the k-th pass starts with its resources in the layouts it declared. */
  lemma PassStartsAsDeclaredIff(init: seq<SyncState>, lists: seq<seq<AccessRecord>>, k: nat)
    requires k < |lists| && AllInRange(lists, |init|)
    ensures var bs := Emitted(init, lists, k + 1);
      && OnResources(bs, |init|)
      && (StartsAsDeclared(Replayed(Layouts(init), bs), lists[k]) <==> OneLayoutPerResource(lists[k]))
  {
    EmittedReplays(init, lists, k + 1);
    var st, recs := StateAt(init, lists, k), lists[k];
    PlanStates(st, recs);
    var ls := Layouts(StateAt(init, lists, k + 1));
    forall j | 0 <= j < |recs|
      ensures exists m :: j <= m < |recs| && recs[m].index == recs[j].index && ls[recs[j].index] == recs[m].access.layout
    {
      var m := LastRecordOf(recs, j);
      assert ls[recs[j].index] == recs[m].access.layout;
    }
  }

  // ---------------------------------------------------------------- separation

  predicate HasBarrierOn(bs: seq<Barrier>, i: nat) {
    exists j :: 0 <= j < |bs| && bs[j].resource == i
  }

  lemma BarriersGrow(st: seq<SyncState>, recs: seq<AccessRecord>, b: Barrier)
    requires InRange(recs, |st|) && recs != [] && b in PlanPass(st, recs[..|recs| - 1]).barriers
    ensures b in PlanPass(st, recs).barriers
  {
  }

  lemma BarrierAtLast(st: seq<SyncState>, recs: seq<AccessRecord>, r: AccessRecord)
    requires InRange(recs, |st|) && r.index < |st| && !Mentions(recs, r.index) && NeedsBarrier(st[r.index], r)
    ensures InRange(recs + [r], |st|) && BarrierBetween(st[r.index], r) in PlanPass(st, recs + [r]).barriers
  {
    PlanStates(st, recs);
    assert (recs + [r])[..|recs|] == recs;
  }

  /** The first record a pass makes of a resource meets the state the earlier passes left. */
  lemma {:induction false} BarrierAtFirst(st: seq<SyncState>, recs: seq<AccessRecord>, j: nat)
    requires InRange(recs, |st|) && IsFirstOf(recs, j)
    requires NeedsBarrier(st[recs[j].index], recs[j])
    ensures BarrierBetween(st[recs[j].index], recs[j]) in PlanPass(st, recs).barriers
  {
    var init := recs[..|recs| - 1];
    if j < |recs| - 1 {
      assert IsFirstOf(init, j);
      BarrierAtFirst(st, init, j);
      BarriersGrow(st, recs, BarrierBetween(st[recs[j].index], recs[j]));
    } else {
      assert recs == init + [recs[j]];
      BarrierAtLast(st, init, recs[j]);
    }
  }

  predicate Untouched(lists: seq<seq<AccessRecord>>, lo: nat, hi: nat, i: nat) {
    forall k :: lo <= k < hi && k < |lists| ==> !Mentions(lists[k], i)
  }

  lemma StateKept(init: seq<SyncState>, lists: seq<seq<AccessRecord>>, b: nat, i: nat)
    requires AllInRange(lists, |init|) && b < |lists| && i < |init| && !Mentions(lists[b], i)
    ensures StateAt(init, lists, b + 1)[i] == StateAt(init, lists, b)[i]
  {
    PlanStates(StateAt(init, lists, b), lists[b]);
  }

  lemma StateSet(init: seq<SyncState>, lists: seq<seq<AccessRecord>>, a: nat, j: nat)
    requires AllInRange(lists, |init|) && a < |lists| && IsLastOf(lists[a], j)
    ensures StateAt(init, lists, a + 1)[lists[a][j].index] == AfterAccess(lists[a][j])
  {
    PlanStates(StateAt(init, lists, a), lists[a]);
  }

  lemma {:induction false} StateCarries(init: seq<SyncState>, lists: seq<seq<AccessRecord>>, a: nat, j: nat, b: nat)
    requires AllInRange(lists, |init|) && a < b <= |lists| && IsLastOf(lists[a], j)
    requires Untouched(lists, a + 1, b, lists[a][j].index)
    ensures StateAt(init, lists, b)[lists[a][j].index] == AfterAccess(lists[a][j])
    decreases b
  {
    if a + 1 < b {
      StateCarries(init, lists, a, j, b - 1);
      StateKept(init, lists, b - 1, lists[a][j].index);
    } else {
      StateSet(init, lists, a, j);
    }
  }

  /** Adjacent accesses: the barrier between them carries exactly their layouts, stages and
      access masks. */
  lemma AdjacentBarrierIsExact(init: seq<SyncState>, lists: seq<seq<AccessRecord>>, a: nat, j: nat, b: nat, m: nat)
    requires AllInRange(lists, |init|) && a < b < |lists|
    requires IsLastOf(lists[a], j) && IsFirstOf(lists[b], m) && lists[b][m].index == lists[a][j].index
    requires Untouched(lists, a + 1, b, lists[a][j].index)
    requires lists[a][j].isWrite ==> IsWriteAccess(lists[a][j].access.mask)
    requires lists[a][j].isWrite || lists[b][m].isWrite || lists[a][j].access.layout != lists[b][m].access.layout
    ensures var l, r := lists[a][j].access, lists[b][m].access;
      Barrier(lists[b][m].index, l.layout, r.layout, l.stages, l.mask, r.stages, r.mask) in BarriersAt(init, lists, b)
  {
    StateCarries(init, lists, a, j, b);
    BarrierAtFirst(StateAt(init, lists, b), lists[b], m);
  }

  // ---------------------------------------------------------------- exactly when

  /** The records of several passes, one after the other: passes a + 1 to b. */
  function Window(lists: seq<seq<AccessRecord>>, a: nat, b: nat): seq<AccessRecord>
    requires a <= b < |lists|
  {
    if a == b then [] else Window(lists, a, b - 1) + lists[b]
  }

  /** No record of i after state s asks for a barrier: none writes, none changes the layout, and
      neither s nor a record with another one of i after it carries a write bit. */
  ghost predicate Quiet(s: SyncState, recs: seq<AccessRecord>, i: nat) {
    && (forall m :: 0 <= m < |recs| && recs[m].index == i ==> Harmless(s, recs[m]))
    && (Mentions(recs, i) ==> !IsWriteAccess(s.access))
    && forall m, n :: 0 <= m < n < |recs| && recs[m].index == recs[n].index == i ==> !IsWriteAccess(recs[m].access.mask)
  }

  predicate Harmless(s: SyncState, r: AccessRecord) {
    !r.isWrite && r.access.layout == s.layout
  }

  lemma QuietPrefix(s: SyncState, recs: seq<AccessRecord>, r: AccessRecord, i: nat)
    requires Quiet(s, recs + [r], i)
    ensures Quiet(s, recs, i)
  {
    var grown := recs + [r];
    assert forall m :: 0 <= m < |recs| ==> grown[m] == recs[m];
    if Mentions(recs, i) {
      var m :| 0 <= m < |recs| && recs[m].index == i;
      assert grown[m].index == i;
    }
  }

  lemma QuietElsewhere(s: SyncState, recs: seq<AccessRecord>, r: AccessRecord, i: nat)
    requires Quiet(s, recs, i) && r.index != i
    ensures Quiet(s, recs + [r], i)
  {
    var grown := recs + [r];
    assert forall m :: 0 <= m < |grown| && grown[m].index == i ==> m < |recs| && grown[m] == recs[m];
    if Mentions(grown, i) {
      var m :| 0 <= m < |grown| && grown[m].index == i;
      assert recs[m].index == i;
    }
  }

  lemma QuietFirst(s: SyncState, recs: seq<AccessRecord>, r: AccessRecord, i: nat)
    requires !Mentions(recs, i) && r.index == i
    ensures Quiet(s, recs + [r], i) <==> !NeedsBarrier(s, r)
  {
    var grown := recs + [r];
    assert grown[|recs|] == r && Mentions(grown, i);
    assert forall m :: 0 <= m < |recs| ==> grown[m] == recs[m] && recs[m].index != i;
  }

  lemma QuietAgain(s: SyncState, recs: seq<AccessRecord>, m: nat, r: AccessRecord, i: nat)
    requires Quiet(s, recs, i) && m < |recs| && recs[m].index == i == r.index && IsLastOf(recs, m)
    ensures Quiet(s, recs + [r], i) <==> !NeedsBarrier(AfterAccess(recs[m]), r)
  {
    var grown := recs + [r];
    assert grown[|recs|] == r && grown[m] == recs[m] && Harmless(s, recs[m]);
    assert Mentions(recs, i) && Mentions(grown, i);
    assert forall x :: 0 <= x < |recs| ==> grown[x] == recs[x];
    if !NeedsBarrier(AfterAccess(recs[m]), r) {
      forall x, y | 0 <= x < y < |grown| && grown[x].index == grown[y].index == i
        ensures !IsWriteAccess(grown[x].access.mask)
      {
        assert x <= m;
      }
    }
  }

  lemma BarrierSnoc(bs: seq<Barrier>, more: seq<Barrier>, i: nat)
    ensures HasBarrierOn(bs + more, i) <==> HasBarrierOn(bs, i) || HasBarrierOn(more, i)
  {
    var all := bs + more;
    if HasBarrierOn(bs, i) {
      var j :| 0 <= j < |bs| && bs[j].resource == i;
      assert all[j].resource == i;
    }
    if HasBarrierOn(more, i) {
      var j :| 0 <= j < |more| && more[j].resource == i;
      assert all[|bs| + j].resource == i;
    }
    if HasBarrierOn(all, i) {
      var j :| 0 <= j < |all| && all[j].resource == i;
      assert if j < |bs| then bs[j].resource == i else more[j - |bs|].resource == i;
    }
  }

  /** Planning a list emits a barrier on i unless the list is quiet. */
  lemma {:induction false} BarrierUnlessQuiet(st: seq<SyncState>, recs: seq<AccessRecord>, i: nat)
    requires InRange(recs, |st|) && i < |st|
    ensures HasBarrierOn(PlanPass(st, recs).barriers, i) <==> !Quiet(st[i], recs, i)
  {
    if recs != [] {
      var before, r := recs[..|recs| - 1], recs[|recs| - 1];
      var p := PlanPass(st, before);
      var more := if NeedsBarrier(p.states[r.index], r) then [BarrierBetween(p.states[r.index], r)] else [];
      BarrierUnlessQuiet(st, before, i);
      BarrierSnoc(p.barriers, more, i);
      assert recs == before + [r];
      if !Quiet(st[i], before, i) {
        if Quiet(st[i], recs, i) {
          QuietPrefix(st[i], before, r, i);
        }
      } else if r.index != i {
        QuietElsewhere(st[i], before, r, i);
      } else {
        assert HasBarrierOn(more, i) <==> NeedsBarrier(p.states[i], r) by {
          assert more != [] ==> more[0].resource == i;
        }
        LastRecordQuiet(st, before, r, i);
      }
    }
  }

  lemma LastRecordQuiet(st: seq<SyncState>, before: seq<AccessRecord>, r: AccessRecord, i: nat)
    requires InRange(before, |st|) && r.index == i < |st| && Quiet(st[i], before, i)
    ensures Quiet(st[i], before + [r], i) <==> !NeedsBarrier(PlanPass(st, before).states[i], r)
  {
    PlanStates(st, before);
    if x: nat :| x < |before| && before[x].index == i {
      var m := LastRecordOf(before, x);
      QuietAgain(st[i], before, m, r, i);
    } else {
      QuietFirst(st[i], before, r, i);
    }
  }

  lemma {:induction false} PlanConcat(st: seq<SyncState>, xs: seq<AccessRecord>, ys: seq<AccessRecord>)
    requires InRange(xs, |st|) && InRange(ys, |st|)
    ensures InRange(xs + ys, |st|)
    ensures PlanPass(st, xs + ys).states == PlanPass(PlanPass(st, xs).states, ys).states
    ensures PlanPass(st, xs + ys).barriers == PlanPass(st, xs).barriers + PlanPass(PlanPass(st, xs).states, ys).barriers
  {
    if ys == [] {
      assert xs + ys == xs;
    } else {
      assert (xs + ys)[..|xs + ys| - 1] == xs + ys[..|ys| - 1];
      PlanConcat(st, xs, ys[..|ys| - 1]);
    }
  }

  ghost predicate Separated(init: seq<SyncState>, lists: seq<seq<AccessRecord>>, a: nat, b: nat, i: nat)
    requires AllInRange(lists, |init|) && b < |lists|
  {
    exists c: nat :: a < c <= b && HasBarrierOn(BarriersAt(init, lists, c), i)
  }

  lemma SeparatedSnoc(init: seq<SyncState>, lists: seq<seq<AccessRecord>>, a: nat, b: nat, i: nat)
    requires AllInRange(lists, |init|) && a < b < |lists|
    ensures Separated(init, lists, a, b, i) <==>
      Separated(init, lists, a, b - 1, i) || HasBarrierOn(BarriersAt(init, lists, b), i)
  {
  }

  lemma {:induction false} WindowInRange(lists: seq<seq<AccessRecord>>, a: nat, b: nat, n: nat)
    requires AllInRange(lists, n) && a <= b < |lists|
    ensures InRange(Window(lists, a, b), n)
    decreases b
  {
    if a < b {
      WindowInRange(lists, a, b - 1, n);
    }
  }

  lemma {:induction false} WindowStates(init: seq<SyncState>, lists: seq<seq<AccessRecord>>, a: nat, b: nat)
    requires AllInRange(lists, |init|) && a <= b < |lists| && InRange(Window(lists, a, b), |init|)
    ensures PlanPass(StateAt(init, lists, a + 1), Window(lists, a, b)).states == StateAt(init, lists, b + 1)
    decreases b
  {
    if a < b {
      WindowInRange(lists, a, b - 1, |init|);
      WindowStates(init, lists, a, b - 1);
      PlanConcat(StateAt(init, lists, a + 1), Window(lists, a, b - 1), lists[b]);
    }
  }

  lemma {:induction false} WindowPlan(init: seq<SyncState>, lists: seq<seq<AccessRecord>>, a: nat, b: nat, i: nat)
    requires AllInRange(lists, |init|) && a <= b < |lists| && InRange(Window(lists, a, b), |init|)
    ensures HasBarrierOn(PlanPass(StateAt(init, lists, a + 1), Window(lists, a, b)).barriers, i)
      <==> Separated(init, lists, a, b, i)
    decreases b
  {
    if a < b {
      var st, w := StateAt(init, lists, a + 1), Window(lists, a, b - 1);
      WindowInRange(lists, a, b - 1, |init|);
      WindowPlan(init, lists, a, b - 1, i);
      WindowStates(init, lists, a, b - 1);
      PlanConcat(st, w, lists[b]);
      BarrierSnoc(PlanPass(st, w).barriers, BarriersAt(init, lists, b), i);
      SeparatedSnoc(init, lists, a, b, i);
    }
  }

  /** Separation, exactly: between pass a, with its last record j of a resource, and the end of
      pass b there is a barrier on the resource if and only if the records of the passes in
      between and of b are not quiet. */
  lemma SeparatedIff(init: seq<SyncState>, lists: seq<seq<AccessRecord>>, a: nat, j: nat, b: nat)
    requires AllInRange(lists, |init|) && a < b < |lists| && IsLastOf(lists[a], j)
    ensures Separated(init, lists, a, b, lists[a][j].index) <==>
      !Quiet(AfterAccess(lists[a][j]), Window(lists, a, b), lists[a][j].index)
  {
    var i := lists[a][j].index;
    WindowInRange(lists, a, b, |init|);
    WindowPlan(init, lists, a, b, i);
    StateSet(init, lists, a, j);
    BarrierUnlessQuiet(StateAt(init, lists, a + 1), Window(lists, a, b), i);
  }

  lemma {:induction false} InWindow(lists: seq<seq<AccessRecord>>, a: nat, b: nat, c: nat, m: nat) returns (at: nat)
    requires a < c <= b < |lists| && m < |lists[c]|
    ensures at < |Window(lists, a, b)| && Window(lists, a, b)[at] == lists[c][m]
    decreases b
  {
    if c == b {
      at := |Window(lists, a, b - 1)| + m;
    } else {
      at := InWindow(lists, a, b - 1, c, m);
    }
  }

  /** So two accesses to a resource in different passes, a write among them, have a barrier on it
      in between if the later one is the write, or the earlier one is, carries a write bit and is
      the last record its pass makes of the resource. */
  lemma ConflictsAreSeparated(init: seq<SyncState>, lists: seq<seq<AccessRecord>>, a: nat, j: nat, b: nat, m: nat)
    requires AllInRange(lists, |init|) && a < b < |lists| && j < |lists[a]| && m < |lists[b]|
    requires lists[a][j].index == lists[b][m].index && (lists[a][j].isWrite || lists[b][m].isWrite)
    requires lists[a][j].isWrite ==> lists[b][m].isWrite || (IsLastOf(lists[a], j) && IsWriteAccess(lists[a][j].access.mask))
    ensures Separated(init, lists, a, b, lists[a][j].index)
  {
    var i := lists[a][j].index;
    var l := LastRecordOf(lists[a], j);
    var at := InWindow(lists, a, b, b, m);
    assert Mentions(Window(lists, a, b), i);
    SeparatedIff(init, lists, a, l, b);
  }

  // ---------------------------------------------------------------- final layouts

  /** The closing transitions for the first n textures, given the state after the last pass. */
  function FinalBarriers(textures: seq<TextureNode>, st: seq<SyncState>, n: nat): seq<Barrier>
    requires n <= |textures| == |st|
  {
    if n == 0 then [] else FinalBarriers(textures, st, n - 1) + ClosingOf(textures[n - 1], st[n - 1], n - 1)
  }

  function ClosingOf(t: TextureNode, s: SyncState, i: nat): seq<Barrier> {
    if Exported(t) && s.layout != t.finalLayout.value then [ClosingBarrier(i, t, s)] else []
  }

  predicate EndsExported(textures: seq<TextureNode>, ls: seq<ImageLayout>, n: nat)
    requires n <= |textures| == |ls|
  {
    forall i :: 0 <= i < n && Exported(textures[i])
      ==> ls[i] == textures[i].finalLayout.value
  }

  predicate Exported(t: TextureNode) {
    t.finalLayout.Some? && t.realized
  }

  /** Where the closing transitions for the first n textures leave texture i. */
  function FinalLayoutOf(textures: seq<TextureNode>, st: seq<SyncState>, n: nat, i: nat): ImageLayout
    requires n <= |textures| == |st| && i < |st|
  {
    if i < n && Exported(textures[i]) then textures[i].finalLayout.value else st[i].layout
  }

  ghost predicate ClosesLayouts(textures: seq<TextureNode>, st: seq<SyncState>, n: nat, bs: seq<Barrier>)
    requires n <= |textures| == |st|
  {
    && OnResources(bs, |st|) && ReplaysCleanly(Layouts(st), bs)
    && forall i :: 0 <= i < |st| ==> Replayed(Layouts(st), bs)[i] == FinalLayoutOf(textures, st, n, i)
  }

  function ClosingBarrier(i: nat, t: TextureNode, s: SyncState): Barrier
    requires t.finalLayout.Some?
  {
    Barrier(i, s.layout, t.finalLayout.value, s.stages, s.access, BOTTOM_OF_PIPE, ACCESS_NONE)
  }

  lemma CloseOne(textures: seq<TextureNode>, st: seq<SyncState>, n: nat, bs: seq<Barrier>)
    requires n < |textures| == |st| && ClosesLayouts(textures, st, n, bs) && Exported(textures[n])
    ensures ClosesLayouts(textures, st, n + 1, bs + [ClosingBarrier(n, textures[n], st[n])])
  {
    ReplayOne(Layouts(st), bs, ClosingBarrier(n, textures[n], st[n]));
  }

  lemma KeepOne(textures: seq<TextureNode>, st: seq<SyncState>, n: nat, bs: seq<Barrier>)
    requires n < |textures| == |st| && ClosesLayouts(textures, st, n, bs)
    requires Exported(textures[n]) ==> st[n].layout == textures[n].finalLayout.value
    ensures ClosesLayouts(textures, st, n + 1, bs)
  {
  }

  /** A closing transition stands for exactly the exported textures that exist and are not yet in
      their final layout, from where and after what the last access to them left. */
  lemma {:induction false} ClosingIsExact(textures: seq<TextureNode>, st: seq<SyncState>, n: nat, b: Barrier)
    requires n <= |textures| == |st|
    ensures b in FinalBarriers(textures, st, n) <==>
      exists i :: 0 <= i < n && textures[i].realized && textures[i].finalLayout.Some?
        && st[i].layout != textures[i].finalLayout.value
        && b == Barrier(i, st[i].layout, textures[i].finalLayout.value, st[i].stages, st[i].access, BOTTOM_OF_PIPE, ACCESS_NONE)
  {
    if n > 0 {
      ClosingIsExact(textures, st, n - 1, b);
    }
  }

  lemma CloseNext(textures: seq<TextureNode>, st: seq<SyncState>, n: nat, bs: seq<Barrier>, more: seq<Barrier>)
    requires n < |textures| == |st| && ClosesLayouts(textures, st, n, bs)
    requires more == bs + ClosingOf(textures[n], st[n], n)
    ensures ClosesLayouts(textures, st, n + 1, more)
  {
    if ClosingOf(textures[n], st[n], n) == [] {
      KeepOne(textures, st, n, bs);
      assert more == bs;
    } else {
      CloseOne(textures, st, n, bs);
    }
  }

  lemma {:induction false} FinalBarriersReplay(textures: seq<TextureNode>, st: seq<SyncState>, n: nat, bs: seq<Barrier>)
    requires n <= |textures| == |st| && bs == FinalBarriers(textures, st, n)
    ensures ClosesLayouts(textures, st, n, bs)
  {
    if n > 0 {
      var before := FinalBarriers(textures, st, n - 1);
      FinalBarriersReplay(textures, st, n - 1, before);
      CloseNext(textures, st, n - 1, before, bs);
    }
  }

  lemma JoinReplays(ls: seq<ImageLayout>, bs: seq<Barrier>, mid: seq<ImageLayout>, cs: seq<Barrier>)
    requires OnResources(bs, |ls|) && OnResources(cs, |ls|)
    requires ReplaysCleanly(ls, bs) && Replayed(ls, bs) == mid && ReplaysCleanly(mid, cs)
    ensures OnResources(bs + cs, |ls|) && ReplaysCleanly(ls, bs + cs)
    ensures Replayed(ls, bs + cs) == Replayed(mid, cs)
  {
    ReplayConcat(ls, bs, cs);
  }

  lemma ClosedMeansExported(textures: seq<TextureNode>, st: seq<SyncState>, bs: seq<Barrier>)
    requires |textures| == |st| && ClosesLayouts(textures, st, |textures|, bs)
    ensures EndsExported(textures, Replayed(Layouts(st), bs), |textures|)
  {
  }

  /** Everything Execute emits: the preludes in execution order, then the closing transitions. */
  function AllBarriers(textures: seq<TextureNode>, init: seq<SyncState>, lists: seq<seq<AccessRecord>>): seq<Barrier>
    requires |textures| == |init| && AllInRange(lists, |init|)
  {
    Emitted(init, lists, |lists|) + FinalBarriers(textures, StateAt(init, lists, |lists|), |textures|)
  }

  /** The whole plan: replaying every prelude and then the closing transitions never meets a
      wrong old layout and leaves every exported texture in its final layout. */
  lemma WholePlanReplays(textures: seq<TextureNode>, init: seq<SyncState>, lists: seq<seq<AccessRecord>>)
    requires |textures| == |init| && AllInRange(lists, |init|)
    ensures OnResources(AllBarriers(textures, init, lists), |init|)
    ensures ReplaysCleanly(Layouts(init), AllBarriers(textures, init, lists))
    ensures EndsExported(textures, Replayed(Layouts(init), AllBarriers(textures, init, lists)), |textures|)
  {
    var st := StateAt(init, lists, |lists|);
    var closing := FinalBarriers(textures, st, |textures|);
    EmittedReplays(init, lists, |lists|);
    FinalBarriersReplay(textures, st, |textures|, closing);
    ClosedMeansExported(textures, st, closing);
    JoinReplays(Layouts(init), Emitted(init, lists, |lists|), Layouts(st), closing);
  }
}
