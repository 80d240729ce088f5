/** The engine's subsystems: initialised in dependency order, shut down in reverse. */
module Engines {
  import opened Dependencies
  import opened Occurrences
  import opened Options
  import opened TaskGraphExecutions
  import opened TaskGraphMachine

  datatype SubsystemSlot = SubsystemSlot(id: nat, dependencies: seq<nat>)

  datatype Event = Initialized(subsystem: nat) | Stopped(subsystem: nat)

  /** The first slot registered under an id: what indexById.emplace keeps. */
  function Find(slots: seq<SubsystemSlot>, id: nat): (i: nat)
    ensures i <= |slots|
    ensures i < |slots| ==> slots[i].id == id
    ensures forall k :: 0 <= k < i ==> slots[k].id != id
  {
    if slots == [] then 0
    else
      var i := Find(slots[..|slots| - 1], id);
      if i < |slots| - 1 || slots[i].id == id then i else |slots|
  }

  lemma FindGrows(slots: seq<SubsystemSlot>, k: nat, id: nat)
    requires k < |slots|
    ensures Find(slots[..k + 1], id) ==
      if Find(slots[..k], id) < k then Find(slots[..k], id) else if slots[k].id == id then k else k + 1
  {
    assert slots[..k + 1][..k] == slots[..k];
  }

  /** Every declared dependency was registered. */
  ghost predicate Registered(slots: seq<SubsystemSlot>) {
    forall i, k :: 0 <= i < |slots| && 0 <= k < |slots[i].dependencies| ==> Find(slots, slots[i].dependencies[k]) < |slots|
  }

  function Row(slots: seq<SubsystemSlot>, i: nat): seq<nat>
    requires i < |slots|
  {
    seq(|slots[i].dependencies|, k requires 0 <= k < |slots[i].dependencies| => Find(slots, slots[i].dependencies[k]))
  }

  /** Dependencies by slot index. */
  function Deps(slots: seq<SubsystemSlot>): seq<seq<nat>> {
    seq(|slots|, i requires 0 <= i < |slots| => Row(slots, i))
  }

  function Degrees(deps: seq<seq<nat>>): seq<nat> {
    seq(|deps|, j requires 0 <= j < |deps| => |deps[j]|)
  }

  /** `order` lists slots without repetition, each after all its dependencies. */
  ghost predicate DependencyOrder(deps: seq<seq<nat>>, order: seq<nat>) {
    && (forall k :: 0 <= k < |order| ==> order[k] < |deps|)
    && (forall a, b :: 0 <= a < b < |order| ==> order[a] != order[b])
    && forall k, d :: 0 <= k < |order| && d in deps[order[k]] ==> d in order[..k]
  }

  /** j waits for a dependency that is not listed. */
  ghost predicate Stuck(deps: seq<seq<nat>>, order: seq<nat>, j: nat) {
    j < |deps| && exists k: nat :: k < |deps[j]| && deps[j][k] !in order
  }

  /** Only subsystems that can never start are missing. */
  ghost predicate Maximal(deps: seq<seq<nat>>, order: seq<nat>) {
    forall j: nat {:trigger Stuck(deps, order, j)} :: j < |deps| && j !in order ==> Stuck(deps, order, j)
  }

  // ---------------------------------------------------------------- Kahn's sort as a run of the machine

  /** Between two statements of the sort: the machine m has the same counters, has posted what
      `ready` holds, and has run what `order` lists. */
  ghost predicate Sorting(g: Dag, m: State, inDegree: seq<nat>, ready: seq<nat>, order: seq<nat>, busy: int) {
    && Sound(g, m) && m.scan == |g.deps| && !m.canceled && inDegree == m.remainingDeps
    && Queued(m, [], ready) && Resting(m, busy) && Logged(g, m, order)
  }

  ghost predicate Scanning(g: Dag, m: State, inDegree: seq<nat>, ready: seq<nat>, i: nat) {
    && Sound(g, m) && m.scan == i <= |g.deps| && !m.scanFound && !m.canceled && inDegree == m.remainingDeps
    && Queued(m, [], ready) && Resting(m, -1) && Logged(g, m, [])
  }

  lemma ScanStarts(g: Dag)
    requires ValidDag(g)
    ensures Scanning(g, Init(g), Init(g).remainingDeps, [], 0)
  {
    InitInv(g);
  }

  lemma ScanSkips(g: Dag, m: State, inDegree: seq<nat>, ready: seq<nat>, i: nat)
    requires Scanning(g, m, inDegree, ready, i) && i < |g.deps| && inDegree[i] != 0
    ensures Scanning(g, Next(g, m, Scan), inDegree, ready, i + 1)
  {
    ScanIsSafe(g, m);
  }

  lemma ScanReadies(g: Dag, m: State, inDegree: seq<nat>, ready: seq<nat>, i: nat)
    requires Scanning(g, m, inDegree, ready, i) && i < |g.deps| && inDegree[i] == 0
    ensures Enabled(g, Next(g, m, Scan), Scan)
    ensures Scanning(g, Next(g, Next(g, m, Scan), Scan), inDegree, ready + [i], i + 1)
  {
    ScanIsSafe(g, m);
    var found := Next(g, m, Scan);
    assert NodeInv(g, found, i);
    ScanIsSafe(g, found);
    PostedOnce(found, [], ready, i, Next(g, found, Scan));
  }

  /** Taking a node off the queue and appending it to the order. */
  lemma Emits(g: Dag, m: State, inDegree: seq<nat>, ready: seq<nat>, order: seq<nat>) returns (m': State)
    requires Sorting(g, m, inDegree, ready, order, -1) && ready != []
    ensures ready[0] < |m'.nodes| && m'.nodes[ready[0]] == Releasing(0)
    ensures Sorting(g, m', inDegree, ready[1..], order + [ready[0]], ready[0])
    ensures Work(g, m') < Work(g, m)
  {
    var i := ready[0];
    OccIn(ready, i);
    assert i in ready && Occ([], i) == 0;
    assert m.nodes[i].Posted?;
    var running := Next(g, m, Step(i));
    SafeStep(g, m, Step(i));
    StepsUseUpWork(g, m, Step(i));
    QueueWithoutHead(m, ready, running);
    m' := Next(g, running, Step(i));
    SafeStep(g, running, Step(i));
    StepsUseUpWork(g, running, Step(i));
    LogGrows(g, running, order, i);
  }

  lemma QueueWithoutHead(m: State, ready: seq<nat>, m': State)
    requires Queued(m, [], ready) && ready != [] && |m'.nodes| == |m.nodes|
    requires ready[0] < |m.nodes| && !m'.nodes[ready[0]].Posted?
    requires forall x :: 0 <= x < |m.nodes| && x != ready[0] ==> m'.nodes[x].Posted? == m.nodes[x].Posted?
    ensures Queued(m', [], ready[1..])
  {
    assert forall x :: x in ready[1..] ==> x in ready;
    forall x | 0 <= x < |m.nodes|
      ensures Occ(ready, x) == Occ(ready[1..], x) + if x == ready[0] then 1 else 0
    {
      assert [ready[0]] + ready[1..] == ready;
      OccSplit([ready[0]], ready[1..], x);
    }
  }

  /** One decrement; the successor is readied when its counter becomes zero. */
  lemma Releases(g: Dag, m: State, inDegree: seq<nat>, ready: seq<nat>, order: seq<nat>, i: nat, k: nat) returns (m': State)
    requires Sorting(g, m, inDegree, ready, order, i) && i < |m.nodes| && m.nodes[i] == Releasing(k) && k < |g.succ[i]|
    ensures g.succ[i][k] < |inDegree| && inDegree[g.succ[i][k]] > 0
    ensures i < |m'.nodes| && m'.nodes[i] == Releasing(k + 1)
    ensures var j := g.succ[i][k];
      Sorting(g, m', inDegree[j := inDegree[j] - 1], if inDegree[j] == 1 then ready + [j] else ready, order, i)
    ensures Work(g, m') < Work(g, m)
  {
    CounterHasRoom(g, m, i, k);
    var j := g.succ[i][k];
    var released := Next(g, m, Step(i));
    SafeStep(g, m, Step(i));
    StepsUseUpWork(g, m, Step(i));
    if inDegree[j] == 1 {
      assert Sorting(g, released, inDegree[j := inDegree[j] - 1], ready, order, i);
      m' := Readies(g, released, inDegree[j := inDegree[j] - 1], ready, order, i, k);
    } else {
      m' := released;
    }
  }

  lemma Readies(g: Dag, m: State, inDegree: seq<nat>, ready: seq<nat>, order: seq<nat>, i: nat, k: nat) returns (m': State)
    requires Sorting(g, m, inDegree, ready, order, i) && i < |m.nodes| && m.nodes[i] == Dispatching(k) && k < |g.succ[i]|
    ensures i < |m'.nodes| && m'.nodes[i] == Releasing(k + 1)
    ensures Sorting(g, m', inDegree, ready + [g.succ[i][k]], order, i)
    ensures Work(g, m') < Work(g, m)
  {
    m' := Next(g, m, Step(i));
    DispatchPosts(g, m, i);
    StepsUseUpWork(g, m, Step(i));
    PostedOnce(m, [], ready, g.succ[i][k], m');
  }

  lemma Settles(g: Dag, m: State, inDegree: seq<nat>, ready: seq<nat>, order: seq<nat>, i: nat) returns (m': State)
    requires Sorting(g, m, inDegree, ready, order, i) && i < |m.nodes| && m.nodes[i] == Releasing(|g.succ[i]|)
    ensures Sorting(g, m', inDegree, ready, order, -1)
    ensures Work(g, m') < Work(g, m)
  {
    m' := Next(g, m, Step(i));
    SafeStep(g, m, Step(i));
    StepsUseUpWork(g, m, Step(i));
    if m'.nodes[i].LastOne? {
      SafeStep(g, m', Step(i));
      StepsUseUpWork(g, m', Step(i));
      m' := Next(g, m', Step(i));
    }
  }

  /** When the queue is empty the order respects dependencies, and it is complete exactly when
      there is no cycle among them. */
  lemma SortingEnds(g: Dag, m: State, inDegree: seq<nat>, order: seq<nat>)
    requires Sorting(g, m, inDegree, [], order, -1)
    ensures DependencyOrder(g.deps, order) && Maximal(g.deps, order)
    ensures |order| <= |g.deps|
    ensures |order| == |g.deps| <==> !exists c :: Cycle(g.deps, c)
  {
    forall j: nat | j < |g.deps| && j !in order
      ensures Stuck(g.deps, order, j)
    {
      LeftOutIsStuck(g, m, inDegree, order, j);
    }
    AcyclicIffNoCycle(g.deps);
    forall x | 0 <= x < |g.deps|
      ensures Occ(order, x) <= 1
    {
      assert Occ(order, x) == m.bodies[x];
    }
    LoggedOnceIsOrder(g, order);
    OccBelowAll(order, |g.deps|);
    AtMostOneEach(order, |g.deps|);
    if Acyclic(g.deps) {
      NothingLeft(g, m);
      if |g.deps| > 0 {
        AcyclicNeverStalls(g, m);
      }
    }
    if |order| == |g.deps| {
      CompleteOrderRanks(g.deps, order);
    }
  }

  lemma LeftOutIsStuck(g: Dag, m: State, inDegree: seq<nat>, order: seq<nat>, j: nat)
    requires Sorting(g, m, inDegree, [], order, -1) && j < |g.deps| && j !in order
    ensures Stuck(g.deps, order, j)
  {
    NothingLeft(g, m);
    OccIn(order, j);
    ListedIsDone(g, m, inDegree, order, j);
    forall k: nat | k < |g.deps[j]| && g.deps[j][k] in order
      ensures m.nodes[g.deps[j][k]].Done?
    {
      ListedIsDone(g, m, inDegree, order, g.deps[j][k]);
    }
    if !Stuck(g.deps, order, j) {
      NoCounterLeft(g, m, j);
      CounterlessIsDone(g, m, j);
      assert false;
    }
  }

  lemma ListedIsDone(g: Dag, m: State, inDegree: seq<nat>, order: seq<nat>, x: nat)
    requires Sorting(g, m, inDegree, [], order, -1) && x < |g.deps|
    ensures m.nodes[x].Done? <==> x in order
    ensures !m.nodes[x].Done? ==> m.nodes[x].Waiting?
  {
    OccIn(order, x);
    assert Occ(order, x) == m.bodies[x];
    assert Occ([], x) == 0;
  }

  lemma CounterlessIsDone(g: Dag, m: State, j: nat)
    requires Sound(g, m) && m.scan == |g.deps| && Quiescent(g, m) && j < |g.deps| && m.remainingDeps[j] == 0
    ensures m.nodes[j].Done?
  {
    forall i: nat | i < |g.deps|
      ensures m.nodes[i].Waiting? || m.nodes[i].Done?
    {
      assert !Enabled(g, m, Step(i));
    }
    assert NodeInv(g, m, j);
    PostersZero(g, m.nodes, j, |m.nodes|);
  }

  lemma LoggedOnceIsOrder(g: Dag, order: seq<nat>)
    requires forall x :: 0 <= x < |g.deps| ==> Occ(order, x) <= 1
    requires forall k :: 0 <= k < |order| ==> DepsBefore(g, order, k)
    ensures DependencyOrder(g.deps, order)
  {
    forall k | 0 <= k < |order|
      ensures order[k] < |g.deps| && forall d :: d in g.deps[order[k]] ==> d in order[..k]
    {
      assert DepsBefore(g, order, k);
    }
    forall a, b | 0 <= a < b < |order|
      ensures order[a] != order[b]
    {
      if order[a] == order[b] {
        OccTwice(order, a, b);
      }
    }
  }

  lemma OccTwice(s: seq<nat>, a: nat, b: nat)
    requires a < b < |s| && s[a] == s[b]
    ensures Occ(s, s[a]) >= 2
  {
    OccPrefix(s, b, s[a]);
    OccIn(s[..b], s[a]);
    assert s[..b][a] == s[a];
  }

  /** With no repetition, the length is |n| only when every number below n occurs. */
  lemma {:induction false} AtMostOneEach(s: seq<nat>, n: nat)
    requires forall x :: 0 <= x < n ==> Occ(s, x) <= 1
    ensures OccBelow(s, n) <= n
    ensures OccBelow(s, n) == n <==> forall x :: 0 <= x < n ==> Occ(s, x) == 1
  {
    if n > 0 {
      AtMostOneEach(s, n - 1);
      assert OccBelow(s, n) == OccBelow(s, n - 1) + Occ(s, n - 1);
      assert Occ(s, n - 1) <= 1;
    }
  }

  function Position(s: seq<nat>, x: nat): (k: nat)
    ensures k <= |s| && (x in s <==> k < |s|)
    ensures k < |s| ==> s[k] == x
    ensures forall j :: 0 <= j < k ==> s[j] != x
  {
    if s == [] then 0 else if s[0] == x then 0 else Position(s[1..], x) + 1
  }

  lemma PositionIs(s: seq<nat>, k: nat, x: nat)
    requires k <= |s| && x in s[..k]
    ensures Position(s, x) < k
  {
  }

  /** The positions of a complete order are a ranking. */
  lemma CompleteOrderRanks(deps: seq<seq<nat>>, order: seq<nat>)
    requires DependencyOrder(deps, order) && InRange(deps)
    requires forall x :: 0 <= x < |deps| ==> Occ(order, x) == 1
    ensures Acyclic(deps)
  {
    var rank: seq<nat> := seq(|deps|, j requires 0 <= j < |deps| => Position(order, j));
    forall j, k | 0 <= j < |deps| && 0 <= k < |deps[j]|
      ensures rank[deps[j][k]] < rank[j]
    {
      OccIn(order, j);
      var at := Position(order, j);
      assert deps[j][k] in deps[order[at]];
      PositionIs(order, at, deps[j][k]);
    }
    assert Ranked(deps, rank);
  }

  lemma {:induction false} WalkGoesBack(deps: seq<seq<nat>>, order: seq<nat>, w: seq<nat>, k: nat)
    requires DependencyOrder(deps, order) && Walk(deps, w) && k < |w| && w[0] in order
    ensures w[k] in order && Position(order, w[k]) <= Position(order, w[0])
    ensures k > 0 ==> Position(order, w[k]) < Position(order, w[0])
  {
    if k > 0 {
      WalkGoesBack(deps, order, w, k - 1);
      var at := Position(order, w[k - 1]);
      assert DependsOn(deps, w[k - 1], w[k - 1 + 1]);
      assert w[k] in deps[order[at]];
      PositionIs(order, at, w[k]);
    }
  }

  lemma MissingIsKnot(deps: seq<seq<nat>>, order: seq<nat>, missing: set<nat>)
    requires InRange(deps) && Maximal(deps, order) && missing != {}
    requires forall j: nat :: j in missing <==> j < |deps| && j !in order
    ensures Knot(deps, missing)
  {
    forall j | j in missing
      ensures WaitsInside(deps, missing, j)
    {
      assert Stuck(deps, order, j);
    }
  }

  /** Exactly the subsystems from which a dependency cycle can be reached are left out. */
  lemma LeftOutIffReachesCycle(deps: seq<seq<nat>>, order: seq<nat>, j: nat)
    requires InRange(deps) && DependencyOrder(deps, order) && Maximal(deps, order) && j < |deps|
    ensures j !in order <==> ReachesCycle(deps, j)
  {
    if j !in order {
      var missing := set x | x in NodesBelow(|deps|) && x !in order;
      assert j in missing;
      MissingIsKnot(deps, order, missing);
      KnotReachesCycle(deps, missing, j);
    } else if w, c :| LeadsTo(deps, j, w, c) {
      WalkGoesBack(deps, order, w, |w| - 1);
      WalkGoesBack(deps, order, c, |c| - 1);
    }
  }

  // ---------------------------------------------------------------- start and stop

  function Starts(order: seq<nat>): seq<Event> {
    seq(|order|, k requires 0 <= k < |order| => Initialized(order[k]))
  }

  function Stops(order: seq<nat>): seq<Event> {
    seq(|order|, k requires 0 <= k < |order| => Stopped(order[|order| - 1 - k]))
  }

  /** In a dependency order, for every dependency a subsystem declares the first subsystem registered
      under that id stands before it. */
  lemma DeclaredComesFirst(slots: seq<SubsystemSlot>, order: seq<nat>, p: nat, k: nat) returns (q: nat)
    requires Registered(slots) && DependencyOrder(Deps(slots), order) && p < |order|
    requires order[p] < |slots| && k < |slots[order[p]].dependencies|
    ensures q < p && order[q] < |slots| && slots[order[q]].id == slots[order[p]].dependencies[k]
    ensures forall x :: 0 <= x < order[q] ==> slots[x].id != slots[order[p]].dependencies[k]
  {
    var d := Deps(slots)[order[p]][k];
    assert d == Find(slots, slots[order[p]].dependencies[k]);
    assert d in order[..p];
    q :| 0 <= q < p && order[q] == d;
  }

  /** A subsystem that runs has all its dependencies running: they start before it and stop
      after it, each once. */
  lemma DependenciesOutlive(deps: seq<seq<nat>>, order: seq<nat>, i: nat, d: nat)
    requires DependencyOrder(deps, order) && i in order && d in deps[i]
    ensures d in order
    ensures forall p, q :: 0 <= p < |order| && 0 <= q < |order| && Starts(order)[p] == Initialized(d) && Starts(order)[q] == Initialized(i) ==> p < q
    ensures forall p, q :: 0 <= p < |order| && 0 <= q < |order| && Stops(order)[p] == Stopped(i) && Stops(order)[q] == Stopped(d) ==> p < q
  {
    var at := Position(order, i);
    assert d in deps[order[at]];
    PositionIs(order, at, d);
  }

  // ---------------------------------------------------------------- the code

  class Engine {
    var subsystems: seq<SubsystemSlot>
    var initOrder: seq<nat>
    var initialized: bool
    var calls: seq<Event>

    constructor ()
      ensures subsystems == [] && initOrder == [] && !initialized && calls == []
    {
      subsystems, initOrder, initialized, calls := [], [], false, [];
    }

    method RegisterSubsystem(slot: SubsystemSlot)
      requires !initialized
      modifies this`subsystems
      ensures subsystems == old(subsystems) + [slot]
    {
      subsystems := subsystems + [slot];
    }

    method IndexById() returns (index: map<nat, nat>)
      ensures forall id: nat :: id in index <==> Find(subsystems, id) < |subsystems|
      ensures forall id: nat :: id in index ==> index[id] == Find(subsystems, id)
    {
      index := map[];
      var i := 0;
      assert subsystems[..0] == [];
      while i < |subsystems|
        invariant i <= |subsystems|
        invariant forall id: nat :: id in index <==> Find(subsystems[..i], id) < i
        invariant forall id: nat :: id in index ==> index[id] == Find(subsystems[..i], id)
      {
        var id := subsystems[i].id;
        forall x: nat
          ensures Find(subsystems[..i + 1], x) ==
            if Find(subsystems[..i], x) < i then Find(subsystems[..i], x) else if subsystems[i].id == x then i else i + 1
        {
          FindGrows(subsystems, i, x);
        }
        if id !in index {
          index := index[id := i];
        }
        i := i + 1;
      }
      assert subsystems[..i] == subsystems;
    }

    /** The dependents of every slot, and how many dependencies each slot declares. */
    method Edges() returns (dependents: seq<seq<nat>>, inDegree: seq<nat>)
      requires Registered(subsystems)
      ensures Inverse(Deps(subsystems), dependents)
      ensures inDegree == Degrees(Deps(subsystems))
    {
      var count := |subsystems|;
      var index := IndexById();
      ghost var deps := Deps(subsystems);
      dependents := seq(count, _ => []);
      inDegree := seq(count, _ => 0);
      var i := 0;
      while i < count
        invariant i <= count && Filed(deps, dependents, i, 0) && |inDegree| == count
        invariant forall j :: 0 <= j < count ==> inDegree[j] == if j < i then |deps[j]| else 0
      {
        var k := 0;
        while k < |subsystems[i].dependencies|
          invariant k <= |deps[i]| && Filed(deps, dependents, i, k) && |inDegree| == count
          invariant forall j :: 0 <= j < count ==> inDegree[j] == if j < i then |deps[j]| else if j == i then k else 0
        {
          var d := index[subsystems[i].dependencies[k]];
          assert deps[i][k] == d;
          FileOne(deps, dependents, i, k);
          dependents := dependents[d := dependents[d] + [i]];
          inDegree := inDegree[i := inDegree[i] + 1];
          k := k + 1;
        }
        RowFiled(deps, dependents, i);
        i := i + 1;
      }
      AllFiled(deps, dependents);
    }

    method Roots(inDegree: seq<nat>, ghost g: Dag) returns (ready: seq<nat>, ghost m: State)
      requires ValidDag(g) && inDegree == Init(g).remainingDeps
      ensures Scanning(g, m, inDegree, ready, |g.deps|)
    {
      ready, m := [], Init(g);
      ScanStarts(g);
      var i := 0;
      while i < |inDegree|
        invariant i <= |g.deps| == |inDegree| && Scanning(g, m, inDegree, ready, i)
      {
        if inDegree[i] == 0 {
          ScanReadies(g, m, inDegree, ready, i);
          ready := ready + [i];
          m := Next(g, Next(g, m, Scan), Scan);
        } else {
          ScanSkips(g, m, inDegree, ready, i);
          m := Next(g, m, Scan);
        }
        i := i + 1;
      }
    }

    method ReleaseDependents(i: nat, dependents: seq<nat>, inDegree0: seq<nat>, ready0: seq<nat>, ghost order: seq<nat>,
                             ghost g: Dag, ghost m0: State)
      returns (inDegree: seq<nat>, ready: seq<nat>, ghost m: State)
      requires Sorting(g, m0, inDegree0, ready0, order, i) && i < |m0.nodes| && m0.nodes[i] == Releasing(0)
      requires dependents == g.succ[i]
      ensures Sorting(g, m, inDegree, ready, order, -1)
      ensures Work(g, m) < Work(g, m0)
    {
      inDegree, ready, m := inDegree0, ready0, m0;
      var k := 0;
      while k < |dependents|
        invariant k <= |dependents| && Sorting(g, m, inDegree, ready, order, i) && i < |m.nodes| && m.nodes[i] == Releasing(k)
        invariant Work(g, m) <= Work(g, m0)
      {
        m := Releases(g, m, inDegree, ready, order, i, k);
        var j := dependents[k];
        inDegree := inDegree[j := inDegree[j] - 1];
        if inDegree[j] == 0 {
          ready := ready + [j];
        }
        k := k + 1;
      }
      m := Settles(g, m, inDegree, ready, order, i);
    }

    /** A dependency order, complete exactly when no subsystem depends on itself through others. */
    method BuildInitOrder()
      requires Registered(subsystems)
      modifies this`initOrder
      ensures DependencyOrder(Deps(subsystems), initOrder) && Maximal(Deps(subsystems), initOrder)
      ensures |initOrder| <= |subsystems|
      ensures |initOrder| == |subsystems| <==> !exists c :: Cycle(Deps(subsystems), c)
      ensures forall j: nat :: j < |subsystems| ==> (j !in initOrder <==> ReachesCycle(Deps(subsystems), j))
    {
      initOrder := [];
      var dependents, inDegree := Edges();
      ghost var g := Dag(Deps(subsystems), dependents);
      assert ValidDag(g) && inDegree == Init(g).remainingDeps;
      var ready;
      ghost var m;
      ready, m := Roots(inDegree, g);
      while ready != []
        invariant Sorting(g, m, inDegree, ready, initOrder, -1)
        decreases Work(g, m)
      {
        ghost var m' := Emits(g, m, inDegree, ready, initOrder);
        var i := ready[0];
        ready := ready[1..];
        initOrder := initOrder + [i];
        inDegree, ready, m := ReleaseDependents(i, dependents[i], inDegree, ready, initOrder, g, m');
      }
      SortingEnds(g, m, inDegree, initOrder);
      forall j: nat | j < |subsystems|
        ensures j !in initOrder <==> ReachesCycle(Deps(subsystems), j)
      {
        LeftOutIffReachesCycle(Deps(subsystems), initOrder, j);
      }
    }

    method Initialize()
      requires Registered(subsystems) && !initialized
      modifies this
      ensures subsystems == old(subsystems) && initialized
      ensures DependencyOrder(Deps(subsystems), initOrder) && Maximal(Deps(subsystems), initOrder)
      ensures |initOrder| == |subsystems| <==> !exists c :: Cycle(Deps(subsystems), c)
      ensures forall j: nat :: j < |subsystems| ==> (j !in initOrder <==> ReachesCycle(Deps(subsystems), j))
      ensures calls == old(calls) + Starts(initOrder)
      ensures |calls| == |old(calls)| + |initOrder|
      ensures forall j :: |old(calls)| <= j < |calls| ==> calls[j] == Initialized(initOrder[j - |old(calls)|])
    {
      BuildInitOrder();
      StartAll();
      initialized := true;
    }

    method StartAll()
      modifies this`calls
      ensures calls == old(calls) + Starts(initOrder)
    {
      var k := 0;
      while k < |initOrder|
        invariant k <= |initOrder| && calls == old(calls) + Starts(initOrder)[..k]
      {
        calls := calls + [Initialized(initOrder[k])];
        k := k + 1;
      }
    }

    method Shutdown()
      modifies this
      ensures !old(initialized) ==> unchanged(this)
      ensures old(initialized) ==> subsystems == [] && initOrder == [] && !initialized && calls == old(calls) + Stops(old(initOrder))
      ensures old(initialized) ==> |calls| == |old(calls)| + |old(initOrder)|
      ensures old(initialized) ==> forall j :: |old(calls)| <= j < |calls| ==> calls[j] == Stopped(old(initOrder)[|calls| - 1 - j])
    {
      if !initialized {
        return;
      }
      var k := |initOrder|;
      while k > 0
        invariant 0 <= k <= |initOrder| && initOrder == old(initOrder) && calls == old(calls) + Stops(initOrder)[..|initOrder| - k]
      {
        k := k - 1;
        calls := calls + [Stopped(initOrder[k])];
      }
      initOrder, subsystems, initialized := [], [], false;
    }
  }
}
