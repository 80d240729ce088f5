/** The execution of a submitted graph as interleaved steps: Start's scan on the submitting
    thread, and every node's run on whichever thread its executor picks. */
module TaskGraphMachine {
  import opened Dependencies
  import opened Occurrences

  /** deps[j] lists the nodes j waits for, with repetitions; succ is the inverse Submit builds. */
  datatype Dag = Dag(deps: seq<seq<nat>>, succ: seq<seq<nat>>)

  ghost predicate ValidDag(g: Dag) {
    InRange(g.deps) && Inverse(g.deps, g.succ)
  }

  /** A node's life. Releasing(k): about to decrement its k-th successor. Dispatching(k): that
      decrement reached zero and the successor is about to be posted. */
  datatype NodeState =
    | Waiting
    | Posted
    | Running
    | Releasing(k: nat)
    | Dispatching(k: nat)
    | LastOne
    | Done

  /** `scan` is Start's loop index; `scanFound` says it has just read a zero counter there.
      `bodies` counts body calls, `sets` fulfilments of the promise. `early` holds the nodes
      released before the scan read their counter; `twice` is set by a second dispatch. */
  datatype State = State(
    nodes: seq<NodeState>, remainingDeps: seq<nat>, remainingNodes: nat,
    scan: nat, scanFound: bool, canceled: bool,
    bodies: seq<nat>, sets: nat, early: set<nat>, twice: bool)

  datatype Action = Scan | Cancel | Step(i: nat)

  function Init(g: Dag): State {
    var n := |g.deps|;
    State(seq(n, _ => Waiting), seq(n, j requires 0 <= j < n => |g.deps[j]|), n, 0, false, false, seq(n, _ => 0), 0, {}, false)
  }

  predicate Shape(g: Dag, s: State) {
    && |s.nodes| == |s.remainingDeps| == |s.bodies| == |g.deps| == |g.succ|
    && s.scan <= |g.deps|
    && (s.scanFound ==> s.scan < |g.deps|)
    && (forall i :: 0 <= i < |s.nodes| ==> NodeShape(g, s.nodes[i], i))
  }

  predicate NodeShape(g: Dag, st: NodeState, i: nat)
    requires i < |g.succ|
  {
    match st
    case Releasing(k) => k <= |g.succ[i]|
    case Dispatching(k) => k < |g.succ[i]| && g.succ[i][k] < |g.succ|
    case _ => true
  }

  /** After a second dispatch the run is no longer followed. */
  predicate Enabled(g: Dag, s: State, a: Action) {
    && Shape(g, s) && !s.twice
    && match a
       case Scan => s.scan < |g.deps|
       case Cancel => !s.canceled
       case Step(i) => i < |g.deps| && !s.nodes[i].Waiting? && !s.nodes[i].Done?
                       && (s.nodes[i].Releasing? && s.nodes[i].k < |g.succ[i]| ==> g.succ[i][s.nodes[i].k] < |g.deps|)
  }

  /** fetch_sub on a 32-bit counter. */
  function Dec(x: nat): nat {
    if x == 0 then 0xFFFF_FFFF else x - 1
  }

  /** Posting node j. */
  function Dispatch(s: State, j: nat): State
    requires j < |s.nodes|
  {
    if s.nodes[j].Waiting? then s.(nodes := s.nodes[j := Posted]) else s.(twice := true)
  }

  predicate Scanned(s: State, j: nat) {
    j < s.scan || (j == s.scan && s.scanFound)
  }

  function Next(g: Dag, s: State, a: Action): State
    requires Enabled(g, s, a)
  {
    match a
    case Cancel => s.(canceled := true)
    case Scan =>
      if s.scanFound then Dispatch(s, s.scan).(scan := s.scan + 1, scanFound := false)
      else if s.remainingDeps[s.scan] == 0 then s.(scanFound := true)
      else s.(scan := s.scan + 1)
    case Step(i) =>
      match s.nodes[i]
      case Posted => s.(nodes := s.nodes[i := Running])
      case Running =>
        s.(nodes := s.nodes[i := Releasing(0)],
           bodies := if s.canceled then s.bodies else s.bodies[i := s.bodies[i] + 1])
      case Releasing(k) =>
        if k < |g.succ[i]| then
          var j := g.succ[i][k];
          var prev := s.remainingDeps[j];
          s.(remainingDeps := s.remainingDeps[j := Dec(prev)],
             nodes := s.nodes[i := if prev == 1 then Dispatching(k) else Releasing(k + 1)],
             early := if prev == 1 && !Scanned(s, j) then s.early + {j} else s.early)
        else
          s.(remainingNodes := Dec(s.remainingNodes),
             nodes := s.nodes[i := if s.remainingNodes == 1 then LastOne else Done])
      case Dispatching(k) =>
        Dispatch(s.(nodes := s.nodes[i := Releasing(k + 1)]), g.succ[i][k])
      case LastOne => s.(nodes := s.nodes[i := Done], sets := s.sets + 1)
  }

  // ---------------------------------------------------------------- counting decrements

  /** How many of its successors node i has decremented. */
  function Progress(g: Dag, st: NodeState, i: nat): (k: nat)
    requires i < |g.succ| && NodeShape(g, st, i)
    ensures k <= |g.succ[i]|
  {
    match st
    case Releasing(k) => k
    case Dispatching(k) => k + 1
    case LastOne => |g.succ[i]|
    case Done => |g.succ[i]|
    case _ => 0
  }

  predicate NodesShape(g: Dag, nodes: seq<NodeState>) {
    |nodes| == |g.succ| && forall i :: 0 <= i < |nodes| ==> NodeShape(g, nodes[i], i)
  }

  /** Decrements node j has received from nodes below m. */
  function Received(g: Dag, nodes: seq<NodeState>, j: nat, m: nat): nat
    requires NodesShape(g, nodes) && m <= |g.succ|
  {
    if m == 0 then 0
    else Received(g, nodes, j, m - 1) + Occ(g.succ[m - 1][..Progress(g, nodes[m - 1], m - 1)], j)
  }

  lemma {:induction false} ReceivedUpdate(g: Dag, nodes: seq<NodeState>, i: nat, st: NodeState, j: nat, m: nat)
    requires NodesShape(g, nodes) && i < |nodes| && NodeShape(g, st, i) && m <= |g.succ|
    ensures NodesShape(g, nodes[i := st])
    ensures Received(g, nodes[i := st], j, m) == Received(g, nodes, j, m) +
      (if i < m then Occ(g.succ[i][..Progress(g, st, i)], j) - Occ(g.succ[i][..Progress(g, nodes[i], i)], j) else 0)
  {
    if m > 0 {
      ReceivedUpdate(g, nodes, i, st, j, m - 1);
    }
  }

  /** Node j can receive no more decrements than it has dependencies, and has received them all
      only when every dependency's body has finished. */
  lemma {:induction false} ReceivedAtMost(g: Dag, nodes: seq<NodeState>, j: nat, m: nat)
    requires ValidDag(g) && NodesShape(g, nodes) && j < |g.deps| && m <= |g.succ|
    ensures Received(g, nodes, j, m) <= OccBelow(g.deps[j], m)
    ensures Received(g, nodes, j, m) == OccBelow(g.deps[j], m) ==>
      forall i :: 0 <= i < m && Occ(g.deps[j], i) > 0 ==> Progress(g, nodes[i], i) > 0
  {
    if m > 0 {
      ReceivedAtMost(g, nodes, j, m - 1);
      OccWithin(g.succ[m - 1], Progress(g, nodes[m - 1], m - 1), j);
    }
  }

  predicate BodyDone(st: NodeState) {
    !st.Waiting? && !st.Posted? && !st.Running?
  }

  predicate Counted(st: NodeState) {
    st.LastOne? || st.Done?
  }

  function CountedBelow(nodes: seq<NodeState>, m: nat): nat
    requires m <= |nodes|
  {
    if m == 0 then 0 else CountedBelow(nodes, m - 1) + (if Counted(nodes[m - 1]) then 1 else 0)
  }

  function LastsBelow(nodes: seq<NodeState>, m: nat): nat
    requires m <= |nodes|
  {
    if m == 0 then 0 else LastsBelow(nodes, m - 1) + (if nodes[m - 1].LastOne? then 1 else 0)
  }

  lemma {:induction false} CountsUpdate(nodes: seq<NodeState>, i: nat, st: NodeState, m: nat)
    requires i < |nodes| && m <= |nodes|
    ensures CountedBelow(nodes[i := st], m) == CountedBelow(nodes, m) +
      (if i < m then (if Counted(st) then 1 else 0) - (if Counted(nodes[i]) then 1 else 0) else 0)
    ensures LastsBelow(nodes[i := st], m) == LastsBelow(nodes, m) +
      (if i < m then (if st.LastOne? then 1 else 0) - (if nodes[i].LastOne? then 1 else 0) else 0)
  {
    if m > 0 {
      CountsUpdate(nodes, i, st, m - 1);
    }
  }

  lemma {:induction false} CountsBounds(nodes: seq<NodeState>, m: nat)
    requires m <= |nodes|
    ensures LastsBelow(nodes, m) <= CountedBelow(nodes, m) <= m
    ensures CountedBelow(nodes, m) == m <==> forall i :: 0 <= i < m ==> Counted(nodes[i])
    ensures LastsBelow(nodes, m) == 0 <==> forall i :: 0 <= i < m ==> !nodes[i].LastOne?
  {
    if m > 0 {
      CountsBounds(nodes, m - 1);
    }
  }

  // ---------------------------------------------------------------- the invariant

  predicate Posts(g: Dag, st: NodeState, i: nat, j: nat)
    requires i < |g.succ| && NodeShape(g, st, i)
  {
    st.Dispatching? && g.succ[i][st.k] == j
  }

  /** How many nodes below m are about to post j. */
  function Posters(g: Dag, nodes: seq<NodeState>, j: nat, m: nat): nat
    requires NodesShape(g, nodes) && m <= |nodes|
  {
    if m == 0 then 0
    else Posters(g, nodes, j, m - 1) + (if Posts(g, nodes[m - 1], m - 1, j) then 1 else 0)
  }

  lemma {:induction false} PostersUpdate(g: Dag, nodes: seq<NodeState>, i: nat, st: NodeState, j: nat, m: nat)
    requires NodesShape(g, nodes) && i < |nodes| && NodeShape(g, st, i) && m <= |nodes|
    ensures NodesShape(g, nodes[i := st])
    ensures Posters(g, nodes[i := st], j, m) == Posters(g, nodes, j, m) +
      (if i < m then (if Posts(g, st, i, j) then 1 else 0) - (if Posts(g, nodes[i], i, j) then 1 else 0) else 0)
  {
    if m > 0 {
      PostersUpdate(g, nodes, i, st, j, m - 1);
    }
  }

  lemma {:induction false} PostersZero(g: Dag, nodes: seq<NodeState>, j: nat, m: nat)
    requires NodesShape(g, nodes) && m <= |nodes|
    ensures Posters(g, nodes, j, m) == 0 <==> forall i :: 0 <= i < m ==> !Posts(g, nodes[i], i, j)
  {
    if m > 0 {
      PostersZero(g, nodes, j, m - 1);
    }
  }

  /** What is true of a node, by how it can be released: a root by the scan, any other node by
      the decrement that empties its counter; an early one by both. */
  predicate NodeOk(root: bool, counter: nat, early: bool, waiting: bool, posters: nat, j: nat, scan: nat, scanFound: bool) {
    var posting := posters == 1;
    posters <= 1 &&
    if root then (waiting <==> j >= scan) && !posting && !early
    else if counter > 0 then waiting && !posting && !early && !(scanFound && scan == j)
    else if !early then j < scan && (waiting <==> posting)
    else if j < scan then !waiting && posting
    else waiting <==> posting
  }

  ghost predicate NodeInv(g: Dag, s: State, j: nat)
    requires Shape(g, s) && NodesShape(g, s.nodes) && j < |g.deps|
  {
    NodeOk(g.deps[j] == [], s.remainingDeps[j], j in s.early, s.nodes[j].Waiting?, Posters(g, s.nodes, j, |s.nodes|), j, s.scan, s.scanFound)
  }

  ghost predicate NodesOk(g: Dag, s: State)
    requires Shape(g, s) && NodesShape(g, s.nodes)
  {
    forall j :: 0 <= j < |g.deps| ==> NodeInv(g, s, j)
  }

  ghost predicate Tallies(g: Dag, s: State)
    requires NodesShape(g, s.nodes)
  {
    var n := |g.deps|;
    && |s.remainingDeps| == n == |g.succ| == |s.bodies|
    && (forall j :: 0 <= j < n ==> s.remainingDeps[j] + Received(g, s.nodes, j, n) == |g.deps[j]|)
    && s.remainingNodes + CountedBelow(s.nodes, n) == n
    && s.sets + LastsBelow(s.nodes, n) == (if s.remainingNodes == 0 && n > 0 then 1 else 0)
    && (forall i :: 0 <= i < n ==> s.bodies[i] <= (if BodyDone(s.nodes[i]) then 1 else 0))
    && (!s.canceled ==> forall i :: 0 <= i < n ==> s.bodies[i] == (if BodyDone(s.nodes[i]) then 1 else 0))
  }

  ghost predicate Inv(g: Dag, s: State) {
    && ValidDag(g) && Shape(g, s) && NodesShape(g, s.nodes) && !s.twice
    && Tallies(g, s)
    && NodesOk(g, s)
    && (forall j :: j in s.early ==> j < |g.deps|)
  }

  lemma {:induction false} NothingReceived(g: Dag, nodes: seq<NodeState>, j: nat, m: nat)
    requires NodesShape(g, nodes) && m <= |g.succ| && forall i :: 0 <= i < |nodes| ==> nodes[i].Waiting?
    ensures Received(g, nodes, j, m) == 0 && CountedBelow(nodes, m) == 0 && LastsBelow(nodes, m) == 0
    ensures Posters(g, nodes, j, m) == 0
  {
    if m > 0 {
      NothingReceived(g, nodes, j, m - 1);
    }
  }

  lemma InitInv(g: Dag)
    requires ValidDag(g)
    ensures Inv(g, Init(g))
  {
    var s, n := Init(g), |g.deps|;
    forall j | 0 <= j < n
      ensures s.remainingDeps[j] + Received(g, s.nodes, j, n) == |g.deps[j]| && NodeInv(g, s, j)
    {
      NothingReceived(g, s.nodes, j, n);
    }
    NothingReceived(g, s.nodes, 0, n);
  }

  /** An empty counter means every dependency's body has finished. */
  lemma EmptyCounterMeansDepsDone(g: Dag, s: State, j: nat)
    requires ValidDag(g) && Shape(g, s) && NodesShape(g, s.nodes) && Tallies(g, s) && j < |g.deps|
    requires s.remainingDeps[j] == 0
    ensures forall i :: i in g.deps[j] ==> i < |s.nodes| && BodyDone(s.nodes[i])
  {
    var n := |g.deps|;
    ReceivedAtMost(g, s.nodes, j, n);
    OccBelowAll(g.deps[j], n);
    forall i | i in g.deps[j]
      ensures i < n && BodyDone(s.nodes[i])
    {
      OccIn(g.deps[j], i);
    }
  }

  /** The counter of a successor about to be decremented is not empty. */
  lemma CounterHasRoom(g: Dag, s: State, i: nat, k: nat)
    requires ValidDag(g) && Shape(g, s) && NodesShape(g, s.nodes) && Tallies(g, s)
    requires i < |g.succ| && k < |g.succ[i]| && s.nodes[i] == Releasing(k)
    ensures s.remainingDeps[g.succ[i][k]] >= 1
  {
    var n, j := |g.deps|, g.succ[i][k];
    ReceivedUpdate(g, s.nodes, i, Releasing(k + 1), j, n);
    ReceivedAtMost(g, s.nodes[i := Releasing(k + 1)], j, n);
    OccBelowAll(g.deps[j], n);
    OccPrefix(g.succ[i], k, j);
  }

  // ---------------------------------------------------------------- one step

  /** Relabelling a node without progress keeps every count. */
  lemma RetagKeepsTallies(g: Dag, s: State, i: nat, st: NodeState)
    requires ValidDag(g) && NodesShape(g, s.nodes) && Tallies(g, s) && i < |s.nodes| && NodeShape(g, st, i)
    requires Progress(g, st, i) == Progress(g, s.nodes[i], i) && Counted(st) == Counted(s.nodes[i])
    requires st.LastOne? == s.nodes[i].LastOne? && BodyDone(st) == BodyDone(s.nodes[i])
    ensures NodesShape(g, s.nodes[i := st]) && Tallies(g, s.(nodes := s.nodes[i := st]))
  {
    var n := |g.deps|;
    CountsUpdate(s.nodes, i, st, n);
    forall j | 0 <= j < n
      ensures Received(g, s.nodes[i := st], j, n) == Received(g, s.nodes, j, n)
    {
      ReceivedUpdate(g, s.nodes, i, st, j, n);
    }
  }

  lemma DispatchKeepsTallies(g: Dag, s: State, j: nat)
    requires ValidDag(g) && NodesShape(g, s.nodes) && Tallies(g, s) && j < |s.nodes|
    ensures NodesShape(g, Dispatch(s, j).nodes) && Tallies(g, Dispatch(s, j))
  {
    if s.nodes[j].Waiting? {
      RetagKeepsTallies(g, s, j, Posted);
    }
  }

  lemma BodyKeepsTallies(g: Dag, s: State, i: nat)
    requires Inv(g, s) && i < |s.nodes| && s.nodes[i].Running?
    ensures NodesShape(g, Next(g, s, Step(i)).nodes) && Tallies(g, Next(g, s, Step(i)))
  {
    var n, s' := |g.deps|, Next(g, s, Step(i));
    CountsUpdate(s.nodes, i, Releasing(0), n);
    forall j | 0 <= j < n
      ensures s'.remainingDeps[j] + Received(g, s'.nodes, j, n) == |g.deps[j]|
    {
      ReceivedUpdate(g, s.nodes, i, Releasing(0), j, n);
    }
  }

  lemma ReleaseKeepsTallies(g: Dag, s: State, i: nat)
    requires Inv(g, s) && i < |s.nodes| && s.nodes[i].Releasing? && s.nodes[i].k < |g.succ[i]|
    ensures NodesShape(g, Next(g, s, Step(i)).nodes) && Tallies(g, Next(g, s, Step(i)))
  {
    var n, s' := |g.deps|, Next(g, s, Step(i));
    var k, st := s.nodes[i].k, s'.nodes[i];
    CounterHasRoom(g, s, i, k);
    CountsUpdate(s.nodes, i, st, n);
    forall j | 0 <= j < n
      ensures s'.remainingDeps[j] + Received(g, s'.nodes, j, n) == |g.deps[j]|
    {
      ReceivedUpdate(g, s.nodes, i, st, j, n);
      OccPrefix(g.succ[i], k, j);
    }
  }

  lemma CountKeepsTallies(g: Dag, s: State, i: nat)
    requires Inv(g, s) && i < |s.nodes|
    requires (s.nodes[i].Releasing? && s.nodes[i].k == |g.succ[i]|) || s.nodes[i].LastOne?
    ensures NodesShape(g, Next(g, s, Step(i)).nodes) && Tallies(g, Next(g, s, Step(i)))
  {
    var n, s' := |g.deps|, Next(g, s, Step(i));
    var st := s'.nodes[i];
    CountsUpdate(s.nodes, i, st, n);
    CountsBounds(s.nodes, n);
    CountsBounds(s'.nodes, n);
    forall j | 0 <= j < n
      ensures Received(g, s'.nodes, j, n) == Received(g, s.nodes, j, n)
    {
      ReceivedUpdate(g, s.nodes, i, st, j, n);
    }
  }

  lemma NodeKeepsTallies(g: Dag, s: State, i: nat)
    requires Inv(g, s) && Enabled(g, s, Step(i))
    ensures NodesShape(g, Next(g, s, Step(i)).nodes) && Tallies(g, Next(g, s, Step(i)))
  {
    match s.nodes[i] {
      case Posted => RetagKeepsTallies(g, s, i, Running);
      case Running => BodyKeepsTallies(g, s, i);
      case Releasing(k) =>
        if k < |g.succ[i]| {
          ReleaseKeepsTallies(g, s, i);
        } else {
          CountKeepsTallies(g, s, i);
        }
      case Dispatching(k) => PostingKeepsTallies(g, s, i, k);
      case LastOne => CountKeepsTallies(g, s, i);
    }
  }

  lemma PostingKeepsTallies(g: Dag, s: State, i: nat, k: nat)
    requires Inv(g, s) && i < |s.nodes| && s.nodes[i] == Dispatching(k)
    ensures var moved := s.(nodes := s.nodes[i := Releasing(k + 1)]);
      NodesShape(g, Dispatch(moved, g.succ[i][k]).nodes) && Tallies(g, Dispatch(moved, g.succ[i][k]))
  {
    RetagKeepsTallies(g, s, i, Releasing(k + 1));
    DispatchKeepsTallies(g, s.(nodes := s.nodes[i := Releasing(k + 1)]), g.succ[i][k]);
  }

  lemma TalliesStep(g: Dag, s: State, a: Action)
    requires Inv(g, s) && Enabled(g, s, a)
    ensures NodesShape(g, Next(g, s, a).nodes) && Tallies(g, Next(g, s, a))
  {
    match a {
      case Cancel =>
      case Scan =>
        if s.scanFound {
          DispatchKeepsTallies(g, s, s.scan);
        }
      case Step(i) => NodeKeepsTallies(g, s, i);
    }
  }

  /** Nodes whose relevant facts did not change stay in order; j is looked at separately. */
  lemma NodesKeep(g: Dag, s: State, s': State, j: nat)
    requires Shape(g, s) && Shape(g, s') && NodesShape(g, s.nodes) && NodesShape(g, s'.nodes) && NodesOk(g, s)
    requires s'.scan == s.scan && s'.scanFound == s.scanFound
    requires forall x :: 0 <= x < |g.deps| && x != j ==>
      && s'.remainingDeps[x] == s.remainingDeps[x] && (x in s'.early <==> x in s.early)
      && s'.nodes[x].Waiting? == s.nodes[x].Waiting?
      && Posters(g, s'.nodes, x, |s'.nodes|) == Posters(g, s.nodes, x, |s.nodes|)
    requires j < |g.deps| ==> NodeInv(g, s', j)
    ensures NodesOk(g, s')
  {
    forall x | 0 <= x < |g.deps| && x != j
      ensures NodeInv(g, s', x)
    {
      assert NodeInv(g, s, x);
    }
  }

  lemma ScanStep(g: Dag, s: State)
    requires Inv(g, s) && s.scan < |g.deps|
    ensures var s' := Next(g, s, Scan);
      && (s'.twice <==> s.scanFound && s.scan in s.early && !s.nodes[s.scan].Waiting?)
      && (!s'.twice ==> Inv(g, s'))
  {
    var s' := Next(g, s, Scan);
    TalliesStep(g, s, Scan);
    assert NodeInv(g, s, s.scan);
    if !s'.twice {
      forall x | 0 <= x < |g.deps|
        ensures NodeInv(g, s', x)
      {
        assert NodeInv(g, s, x);
        if s.scanFound {
          PostersUpdate(g, s.nodes, s.scan, Posted, x, |s.nodes|);
        }
      }
    }
  }

  /** The part of a state the node conditions speak about. */
  ghost predicate Orderly(g: Dag, s: State) {
    && |g.succ| == |g.deps| && Shape(g, s) && NodesShape(g, s.nodes) && NodesOk(g, s)
    && forall j :: j in s.early ==> j < |g.deps|
  }

  lemma DispatchOrder(g: Dag, s: State, i: nat)
    requires Orderly(g, s) && i < |s.nodes| && s.nodes[i].Dispatching? && !s.twice
    ensures var s', j := Next(g, s, Step(i)), g.succ[i][s.nodes[i].k];
      && (s'.twice <==> j in s.early && j < s.scan)
      && (!s'.twice ==> Orderly(g, s'))
  {
    var j, s' := g.succ[i][s.nodes[i].k], Next(g, s, Step(i));
    PostersZero(g, s.nodes, j, |s.nodes|);
    assert Posts(g, s.nodes[i], i, j);
    assert NodeInv(g, s, j) && NodeInv(g, s, i);
    if !s'.twice {
      forall x | 0 <= x < |s.nodes|
        ensures Posters(g, s'.nodes, x, |s.nodes|) == Posters(g, s.nodes, x, |s.nodes|) - (if x == j then 1 else 0)
      {
        OnePosterLess(g, s.nodes, i, x);
      }
      assert NodeInv(g, s', j);
      NodesKeep(g, s, s', j);
    }
  }

  lemma OnePosterLess(g: Dag, nodes: seq<NodeState>, i: nat, x: nat)
    requires NodesShape(g, nodes) && i < |nodes| && nodes[i].Dispatching? && nodes[g.succ[i][nodes[i].k]].Waiting?
    ensures var k := nodes[i].k;
      var nodes' := nodes[i := Releasing(k + 1)][g.succ[i][k] := Posted];
      && NodesShape(g, nodes')
      && Posters(g, nodes', x, |nodes|) == Posters(g, nodes, x, |nodes|) - (if x == g.succ[i][k] then 1 else 0)
  {
    var k := nodes[i].k;
    PostersUpdate(g, nodes, i, Releasing(k + 1), x, |nodes|);
    PostersUpdate(g, nodes[i := Releasing(k + 1)], g.succ[i][k], Posted, x, |nodes|);
  }

  lemma DispatchStep(g: Dag, s: State, i: nat)
    requires Inv(g, s) && i < |s.nodes| && s.nodes[i].Dispatching?
    ensures var s', j := Next(g, s, Step(i)), g.succ[i][s.nodes[i].k];
      && (s'.twice <==> j in s.early && j < s.scan)
      && (!s'.twice ==> Inv(g, s'))
  {
    TalliesStep(g, s, Step(i));
    DispatchOrder(g, s, i);
  }

  lemma ReleaseFacts(g: Dag, s: State, i: nat)
    requires Inv(g, s) && i < |s.nodes| && s.nodes[i].Releasing? && s.nodes[i].k < |g.succ[i]|
    ensures var j := g.succ[i][s.nodes[i].k];
      && s.remainingDeps[j] >= 1 && g.deps[j] != [] && i != j && s.nodes[j].Waiting? && j !in s.early
      && Posters(g, s.nodes, j, |s.nodes|) == 0 && !(s.scanFound && s.scan == j)
  {
    var j := g.succ[i][s.nodes[i].k];
    CounterHasRoom(g, s, i, s.nodes[i].k);
    assert NodeInv(g, s, j);
    assert s.remainingDeps[j] + Received(g, s.nodes, j, |g.deps|) == |g.deps[j]|;
  }

  lemma ReleaseStep(g: Dag, s: State, i: nat)
    requires Inv(g, s) && i < |s.nodes| && s.nodes[i].Releasing? && s.nodes[i].k < |g.succ[i]|
    ensures Inv(g, Next(g, s, Step(i)))
  {
    var n, s' := |s.nodes|, Next(g, s, Step(i));
    var j := g.succ[i][s.nodes[i].k];
    TalliesStep(g, s, Step(i));
    ReleaseFacts(g, s, i);
    forall x | 0 <= x < n
      ensures Posters(g, s'.nodes, x, n) == Posters(g, s.nodes, x, n) + (if x == j && s.remainingDeps[j] == 1 then 1 else 0)
    {
      PostersUpdate(g, s.nodes, i, s'.nodes[i], x, n);
    }
    assert NodeInv(g, s', j);
    NodesKeep(g, s, s', j);
  }

  /** A move of node i that posts nothing and touches no counter of dependencies. */
  lemma QuietOrder(g: Dag, s: State, s': State, i: nat)
    requires Orderly(g, s) && i < |s.nodes| && NodesShape(g, s'.nodes) && Shape(g, s')
    requires s' == s.(nodes := s'.nodes, bodies := s'.bodies, remainingNodes := s'.remainingNodes, sets := s'.sets)
    requires s'.nodes == s.nodes[i := s'.nodes[i]] && s'.nodes[i].Waiting? == s.nodes[i].Waiting?
    requires !s.nodes[i].Dispatching? && !s'.nodes[i].Dispatching?
    ensures Orderly(g, s')
  {
    forall x | 0 <= x < |s.nodes|
      ensures Posters(g, s'.nodes, x, |s.nodes|) == Posters(g, s.nodes, x, |s.nodes|)
    {
      PostersUpdate(g, s.nodes, i, s'.nodes[i], x, |s.nodes|);
    }
    NodesKeep(g, s, s', |g.deps|);
  }

  lemma QuietStep(g: Dag, s: State, i: nat)
    requires Inv(g, s) && Enabled(g, s, Step(i)) && !s.nodes[i].Dispatching?
    requires s.nodes[i].Releasing? ==> s.nodes[i].k == |g.succ[i]|
    ensures Inv(g, Next(g, s, Step(i)))
  {
    TalliesStep(g, s, Step(i));
    QuietOrder(g, s, Next(g, s, Step(i)), i);
  }

  /** Every step keeps the invariant unless it dispatches a node a second time, and that happens
      exactly when the scan and the decrement that emptied the counter both post the same
      early-released node. */
  lemma InvStep(g: Dag, s: State, a: Action)
    requires Inv(g, s) && Enabled(g, s, a)
    ensures !Next(g, s, a).twice ==> Inv(g, Next(g, s, a))
    ensures Next(g, s, a).twice <==>
      || (a.Scan? && s.scanFound && s.scan in s.early && !s.nodes[s.scan].Waiting?)
      || (a.Step? && s.nodes[a.i].Dispatching? && g.succ[a.i][s.nodes[a.i].k] in s.early && g.succ[a.i][s.nodes[a.i].k] < s.scan)
    ensures s.early <= Next(g, s, a).early
  {
    EarlyGrows(g, s, a);
    match a {
      case Cancel => CancelStep(g, s);
      case Scan => ScanStep(g, s);
      case Step(i) =>
        if s.nodes[i].Dispatching? {
          DispatchStep(g, s, i);
        } else {
          OwnStep(g, s, i);
        }
    }
  }

  lemma EarlyGrows(g: Dag, s: State, a: Action)
    requires Enabled(g, s, a)
    ensures s.early <= Next(g, s, a).early
    ensures Next(g, s, a).twice ==> a.Scan? || (a.Step? && s.nodes[a.i].Dispatching?)
  {
  }

  lemma CancelStep(g: Dag, s: State)
    requires Inv(g, s) && Enabled(g, s, Cancel)
    ensures Inv(g, Next(g, s, Cancel))
  {
    TalliesStep(g, s, Cancel);
    NodesKeep(g, s, Next(g, s, Cancel), |g.deps|);
  }

  lemma OwnStep(g: Dag, s: State, i: nat)
    requires Inv(g, s) && Enabled(g, s, Step(i)) && !s.nodes[i].Dispatching?
    ensures Inv(g, Next(g, s, Step(i)))
  {
    if s.nodes[i].Releasing? && s.nodes[i].k < |g.succ[i]| {
      ReleaseStep(g, s, i);
    } else {
      QuietStep(g, s, i);
    }
  }

  // ---------------------------------------------------------------- whole runs

  predicate Executable(g: Dag, s: State, acts: seq<Action>)
    decreases |acts|
  {
    acts == [] || (Enabled(g, s, acts[0]) && Executable(g, Next(g, s, acts[0]), acts[1..]))
  }

  function Final(g: Dag, s: State, acts: seq<Action>): State
    requires Executable(g, s, acts)
    decreases |acts|
  {
    if acts == [] then s else Final(g, Next(g, s, acts[0]), acts[1..])
  }

  lemma {:induction false} RunInv(g: Dag, s: State, acts: seq<Action>)
    requires Inv(g, s) && Executable(g, s, acts)
    ensures !Final(g, s, acts).twice ==> Inv(g, Final(g, s, acts))
    ensures Final(g, s, acts).twice ==> Final(g, s, acts).early != {}
    ensures s.early <= Final(g, s, acts).early
    decreases |acts|
  {
    if acts != [] {
      InvStep(g, s, acts[0]);
      if !Next(g, s, acts[0]).twice {
        RunInv(g, Next(g, s, acts[0]), acts[1..]);
      } else {
        assert acts[1..] == [];
      }
    }
  }

  /** A body count moves only when a running node's turn comes while the token is not cancelled. */
  lemma BodiesMove(g: Dag, s: State, a: Action)
    requires Enabled(g, s, a) && Next(g, s, a).bodies != s.bodies
    ensures a.Step? && s.nodes[a.i].Running? && !s.canceled
    ensures Next(g, s, a).bodies == s.bodies[a.i := s.bodies[a.i] + 1]
  {
  }

  /** Once the token is cancelled no body is called any more, in any run; the token stays so. */
  lemma {:induction false} CanceledRunsNothing(g: Dag, s: State, acts: seq<Action>)
    requires Executable(g, s, acts) && s.canceled
    ensures Final(g, s, acts).bodies == s.bodies && Final(g, s, acts).canceled
    decreases |acts|
  {
    if acts != [] {
      if Next(g, s, acts[0]).bodies != s.bodies {
        BodiesMove(g, s, acts[0]);
      }
      CanceledRunsNothing(g, Next(g, s, acts[0]), acts[1..]);
    }
  }

  ghost predicate NobodyPosting(s: State) {
    forall i :: 0 <= i < |s.nodes| ==> !s.nodes[i].Dispatching?
  }

  lemma SettledMeansNoEarly(g: Dag, s: State)
    requires Inv(g, s) && s.scan == |g.deps| && NobodyPosting(s)
    ensures s.early == {}
  {
    forall j | j in s.early
      ensures false
    {
      assert NodeInv(g, s, j);
      PostersZero(g, s.nodes, j, |s.nodes|);
    }
  }

  /** When one run dispatches a node twice: some node was released while the scan had still to
      read its counter. A run followed until the scan is over and no post is pending, or until
      the second dispatch, decides it. Which graphs have such a run is TwiceIffOvertaken. */
  lemma DispatchedTwiceIffReleasedEarly(g: Dag, acts: seq<Action>)
    requires ValidDag(g) && Executable(g, Init(g), acts)
    requires var s := Final(g, Init(g), acts); s.twice || (s.scan == |g.deps| && NobodyPosting(s))
    ensures Final(g, Init(g), acts).twice <==> Final(g, Init(g), acts).early != {}
  {
    InitInv(g);
    RunInv(g, Init(g), acts);
    if !Final(g, Init(g), acts).twice {
      SettledMeansNoEarly(g, Final(g, Init(g), acts));
    }
  }

  ghost predicate EdgeFree(g: Dag) {
    forall j :: 0 <= j < |g.deps| ==> g.deps[j] == []
  }

  lemma EdgeFreeHasNoSuccessors(g: Dag, i: nat)
    requires ValidDag(g) && EdgeFree(g) && i < |g.succ|
    ensures g.succ[i] == []
  {
    if g.succ[i] != [] {
      SuccessorHasDependency(g, i, 0);
    }
  }

  lemma SuccessorHasDependency(g: Dag, i: nat, k: nat)
    requires ValidDag(g) && i < |g.succ| && k < |g.succ[i]|
    ensures g.succ[i][k] < |g.deps| && i in g.deps[g.succ[i][k]]
  {
    var j := g.succ[i][k];
    OccIn(g.succ[i], j);
    OccIn(g.deps[j], i);
    assert Occ(g.succ[i], j) == Occ(g.deps[j], i);
  }

  /** No node can be released early once the scan is over, nor in a graph without edges. */
  lemma SafeStep(g: Dag, s: State, a: Action)
    requires Inv(g, s) && s.early == {} && Enabled(g, s, a)
    requires s.scan == |g.deps| || EdgeFree(g)
    ensures Inv(g, Next(g, s, a)) && Next(g, s, a).early == {}
    ensures s.scan == |g.deps| ==> Next(g, s, a).scan == |g.deps|
  {
    InvStep(g, s, a);
    if EdgeFree(g) && a.Step? {
      EdgeFreeHasNoSuccessors(g, a.i);
    }
  }

  lemma {:induction false} SafeRun(g: Dag, s: State, acts: seq<Action>)
    requires Inv(g, s) && s.early == {} && Executable(g, s, acts)
    requires s.scan == |g.deps| || EdgeFree(g)
    ensures Inv(g, Final(g, s, acts)) && Final(g, s, acts).early == {}
    decreases |acts|
  {
    if acts != [] {
      SafeStep(g, s, acts[0]);
      SafeRun(g, Next(g, s, acts[0]), acts[1..]);
    }
  }

  ghost predicate NoBodyDone(s: State) {
    forall i :: 0 <= i < |s.nodes| ==> !BodyDone(s.nodes[i])
  }

  lemma {:induction false} ScanningRun(g: Dag, s: State, acts: seq<Action>)
    requires Inv(g, s) && s.early == {} && Executable(g, s, acts) && NoBodyDone(s)
    requires forall k :: 0 <= k < |acts| ==> !acts[k].Step?
    ensures Inv(g, Final(g, s, acts)) && Final(g, s, acts).early == {} && NoBodyDone(Final(g, s, acts))
    decreases |acts|
  {
    if acts != [] {
      InvStep(g, s, acts[0]);
      ScanningRun(g, Next(g, s, acts[0]), acts[1..]);
    }
  }

  lemma {:induction false} FinalSplit(g: Dag, s: State, a: seq<Action>, b: seq<Action>)
    requires Executable(g, s, a + b)
    ensures Executable(g, s, a) && Executable(g, Final(g, s, a), b)
    ensures Final(g, s, a + b) == Final(g, Final(g, s, a), b)
    decreases |a|
  {
    if a == [] {
      assert a + b == b;
    } else {
      assert (a + b)[1..] == a[1..] + b;
      FinalSplit(g, Next(g, s, a[0]), a[1..], b);
    }
  }

  /** Exactly-once, deferred executor: if no node starts before the scan has ended, no
      interleaving afterwards dispatches a node twice. */
  lemma DeferredDispatchesOnce(g: Dag, scans: seq<Action>, rest: seq<Action>)
    requires ValidDag(g) && Executable(g, Init(g), scans + rest)
    requires forall k :: 0 <= k < |scans| ==> !scans[k].Step?
    requires Executable(g, Init(g), scans) && Final(g, Init(g), scans).scan == |g.deps|
    ensures Inv(g, Final(g, Init(g), scans + rest)) && Final(g, Init(g), scans + rest).early == {}
  {
    InitInv(g);
    FinalSplit(g, Init(g), scans, rest);
    ScanningRun(g, Init(g), scans);
    SafeRun(g, Final(g, Init(g), scans), rest);
  }

  /** Exactly-once, no edges: true on every executor and in every interleaving. */
  lemma EdgeFreeDispatchesOnce(g: Dag, acts: seq<Action>)
    requires ValidDag(g) && EdgeFree(g) && Executable(g, Init(g), acts)
    ensures Inv(g, Final(g, Init(g), acts)) && Final(g, Init(g), acts).early == {}
  {
    InitInv(g);
    SafeRun(g, Init(g), acts);
  }

  /** A node is posted, let alone run, only after the bodies of all its dependencies. */
  lemma DependenciesFirst(g: Dag, s: State, j: nat)
    requires Inv(g, s) && j < |s.nodes| && !s.nodes[j].Waiting?
    ensures forall i :: i in g.deps[j] ==> i < |s.nodes| && BodyDone(s.nodes[i])
  {
    assert NodeInv(g, s, j);
    if g.deps[j] != [] {
      EmptyCounterMeansDepsDone(g, s, j);
    }
  }

  /** While a node has still to count itself, the countdown is not over. */
  lemma CountdownGoesOn(g: Dag, s: State, i: nat)
    requires Inv(g, s) && i < |s.nodes| && !Counted(s.nodes[i])
    ensures s.remainingNodes > 0
  {
    CountsBounds(s.nodes, |s.nodes|);
  }

  /** The promise is set once, and exactly when every node has completed. */
  lemma PromiseSetIffAllDone(g: Dag, s: State)
    requires Inv(g, s) && |g.deps| > 0
    ensures s.sets <= 1
    ensures s.sets == 1 <==> forall i :: 0 <= i < |s.nodes| ==> s.nodes[i].Done?
  {
    CountsBounds(s.nodes, |s.nodes|);
  }

  // ---------------------------------------------------------------- progress

  lemma {:induction false} AllReceived(g: Dag, nodes: seq<NodeState>, j: nat, m: nat)
    requires ValidDag(g) && NodesShape(g, nodes) && j < |g.deps| && m <= |g.succ|
    requires forall i :: i in g.deps[j] ==> i < |nodes| && nodes[i].Done?
    ensures Received(g, nodes, j, m) == OccBelow(g.deps[j], m)
  {
    if m > 0 {
      AllReceived(g, nodes, j, m - 1);
      OccIn(g.deps[j], m - 1);
      OccWithin(g.succ[m - 1], Progress(g, nodes[m - 1], m - 1), j);
      assert g.succ[m - 1][..|g.succ[m - 1]|] == g.succ[m - 1];
    }
  }

  /** Nothing left to run: every node waits or is done. */
  ghost predicate Quiescent(g: Dag, s: State) {
    forall i: nat :: i < |g.deps| ==> !Enabled(g, s, Step(i))
  }

  lemma {:induction false} QuiescentNodeIsDone(g: Dag, s: State, rank: seq<nat>, j: nat)
    requires Inv(g, s) && s.early == {} && s.scan == |g.deps| && Ranked(g.deps, rank) && Quiescent(g, s) && j < |g.deps|
    ensures s.nodes[j].Done?
    decreases rank[j]
  {
    forall i: nat | i < |g.deps|
      ensures s.nodes[i].Waiting? || s.nodes[i].Done?
    {
      assert !Enabled(g, s, Step(i));
    }
    if s.nodes[j].Waiting? {
      assert NodeInv(g, s, j);
      PostersZero(g, s.nodes, j, |s.nodes|);
      forall i | i in g.deps[j]
        ensures i < |s.nodes| && s.nodes[i].Done?
      {
        var k :| 0 <= k < |g.deps[j]| && g.deps[j][k] == i;
        QuiescentNodeIsDone(g, s, rank, i);
      }
      NoCounterLeft(g, s, j);
      assert false;
    }
  }

  lemma NoCounterLeft(g: Dag, s: State, j: nat)
    requires Inv(g, s) && j < |g.deps|
    requires forall i :: i in g.deps[j] ==> i < |s.nodes| && s.nodes[i].Done?
    ensures s.remainingDeps[j] == 0
  {
    AllReceived(g, s.nodes, j, |g.deps|);
    OccBelowAll(g.deps[j], |g.deps|);
    assert s.remainingDeps[j] + Received(g, s.nodes, j, |g.deps|) == |g.deps[j]|;
  }

  /** An acyclic graph never stalls: when nothing more can run, every node has completed, the
      promise is set, and each body ran exactly once unless the run was cancelled. */
  lemma AcyclicNeverStalls(g: Dag, s: State)
    requires Inv(g, s) && s.early == {} && s.scan == |g.deps| > 0 && Acyclic(g.deps) && Quiescent(g, s)
    ensures forall i :: 0 <= i < |s.nodes| ==> s.nodes[i].Done? && s.bodies[i] <= 1
    ensures s.sets == 1
    ensures !s.canceled ==> forall i :: 0 <= i < |s.nodes| ==> s.bodies[i] == 1
  {
    var rank: seq<nat> :| Ranked(g.deps, rank);
    forall j | 0 <= j < |s.nodes|
      ensures s.nodes[j].Done?
    {
      QuiescentNodeIsDone(g, s, rank, j);
    }
    PromiseSetIffAllDone(g, s);
  }

  /** And only acyclic graphs complete: a knot of nodes that wait for one another waits for ever,
      so the promise is never set. */
  ghost predicate AllWaiting(s: State, knot: set<nat>) {
    forall j :: j in knot ==> j < |s.nodes| && s.nodes[j].Waiting?
  }

  ghost predicate NoneBodyDone(s: State, knot: set<nat>) {
    forall j :: j in knot ==> j < |s.nodes| && !BodyDone(s.nodes[j])
  }

  lemma KnotStep(g: Dag, s: State, knot: set<nat>)
    requires Inv(g, s) && Knot(g.deps, knot) && NoneBodyDone(s, knot)
    ensures AllWaiting(s, knot)
  {
    forall j | j in knot
      ensures j < |s.nodes| && s.nodes[j].Waiting?
    {
      assert WaitsInside(g.deps, knot, j);
      if !s.nodes[j].Waiting? {
        DependenciesFirst(g, s, j);
      }
    }
  }

  /** One step moves a node that waits at most to Posted. */
  lemma WaitingMovesToPosted(g: Dag, s: State, a: Action, j: nat)
    requires Enabled(g, s, a) && j < |s.nodes| && s.nodes[j].Waiting?
    ensures |Next(g, s, a).nodes| == |s.nodes| && !BodyDone(Next(g, s, a).nodes[j])
  {
  }

  lemma {:induction false} KnotWaits(g: Dag, s: State, acts: seq<Action>, knot: set<nat>)
    requires Inv(g, s) && s.early == {} && (s.scan == |g.deps| || EdgeFree(g))
    requires Executable(g, s, acts) && Knot(g.deps, knot) && AllWaiting(s, knot)
    ensures Inv(g, Final(g, s, acts)) && AllWaiting(Final(g, s, acts), knot)
    decreases |acts|
  {
    if acts != [] {
      var s' := Next(g, s, acts[0]);
      SafeStep(g, s, acts[0]);
      forall j | j in knot
        ensures j < |s'.nodes| && !BodyDone(s'.nodes[j])
      {
        WaitingMovesToPosted(g, s, acts[0], j);
      }
      KnotStep(g, s', knot);
      KnotWaits(g, s', acts[1..], knot);
    }
  }

  /** So its promise is never set. */
  lemma KnotNeverCompletes(g: Dag, s: State, acts: seq<Action>, knot: set<nat>)
    requires Inv(g, s) && s.early == {} && s.scan == |g.deps|
    requires Executable(g, s, acts) && Knot(g.deps, knot) && AllWaiting(s, knot)
    ensures Final(g, s, acts).sets == 0
  {
    KnotWaits(g, s, acts, knot);
    var j :| j in knot;
    assert Final(g, s, acts).nodes[j].Waiting?;
    PromiseSetIffAllDone(g, Final(g, s, acts));
  }

  /** Exactly the graphs without a cycle complete: on a deferred executor, whatever the order of
      events, when nothing more can run the promise has been set if and only if no node depends on
      itself through others. */
  lemma CompletesIffNoCycle(g: Dag, scans: seq<Action>, rest: seq<Action>)
    requires ValidDag(g) && |g.deps| > 0 && Executable(g, Init(g), scans + rest)
    requires forall k :: 0 <= k < |scans| ==> !scans[k].Step?
    requires Executable(g, Init(g), scans) && Final(g, Init(g), scans).scan == |g.deps|
    requires Quiescent(g, Final(g, Init(g), scans + rest))
    ensures Final(g, Init(g), scans + rest).sets == 1 <==> !exists c :: Cycle(g.deps, c)
  {
    var scanned := Final(g, Init(g), scans);
    DeferredDispatchesOnce(g, scans, rest);
    InitInv(g);
    ScanningRun(g, Init(g), scans);
    FinalSplit(g, Init(g), scans, rest);
    ScanStaysOver(g, scanned, rest);
    AcyclicIffNoCycle(g.deps);
    if c :| Cycle(g.deps, c) {
      CycleIsKnot(g.deps, c);
      var knot := set k | 0 <= k < |c| :: c[k];
      CycleInRange(g, c);
      KnotStep(g, scanned, knot);
      KnotNeverCompletes(g, scanned, rest, knot);
    } else {
      AcyclicNeverStalls(g, Final(g, scanned, rest));
    }
  }

  lemma {:induction false} ScanStaysOver(g: Dag, s: State, acts: seq<Action>)
    requires Inv(g, s) && s.early == {} && s.scan == |g.deps| && Executable(g, s, acts)
    ensures Final(g, s, acts).scan == |g.deps|
    decreases |acts|
  {
    if acts != [] {
      SafeStep(g, s, acts[0]);
      ScanStaysOver(g, Next(g, s, acts[0]), acts[1..]);
    }
  }

  lemma CycleInRange(g: Dag, c: seq<nat>)
    requires Cycle(g.deps, c)
    ensures forall k :: 0 <= k < |c| ==> c[k] < |g.deps|
  {
    forall k | 0 <= k < |c|
      ensures c[k] < |g.deps|
    {
      var at := if k == |c| - 1 then 0 else k;
      assert DependsOn(g.deps, c[at], c[at + 1]);
    }
  }

  function Weight(g: Dag, st: NodeState, i: nat): nat
    requires i < |g.succ| && NodeShape(g, st, i)
  {
    var l := |g.succ[i]|;
    match st
    case Waiting => 2 * l + 5
    case Posted => 2 * l + 4
    case Running => 2 * l + 3
    case Releasing(k) => 2 * (l - k) + 2
    case Dispatching(k) => 2 * (l - k) + 1
    case LastOne => 1
    case Done => 0
  }

  function Weights(g: Dag, nodes: seq<NodeState>, m: nat): nat
    requires NodesShape(g, nodes) && m <= |nodes|
  {
    if m == 0 then 0 else Weights(g, nodes, m - 1) + Weight(g, nodes[m - 1], m - 1)
  }

  lemma {:induction false} WeightsUpdate(g: Dag, nodes: seq<NodeState>, i: nat, st: NodeState, m: nat)
    requires NodesShape(g, nodes) && i < |nodes| && NodeShape(g, st, i) && m <= |nodes|
    ensures NodesShape(g, nodes[i := st])
    ensures Weights(g, nodes[i := st], m) ==
      Weights(g, nodes, m) + (if i < m then Weight(g, st, i) - Weight(g, nodes[i], i) else 0)
  {
    if m > 0 {
      WeightsUpdate(g, nodes, i, st, m - 1);
    }
  }

  function Work(g: Dag, s: State): int
    requires NodesShape(g, s.nodes)
  {
    Weights(g, s.nodes, |s.nodes|) + 2 * (|g.deps| - s.scan) - (if s.scanFound then 1 else 0) + (if s.canceled then 0 else 1)
  }

  lemma ScanUsesUpWork(g: Dag, s: State)
    requires Inv(g, s) && Enabled(g, s, Scan) && !Next(g, s, Scan).twice
    ensures NodesShape(g, Next(g, s, Scan).nodes) && Work(g, Next(g, s, Scan)) < Work(g, s)
  {
    if s.scanFound {
      WeightsUpdate(g, s.nodes, s.scan, Posted, |s.nodes|);
    }
  }

  lemma DispatchUsesUpWork(g: Dag, s: State, i: nat)
    requires Inv(g, s) && Enabled(g, s, Step(i)) && !Next(g, s, Step(i)).twice && s.nodes[i].Dispatching?
    ensures NodesShape(g, Next(g, s, Step(i)).nodes) && Work(g, Next(g, s, Step(i))) < Work(g, s)
  {
    var n := |s.nodes|;
    var mid := s.nodes[i := Releasing(s.nodes[i].k + 1)];
    WeightsUpdate(g, s.nodes, i, Releasing(s.nodes[i].k + 1), n);
    WeightsUpdate(g, mid, g.succ[i][s.nodes[i].k], Posted, n);
  }

  lemma OwnStepUsesUpWork(g: Dag, s: State, i: nat)
    requires Inv(g, s) && Enabled(g, s, Step(i)) && !s.nodes[i].Dispatching?
    ensures NodesShape(g, Next(g, s, Step(i)).nodes) && Work(g, Next(g, s, Step(i))) < Work(g, s)
  {
    var st := Next(g, s, Step(i)).nodes[i];
    assert NodeShape(g, st, i) && Weight(g, st, i) < Weight(g, s.nodes[i], i);
    WeightsUpdate(g, s.nodes, i, st, |s.nodes|);
    assert Next(g, s, Step(i)).nodes == s.nodes[i := st];
  }

  /** Every step uses up work, so no run goes on for ever. */
  lemma StepsUseUpWork(g: Dag, s: State, a: Action)
    requires Inv(g, s) && Enabled(g, s, a) && !Next(g, s, a).twice
    ensures NodesShape(g, Next(g, s, a).nodes) && Work(g, Next(g, s, a)) < Work(g, s)
  {
    match a {
      case Cancel =>
      case Scan => ScanUsesUpWork(g, s);
      case Step(i) =>
        if s.nodes[i].Dispatching? {
          DispatchUsesUpWork(g, s, i);
        } else {
          OwnStepUsesUpWork(g, s, i);
        }
    }
  }

  lemma {:induction false} RunLengthBound(g: Dag, s: State, acts: seq<Action>)
    requires Inv(g, s) && s.early == {} && Executable(g, s, acts)
    requires s.scan == |g.deps| || EdgeFree(g)
    ensures |acts| <= Work(g, s)
    decreases |acts|
  {
    if acts == [] {
      assert s.scanFound ==> s.scan < |g.deps|;
    } else {
      SafeStep(g, s, acts[0]);
      var s' := Next(g, s, acts[0]);
      StepsUseUpWork(g, s, acts[0]);
      RunLengthBound(g, s', acts[1..]);
    }
  }

  // ---------------------------------------------------------------- which graphs dispatch twice

  lemma Seen(g: Dag, s: State, a: Action, rest: seq<Action>, s': State)
    requires Enabled(g, s, a) && Next(g, s, a) == s' && Executable(g, s', rest)
    ensures Executable(g, s, [a] + rest) && Final(g, s, [a] + rest) == Final(g, s', rest)
  {
    assert ([a] + rest)[1..] == rest;
  }

  lemma {:induction false} FinalJoin(g: Dag, s: State, a: seq<Action>, b: seq<Action>)
    requires Executable(g, s, a) && Executable(g, Final(g, s, a), b)
    ensures Executable(g, s, a + b) && Final(g, s, a + b) == Final(g, Final(g, s, a), b)
    decreases |a|
  {
    if a == [] {
      assert a + b == b;
    } else {
      assert (a + b)[1..] == a[1..] + b;
      FinalJoin(g, Next(g, s, a[0]), a[1..], b);
    }
  }

  /** An order in which nodes can run while the scan has not gone past m: each is a root below m
      or comes after all its dependencies. */
  ghost predicate RunsBefore(g: Dag, m: nat, order: seq<nat>) {
    forall k :: 0 <= k < |order| ==> RunsAt(g, m, order, k)
  }

  ghost predicate RunsAt(g: Dag, m: nat, order: seq<nat>, k: nat)
    requires k < |order|
  {
    order[k] < |g.deps| && if g.deps[order[k]] == [] then order[k] < m else AllIn(g.deps[order[k]], order[..k])
  }

  predicate AllIn(xs: seq<nat>, ys: seq<nat>) {
    forall x :: x in xs ==> x in ys
  }

  /** Node j waits for something, and all of it can run before the scan reads j's counter. */
  ghost predicate OvertakesScan(g: Dag, j: nat, order: seq<nat>) {
    j < |g.deps| && g.deps[j] != [] && AllIn(g.deps[j], order) && RunsBefore(g, j, order)
  }

  ghost predicate PostedIn(nodes: seq<NodeState>, order: seq<nat>) {
    forall i :: 0 <= i < |nodes| && !nodes[i].Waiting? ==> i in order
  }

  lemma OrderGrows(g: Dag, m: nat, order: seq<nat>, j: nat, m': nat)
    requires RunsBefore(g, m, order) && m <= m' && j < |g.deps|
    requires if g.deps[j] == [] then j < m' else AllIn(g.deps[j], order)
    ensures RunsBefore(g, m', order + [j])
  {
    var grown := order + [j];
    forall k | 0 <= k < |grown|
      ensures RunsAt(g, m', grown, k)
    {
      if k < |order| {
        assert RunsAt(g, m, order, k) && grown[..k] == order[..k];
      } else {
        assert grown[..k] == order;
      }
    }
  }

  lemma OrderLasts(g: Dag, m: nat, order: seq<nat>, m': nat)
    requires RunsBefore(g, m, order) && m <= m'
    ensures RunsBefore(g, m', order)
  {
    forall k | 0 <= k < |order|
      ensures RunsAt(g, m', order, k)
    {
      assert RunsAt(g, m, order, k);
    }
  }

  function ScanFront(s: State): nat {
    if s.scanFound then s.scan + 1 else s.scan
  }

  /** The order in which nodes are posted is one in which they can run. */
  lemma PostingExtendsOrder(g: Dag, s: State, a: Action, order: seq<nat>, p: nat)
    requires Inv(g, s) && Enabled(g, s, a) && !Next(g, s, a).twice && p < |g.deps|
    requires RunsBefore(g, ScanFront(s), order) && PostedIn(s.nodes, order)
    requires Next(g, s, a).nodes[p].Posted? && s.nodes[p].Waiting?
    ensures RunsBefore(g, ScanFront(Next(g, s, a)), order + [p])
  {
    var s' := Next(g, s, a);
    InvStep(g, s, a);
    assert NodeInv(g, s', p);
    if g.deps[p] != [] {
      DependenciesFirst(g, s', p);
      forall i | i in g.deps[p]
        ensures i in order
      {
        BodiesTakeTime(g, s, a, i);
      }
    }
    OrderGrows(g, ScanFront(s), order, p, ScanFront(s'));
  }

  /** A node whose body is over had been posted before this step. */
  lemma BodiesTakeTime(g: Dag, s: State, a: Action, i: nat)
    requires Enabled(g, s, a) && i < |s.nodes| && i < |Next(g, s, a).nodes| && BodyDone(Next(g, s, a).nodes[i])
    ensures !s.nodes[i].Waiting?
  {
  }

  /** A step posts at most one node. */
  lemma PostsAtMostOne(g: Dag, s: State, a: Action) returns (p: nat)
    requires Enabled(g, s, a)
    ensures var s' := Next(g, s, a);
      && |s'.nodes| == |s.nodes| && ScanFront(s) <= ScanFront(s')
      && (p < |s.nodes| ==> s.nodes[p].Waiting? && s'.nodes[p].Posted?)
      && forall i :: 0 <= i < |s.nodes| && i != p && s.nodes[i].Waiting? ==> s'.nodes[i].Waiting?
  {
    p := |s.nodes|;
    match a {
      case Cancel =>
      case Scan =>
        if s.scanFound && s.nodes[s.scan].Waiting? {
          p := s.scan;
        }
      case Step(i) =>
        if s.nodes[i].Dispatching? && s.nodes[g.succ[i][s.nodes[i].k]].Waiting? {
          p := g.succ[i][s.nodes[i].k];
        }
    }
  }

  lemma OrderedStep(g: Dag, s: State, a: Action, order: seq<nat>) returns (order': seq<nat>)
    requires Inv(g, s) && Enabled(g, s, a) && !Next(g, s, a).twice
    requires RunsBefore(g, ScanFront(s), order) && PostedIn(s.nodes, order)
    ensures RunsBefore(g, ScanFront(Next(g, s, a)), order') && PostedIn(Next(g, s, a).nodes, order')
  {
    var p := PostsAtMostOne(g, s, a);
    if p < |s.nodes| {
      PostingExtendsOrder(g, s, a, order, p);
      order' := order + [p];
    } else {
      OrderLasts(g, ScanFront(s), order, ScanFront(Next(g, s, a)));
      order' := order;
    }
  }

  lemma EarlyStep(g: Dag, s: State, a: Action, order: seq<nat>)
    requires Inv(g, s) && Enabled(g, s, a) && s.early == {} && Next(g, s, a).early != {}
    requires RunsBefore(g, ScanFront(s), order) && PostedIn(s.nodes, order)
    ensures exists j: nat :: OvertakesScan(g, j, order)
  {
    var i := a.i;
    var j, s' := g.succ[i][s.nodes[i].k], Next(g, s, a);
    InvStep(g, s, a);
    SuccessorHasDependency(g, i, s.nodes[i].k);
    EmptyCounterMeansDepsDone(g, s', j);
    forall d | d in g.deps[j]
      ensures d in order
    {
      BodiesTakeTime(g, s, a, d);
    }
    OrderLasts(g, ScanFront(s), order, j);
    assert OvertakesScan(g, j, order);
  }

  lemma {:induction false} EarlyMeansOvertaken(g: Dag, s: State, acts: seq<Action>, order: seq<nat>)
    requires Inv(g, s) && s.early == {} && Executable(g, s, acts) && Final(g, s, acts).early != {}
    requires RunsBefore(g, ScanFront(s), order) && PostedIn(s.nodes, order)
    ensures exists j: nat, o :: OvertakesScan(g, j, o)
    decreases |acts|
  {
    var s' := Next(g, s, acts[0]);
    InvStep(g, s, acts[0]);
    if s'.early != {} {
      EarlyStep(g, s, acts[0], order);
    } else {
      var order' := OrderedStep(g, s, acts[0], order);
      EarlyMeansOvertaken(g, s', acts[1..], order');
    }
  }

  /** Start alone, up to node m. */
  lemma {:induction false} ScanTo(g: Dag, m: nat) returns (acts: seq<Action>)
    requires ValidDag(g) && m <= |g.deps|
    ensures Executable(g, Init(g), acts) && forall k :: 0 <= k < |acts| ==> acts[k].Scan?
    ensures var s := Final(g, Init(g), acts); Inv(g, s) && s.scan == m && !s.scanFound
  {
    acts := [];
    InitInv(g);
    if m > 0 {
      acts := ScanTo(g, m - 1);
      ScanningRun(g, Init(g), acts);
      var s := Final(g, Init(g), acts);
      var more := ScanOne(g, s);
      FinalJoin(g, Init(g), acts, more);
      acts := acts + more;
    }
  }

  lemma ScanOne(g: Dag, s: State) returns (acts: seq<Action>)
    requires Inv(g, s) && s.early == {} && s.scan < |g.deps| && !s.scanFound
    ensures Executable(g, s, acts) && forall k :: 0 <= k < |acts| ==> acts[k].Scan?
    ensures var f := Final(g, s, acts); Inv(g, f) && f.scan == s.scan + 1 && !f.scanFound
  {
    var s1 := Next(g, s, Scan);
    InvStep(g, s, Scan);
    if s.remainingDeps[s.scan] == 0 {
      var s2 := Next(g, s1, Scan);
      InvStep(g, s1, Scan);
      Seen(g, s1, Scan, [], s2);
      Seen(g, s, Scan, [Scan], s1);
      acts := [Scan] + [Scan];
    } else {
      Seen(g, s, Scan, [], s1);
      acts := [Scan];
    }
  }

  /** The scan pauses while everything posted runs to its end. */
  lemma {:induction false} RunPosted(g: Dag, s: State) returns (acts: seq<Action>)
    requires Inv(g, s)
    ensures Executable(g, s, acts)
    ensures var f := Final(g, s, acts);
      f.twice || (Inv(g, f) && Quiescent(g, f) && f.scan == s.scan && f.scanFound == s.scanFound)
    decreases Work(g, s)
  {
    acts := [];
    if i: nat :| i < |g.deps| && Enabled(g, s, Step(i)) {
      var s' := Next(g, s, Step(i));
      NodeStep(g, s, i);
      if !s'.twice {
        acts := RunPosted(g, s');
      }
      Seen(g, s, Step(i), acts, s');
      acts := [Step(i)] + acts;
    }
  }

  lemma NodeStep(g: Dag, s: State, i: nat)
    requires Inv(g, s) && Enabled(g, s, Step(i))
    ensures var s' := Next(g, s, Step(i));
      && s'.scan == s.scan && s'.scanFound == s.scanFound
      && (!s'.twice ==> Inv(g, s') && 0 <= Work(g, s') < Work(g, s))
  {
    InvStep(g, s, Step(i));
    if !Next(g, s, Step(i)).twice {
      StepsUseUpWork(g, s, Step(i));
      WorkLeft(g, Next(g, s, Step(i)));
    }
  }

  lemma WorkLeft(g: Dag, s: State)
    requires Inv(g, s)
    ensures Work(g, s) >= 0
  {
    assert s.scanFound ==> s.scan < |g.deps|;
  }

  /** With the scan at m and nothing left to run, everything that can run before m is done. */
  lemma {:induction false} OrderIsDone(g: Dag, s: State, order: seq<nat>, k: nat)
    requires Inv(g, s) && Quiescent(g, s) && RunsBefore(g, s.scan, order) && k < |order|
    ensures order[k] < |s.nodes| && s.nodes[order[k]].Done?
    decreases k
  {
    var j := order[k];
    assert RunsAt(g, s.scan, order, k);
    assert !Enabled(g, s, Step(j));
    assert NodeInv(g, s, j);
    if g.deps[j] != [] {
      forall d | d in g.deps[j]
        ensures d < |s.nodes| && s.nodes[d].Done?
      {
        var e :| 0 <= e < k && order[e] == d;
        OrderIsDone(g, s, order, e);
      }
      NoCounterLeft(g, s, j);
      NobodyPosts(g, s, j);
    }
  }

  lemma NobodyPosts(g: Dag, s: State, j: nat)
    requires Inv(g, s) && Quiescent(g, s)
    ensures Posters(g, s.nodes, j, |s.nodes|) == 0
  {
    forall i | 0 <= i < |s.nodes|
      ensures !Posts(g, s.nodes[i], i, j)
    {
      assert !Enabled(g, s, Step(i));
    }
    PostersZero(g, s.nodes, j, |s.nodes|);
  }

  /** A node that can overtake the scan is dispatched twice in some run: the scan pauses before
      it, everything posted runs, and the scan goes on. */
  lemma OvertakenDispatchesTwice(g: Dag, j: nat, order: seq<nat>) returns (acts: seq<Action>)
    requires ValidDag(g) && OvertakesScan(g, j, order)
    ensures Executable(g, Init(g), acts) && Final(g, Init(g), acts).twice
  {
    var scans := ScanTo(g, j);
    var s := Final(g, Init(g), scans);
    var runs := RunPosted(g, s);
    var f := Final(g, s, runs);
    FinalJoin(g, Init(g), scans, runs);
    acts := scans + runs;
    if !f.twice {
      ReadyWhenReached(g, f, j, order);
      var more := ScanAgain(g, f);
      FinalJoin(g, Init(g), acts, more);
      acts := acts + more;
    }
  }

  lemma ReadyWhenReached(g: Dag, s: State, j: nat, order: seq<nat>)
    requires Inv(g, s) && Quiescent(g, s) && OvertakesScan(g, j, order) && s.scan == j && !s.scanFound
    ensures s.remainingDeps[j] == 0 && !s.nodes[j].Waiting? && j in s.early
  {
    forall d | d in g.deps[j]
      ensures d < |s.nodes| && s.nodes[d].Done?
    {
      var k :| 0 <= k < |order| && order[k] == d;
      OrderIsDone(g, s, order, k);
    }
    NoCounterLeft(g, s, j);
    NobodyPosts(g, s, j);
    assert NodeInv(g, s, j);
  }

  lemma ScanAgain(g: Dag, s: State) returns (acts: seq<Action>)
    requires Inv(g, s) && s.scan < |g.deps| && !s.scanFound
    requires s.remainingDeps[s.scan] == 0 && !s.nodes[s.scan].Waiting?
    ensures Executable(g, s, acts) && Final(g, s, acts).twice
  {
    var s1 := Next(g, s, Scan);
    Seen(g, s1, Scan, [], Next(g, s1, Scan));
    Seen(g, s, Scan, [Scan], s1);
    acts := [Scan] + [Scan];
  }

  ghost predicate CanDispatchTwice(g: Dag) {
    exists acts :: Executable(g, Init(g), acts) && Final(g, Init(g), acts).twice
  }

  /** Exactly the graphs that an executor can make dispatch a node twice: those with a node all
      of whose dependencies, direct or not, can be started and finished before the scan reads it. */
  lemma TwiceIffOvertaken(g: Dag)
    requires ValidDag(g)
    ensures CanDispatchTwice(g) <==> exists j: nat, order :: OvertakesScan(g, j, order)
  {
    if acts :| Executable(g, Init(g), acts) && Final(g, Init(g), acts).twice {
      InitInv(g);
      RunInv(g, Init(g), acts);
      EarlyMeansOvertaken(g, Init(g), acts, []);
    }
    if j: nat, order :| OvertakesScan(g, j, order) {
      var acts := OvertakenDispatchesTwice(g, j, order);
    }
  }

  lemma EarlierRunsBefore(g: Dag, j: nat)
    requires EarlierOnly(g.deps) && j < |g.deps|
    ensures var order := seq(j, i => i); RunsBefore(g, j, order) && AllIn(g.deps[j], order)
  {
    var order := seq(j, i => i);
    forall k | 0 <= k < j
      ensures RunsAt(g, j, order, k)
    {
      forall d | d in g.deps[k]
        ensures d in order[..k]
      {
        assert order[..k][d] == d;
      }
    }
    forall d | d in g.deps[j]
      ensures d in order
    {
      assert order[d] == d;
    }
  }

  /** So of the graphs built by adding nodes after their dependencies, exactly those without a
      single edge are safe on every executor. */
  lemma TwiceIffEdge(g: Dag)
    requires ValidDag(g) && EarlierOnly(g.deps)
    ensures CanDispatchTwice(g) <==> !EdgeFree(g)
  {
    TwiceIffOvertaken(g);
    if j :| 0 <= j < |g.deps| && g.deps[j] != [] {
      EarlierRunsBefore(g, j);
      assert OvertakesScan(g, j, seq(j, i => i));
    }
  }

  // ---------------------------------------------------------------- the early release, concretely

  function Chain(): Dag {
    Dag([[], [0]], [[1], []])
  }

  /** The scan dispatches node 0, which runs at once up to emptying node 1's counter. */
  lemma ChainReleasesEarly()
    ensures var acts := [Scan, Scan, Step(0), Step(0), Step(0)];
      Executable(Chain(), Init(Chain()), acts) && Final(Chain(), Init(Chain()), acts) == Released()
  {
    var g := Chain();
    var s0 := State([Waiting, Waiting], [0, 1], 2, 0, false, false, [0, 0], 0, {}, false);
    assert Init(g) == s0;
    var s1 := s0.(scanFound := true);
    var s2 := s1.(scan := 1, scanFound := false, nodes := [Posted, Waiting]);
    var s3 := s2.(nodes := [Running, Waiting]);
    var s4 := s3.(nodes := [Releasing(0), Waiting], bodies := [1, 0]);
    Seen(g, s4, Step(0), [], Released());
    Seen(g, s3, Step(0), [Step(0)], s4);
    Seen(g, s2, Step(0), [Step(0), Step(0)], s3);
    Seen(g, s1, Scan, [Step(0), Step(0), Step(0)], s2);
    Seen(g, s0, Scan, [Scan, Step(0), Step(0), Step(0)], s1);
    assert [Scan] + [Scan, Step(0), Step(0), Step(0)] == [Scan, Scan, Step(0), Step(0), Step(0)];
  }

  function Released(): State {
    State([Dispatching(0), Waiting], [0, 0], 2, 1, false, false, [1, 0], 0, {1}, false)
  }

  lemma ChainDispatchesAgain()
    ensures var acts := [Step(0), Step(0), Scan, Scan];
      Executable(Chain(), Released(), acts) && Final(Chain(), Released(), acts).twice
  {
    var g, s5 := Chain(), Released();
    var s6 := s5.(nodes := [Releasing(1), Posted]);
    var s7 := s6.(nodes := [Done, Posted], remainingNodes := 1);
    var s8 := s7.(scanFound := true);
    var s9 := s8.(scan := 2, scanFound := false, twice := true);
    Seen(g, s8, Scan, [], s9);
    Seen(g, s7, Scan, [Scan], s8);
    Seen(g, s6, Step(0), [Scan, Scan], s7);
    Seen(g, s5, Step(0), [Step(0), Scan, Scan], s6);
    assert [Step(0)] + [Step(0), Scan, Scan] == [Step(0), Step(0), Scan, Scan];
  }

  /** Two nodes, the second waiting for the first, on an executor that runs a posted node at
      once: node 0 completes inside the scan and releases node 1, which the scan then finds
      with an empty counter and dispatches again. */
  lemma InlineChainDispatchesTwice()
    ensures ValidDag(Chain())
    ensures var acts := [Scan, Scan, Step(0), Step(0), Step(0)] + [Step(0), Step(0), Scan, Scan];
      Executable(Chain(), Init(Chain()), acts) && Final(Chain(), Init(Chain()), acts).twice
  {
    ChainIsValid();
    ChainReleasesEarly();
    ChainDispatchesAgain();
    FinalJoin(Chain(), Init(Chain()), [Scan, Scan, Step(0), Step(0), Step(0)], [Step(0), Step(0), Scan, Scan]);
  }

  lemma ChainIsValid()
    ensures ValidDag(Chain())
  {
    var g := Chain();
    assert [1][..0] == [] && [0][..0] == [];
    assert Occ([1], 0) == 0 && Occ([1], 1) == 1 && Occ([0], 0) == 1 && Occ([0], 1) == 0 && Occ([], 0) == 0 && Occ([], 1) == 0;
  }
}
