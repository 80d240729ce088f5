/** QueuedExecutor: work posted to it waits until its owner drains it. */
module Executors {

  class QueuedExecutor<T> {
    var pending: seq<T>

    constructor ()
      ensures pending == []
    {
      pending := [];
    }

    method Post(work: T)
      modifies this
      ensures pending == old(pending) + [work]
    {
      pending := pending + [work];
    }

    /** The locked half of Drain: what is posted from here on waits for the next call. */
    method TakeAll() returns (batch: seq<T>)
      modifies this
      ensures batch == old(pending) && pending == []
    {
      batch := [];
      batch, pending := pending, batch;
    }
  }
}

/** Start, Run and OnNodeComplete as code on a deferred executor, tied to the machine step by step. */
module TaskGraphExecutions {
  import opened Dependencies
  import opened Executors
  import opened Occurrences
  import opened TaskGraphMachine

  /** What a batch and the queue hold is exactly what the machine has posted. */
  ghost predicate Queued(m: State, batch: seq<nat>, pending: seq<nat>) {
    && (forall x :: x in batch ==> x < |m.nodes|)
    && (forall x :: x in pending ==> x < |m.nodes|)
    && forall x :: 0 <= x < |m.nodes| ==> Occ(batch, x) + Occ(pending, x) == if m.nodes[x].Posted? then 1 else 0
  }

  /** Nobody but `busy` is in the middle of its run. */
  ghost predicate Resting(m: State, busy: int) {
    forall x :: 0 <= x < |m.nodes| && x != busy ==> m.nodes[x].Waiting? || m.nodes[x].Posted? || m.nodes[x].Done?
  }

  /** The bodies that ran, in order: each the number of times the machine says, and, while the
      token is not cancelled, each after the bodies of its dependencies. */
  ghost predicate Logged(g: Dag, m: State, log: seq<nat>) {
    && |m.bodies| == |g.deps|
    && (forall x :: x in log ==> x < |g.deps|)
    && (forall x :: 0 <= x < |g.deps| ==> Occ(log, x) == m.bodies[x])
    && forall k :: 0 <= k < |log| ==> DepsBefore(g, log, k)
  }

  ghost predicate DepsBefore(g: Dag, log: seq<nat>, k: nat)
    requires k < |log|
  {
    log[k] < |g.deps| && forall i :: i in g.deps[log[k]] ==> i in log[..k]
  }

  lemma LogGrows(g: Dag, m: State, log: seq<nat>, i: nat)
    requires Inv(g, m) && Logged(g, m, log) && i < |m.nodes| && m.nodes[i].Running? && !m.canceled
    ensures Logged(g, Next(g, m, Step(i)), log + [i])
  {
    var log' := log + [i];
    assert log'[..|log|] == log;
    DependenciesFirst(g, m, i);
    forall x | x in g.deps[i]
      ensures x in log
    {
      OccIn(log, x);
    }
    forall k | 0 <= k < |log'|
      ensures DepsBefore(g, log', k)
    {
      if k < |log| {
        assert log'[..k] == log[..k];
        assert DepsBefore(g, log, k);
      }
    }
    forall x | 0 <= x < |g.deps|
      ensures Occ(log', x) == Next(g, m, Step(i)).bodies[x]
    {
      OccSplit(log, [i], x);
    }
  }

  lemma PostedOnce(m: State, batch: seq<nat>, pending: seq<nat>, j: nat, m': State)
    requires Queued(m, batch, pending) && j < |m.nodes| && m.nodes[j].Waiting?
    requires |m'.nodes| == |m.nodes| && m'.nodes[j].Posted?
    requires forall x :: 0 <= x < |m.nodes| && x != j ==> m'.nodes[x].Posted? == m.nodes[x].Posted?
    ensures Queued(m', batch, pending + [j])
  {
    forall x | 0 <= x < |m.nodes|
      ensures Occ(batch, x) + Occ(pending + [j], x) == if m'.nodes[x].Posted? then 1 else 0
    {
      OccSplit(pending, [j], x);
    }
  }

  lemma TakenFromBatch(m: State, batch: seq<nat>, pending: seq<nat>, m': State)
    requires Queued(m, batch, pending) && batch != [] && |m'.nodes| == |m.nodes|
    requires batch[0] < |m.nodes| && !m'.nodes[batch[0]].Posted?
    requires forall x :: 0 <= x < |m.nodes| && x != batch[0] ==> m'.nodes[x].Posted? == m.nodes[x].Posted?
    ensures m.nodes[batch[0]].Posted?
    ensures Queued(m', batch[1..], pending)
  {
    assert forall x :: x in batch[1..] ==> x in batch;
    forall x | 0 <= x < |m.nodes|
      ensures Occ(batch, x) == Occ(batch[1..], x) + if x == batch[0] then 1 else 0
    {
      assert [batch[0]] + batch[1..] == batch;
      OccSplit([batch[0]], batch[1..], x);
    }
  }

  /** The machine states this code can be in between two statements. */
  ghost predicate Sound(g: Dag, m: State) {
    Inv(g, m) && m.early == {}
  }

  lemma ScanIsSafe(g: Dag, m: State)
    requires Sound(g, m) && m.scan < |g.deps|
    ensures Sound(g, Next(g, m, Scan))
  {
    InvStep(g, m, Scan);
  }

  /** A dispatch posts the successor and nothing else. */
  lemma DispatchPosts(g: Dag, m: State, i: nat)
    requires Sound(g, m) && m.scan == |g.deps| && i < |m.nodes| && m.nodes[i].Dispatching?
    ensures var j, k := g.succ[i][m.nodes[i].k], m.nodes[i].k;
      && m.nodes[j].Waiting? && j != i
      && Next(g, m, Step(i)) == m.(nodes := m.nodes[i := Releasing(k + 1)][j := Posted])
      && Sound(g, Next(g, m, Step(i)))
  {
    SafeStep(g, m, Step(i));
  }

  lemma NothingLeft(g: Dag, m: State)
    requires Sound(g, m) && m.scan == |g.deps| && Queued(m, [], []) && Resting(m, -1)
    ensures Quiescent(g, m)
  {
    forall x | 0 <= x < |m.nodes|
      ensures !m.nodes[x].Posted?
    {
      assert Occ([], x) == 0;
    }
  }

  lemma NothingPosted(m: State, pending: seq<nat>)
    requires Queued(m, [], pending) && forall x :: 0 <= x < |m.nodes| ==> !m.nodes[x].Posted?
    ensures pending == []
  {
    if pending != [] {
      OccIn(pending, pending[0]);
    }
  }

  lemma Undone(g: Dag, m: State, pending: seq<nat>)
    requires Inv(g, m) && Queued(m, [], pending) && pending != []
    ensures m.remainingNodes > 0
  {
    OccIn(pending, pending[0]);
    assert Occ([], pending[0]) == 0;
    CountdownGoesOn(g, m, pending[0]);
  }

  function LogAfter(log: seq<nat>, canceled: bool, batch: seq<nat>, k: nat): seq<nat>
    requires k <= |batch|
  {
    if canceled then log else log + batch[..k]
  }

  lemma LogAfterNext(log: seq<nat>, canceled: bool, batch: seq<nat>, k: nat)
    requires k < |batch|
    ensures LogAfter(log, canceled, batch, k + 1)
         == if canceled then LogAfter(log, canceled, batch, k) else LogAfter(log, canceled, batch, k) + [batch[k]]
  {
    assert batch[..k + 1] == batch[..k] + [batch[k]];
  }

  class TaskGraphExecution {
    const g: Dag
    const queue: QueuedExecutor<nat>
    var remainingDeps: seq<nat>
    var remainingNodes: nat
    var canceled: bool
    var log: seq<nat>
    var sets: nat
    ghost var m: State

    /** The code's fields are the machine's. */
    ghost predicate Agrees(batch: seq<nat>, busy: int)
      reads this, queue
    {
      && Sound(g, m)
      && remainingDeps == m.remainingDeps && remainingNodes == m.remainingNodes
      && canceled == m.canceled && sets == m.sets
      && Logged(g, m, log) && Queued(m, batch, queue.pending) && Resting(m, busy)
    }

    constructor (g: Dag, queue: QueuedExecutor<nat>)
      requires ValidDag(g) && |g.deps| > 0 && queue.pending == []
      ensures this.g == g && this.queue == queue && m == Init(g) && Agrees([], -1)
    {
      this.g, this.queue := g, queue;
      remainingDeps := seq(|g.deps|, j requires 0 <= j < |g.deps| => |g.deps[j]|);
      remainingNodes := |g.deps|;
      canceled, log, sets := false, [], 0;
      m := Init(g);
      new;
      InitInv(g);
    }

    method Cancel()
      requires Agrees([], -1) && m.scan == |g.deps|
      modifies this
      ensures Agrees([], -1) && canceled && m == old(m).(canceled := true)
      ensures log == old(log) && Work(g, m) <= old(Work(g, m))
    {
      if !canceled {
        InvStep(g, m, TaskGraphMachine.Cancel);
        m := Next(g, m, TaskGraphMachine.Cancel);
        canceled := true;
      }
    }

    method Start()
      requires Agrees([], -1) && m == Init(g)
      modifies this, queue
      ensures Agrees([], -1) && m.scan == |g.deps| && !m.canceled
      ensures log == old(log)
      ensures forall x :: x in queue.pending <==> 0 <= x < |g.deps| && g.deps[x] == []
    {
      NothingPosted(m, queue.pending);
      var i := 0;
      while i < |remainingDeps|
        invariant i <= |g.deps| == |remainingDeps| && Agrees([], -1) && m.scan == i && !m.scanFound && !m.canceled
        invariant log == old(log) && remainingDeps == old(remainingDeps)
        invariant forall x :: x in queue.pending <==> 0 <= x < i && remainingDeps[x] == 0
      {
        ScanNode(i);
        i := i + 1;
      }
    }

    method ScanNode(i: nat)
      requires Agrees([], -1) && m.scan == i < |g.deps| && !m.scanFound
      modifies this`m, queue
      ensures Agrees([], -1) && m.scan == i + 1 && !m.scanFound && m.canceled == old(m.canceled)
      ensures queue.pending == if remainingDeps[i] == 0 then old(queue.pending) + [i] else old(queue.pending)
    {
      if remainingDeps[i] == 0 {
        ScanFindsRoot();
        ScanPosts(i);
      } else {
        ScanPasses();
      }
    }

    ghost method ScanPasses()
      requires Agrees([], -1) && m.scan < |g.deps| && !m.scanFound && remainingDeps[m.scan] != 0
      modifies this`m
      ensures Agrees([], -1) && m == old(m).(scan := old(m.scan) + 1)
    {
      ScanIsSafe(g, m);
      m := Next(g, m, Scan);
    }

    ghost method ScanFindsRoot()
      requires Agrees([], -1) && m.scan < |g.deps| && !m.scanFound && remainingDeps[m.scan] == 0
      modifies this`m
      ensures Agrees([], -1) && m == old(m).(scanFound := true)
    {
      ScanIsSafe(g, m);
      m := Next(g, m, Scan);
    }

    method ScanPosts(i: nat)
      requires Agrees([], -1) && i == m.scan < |g.deps| && m.scanFound
      modifies this`m, queue
      ensures Agrees([], -1) && m == old(m).(scan := old(m.scan) + 1, scanFound := false, nodes := old(m.nodes)[old(m.scan) := Posted])
      ensures queue.pending == old(queue.pending) + [i]
    {
      ghost var before := m;
      assert NodeInv(g, m, m.scan);
      ScanIsSafe(g, m);
      PostedOnce(before, [], queue.pending, i, Next(g, m, Scan));
      queue.Post(i);
      m := Next(g, m, Scan);
    }

    method Run(i: nat, ghost rest: seq<nat>)
      requires Agrees([i] + rest, -1) && m.scan == |g.deps|
      modifies this, queue
      ensures Agrees(rest, -1) && m.scan == |g.deps| && canceled == old(canceled)
      ensures log == if canceled then old(log) else old(log) + [i]
      ensures remainingNodes == old(remainingNodes) - 1
      ensures Work(g, m) < old(Work(g, m))
    {
      Begin(i, rest);
      RunBody(i, rest);
      OnNodeComplete(i, rest);
    }

    ghost method Begin(i: nat, rest: seq<nat>)
      requires Agrees([i] + rest, -1) && m.scan == |g.deps|
      modifies this`m
      ensures Agrees(rest, i) && m.scan == |g.deps| && i < |m.nodes| && m.nodes[i].Running?
      ensures Work(g, m) < old(Work(g, m))
    {
      var before := m;
      assert i in [i] + rest && ([i] + rest)[0] == i && ([i] + rest)[1..] == rest;
      assert Occ([i] + rest, i) > 0 by { OccIn([i] + rest, i); }
      assert m.nodes[i].Posted?;
      SafeStep(g, m, Step(i));
      StepsUseUpWork(g, m, Step(i));
      m := Next(g, m, Step(i));
      TakenFromBatch(before, [i] + rest, queue.pending, m);
    }

    method RunBody(i: nat, ghost rest: seq<nat>)
      requires Agrees(rest, i) && m.scan == |g.deps| && i < |m.nodes| && m.nodes[i].Running?
      modifies this
      ensures Agrees(rest, i) && m.scan == |g.deps| && i < |m.nodes| && m.nodes[i] == Releasing(0)
      ensures canceled == old(canceled) && remainingNodes == old(remainingNodes)
      ensures log == if canceled then old(log) else old(log) + [i]
      ensures Work(g, m) < old(Work(g, m))
    {
      SafeStep(g, m, Step(i));
      StepsUseUpWork(g, m, Step(i));
      if !canceled {
        LogGrows(g, m, log, i);
        log := log + [i];
      }
      m := Next(g, m, Step(i));
    }

    method OnNodeComplete(i: nat, ghost rest: seq<nat>)
      requires Agrees(rest, i) && m.scan == |g.deps| && i < |m.nodes| && m.nodes[i] == Releasing(0)
      modifies this, queue
      ensures Agrees(rest, -1) && m.scan == |g.deps| && canceled == old(canceled)
      ensures log == old(log) && remainingNodes == old(remainingNodes) - 1
      ensures Work(g, m) < old(Work(g, m))
    {
      var k := 0;
      while k < |g.succ[i]|
        invariant k <= |g.succ[i]| && Agrees(rest, i) && m.scan == |g.deps| && i < |m.nodes| && m.nodes[i] == Releasing(k)
        invariant canceled == old(canceled) && Work(g, m) <= old(Work(g, m))
        invariant log == old(log) && remainingNodes == old(remainingNodes)
      {
        Release(i, k, rest);
        k := k + 1;
      }
      CountDown(i, rest);
    }

    method Release(i: nat, k: nat, ghost rest: seq<nat>)
      requires Agrees(rest, i) && m.scan == |g.deps| && i < |m.nodes| && m.nodes[i] == Releasing(k) && k < |g.succ[i]|
      modifies this, queue
      ensures Agrees(rest, i) && m.scan == |g.deps| && i < |m.nodes| && m.nodes[i] == Releasing(k + 1)
      ensures canceled == old(canceled) && Work(g, m) < old(Work(g, m))
      ensures log == old(log) && remainingNodes == old(remainingNodes)
    {
      var j := g.succ[i][k];
      var prev := remainingDeps[j];
      Decrement(i, k, j, rest);
      if prev == 1 {
        Dispatch(i, k, j, rest);
      }
    }

    method Decrement(i: nat, k: nat, j: nat, ghost rest: seq<nat>)
      requires Agrees(rest, i) && m.scan == |g.deps| && i < |m.nodes| && m.nodes[i] == Releasing(k) && k < |g.succ[i]|
      requires j == g.succ[i][k]
      modifies this
      ensures Agrees(rest, i) && m.scan == |g.deps| && i < |m.nodes|
      ensures m.nodes[i] == if old(remainingDeps)[j] == 1 then Dispatching(k) else Releasing(k + 1)
      ensures canceled == old(canceled) && Work(g, m) < old(Work(g, m))
      ensures log == old(log) && remainingNodes == old(remainingNodes)
    {
      SafeStep(g, m, Step(i));
      StepsUseUpWork(g, m, Step(i));
      remainingDeps := remainingDeps[j := Dec(remainingDeps[j])];
      m := Next(g, m, Step(i));
    }

    method Dispatch(i: nat, k: nat, j: nat, ghost rest: seq<nat>)
      requires Agrees(rest, i) && m.scan == |g.deps| && i < |m.nodes| && m.nodes[i] == Dispatching(k) && k < |g.succ[i]|
      requires j == g.succ[i][k]
      modifies this, queue
      ensures Agrees(rest, i) && m.scan == |g.deps| && i < |m.nodes| && m.nodes[i] == Releasing(k + 1)
      ensures canceled == old(canceled) && Work(g, m) < old(Work(g, m))
      ensures log == old(log) && remainingNodes == old(remainingNodes)
    {
      DispatchPosts(g, m, i);
      StepsUseUpWork(g, m, Step(i));
      PostedOnce(m, rest, queue.pending, j, Next(g, m, Step(i)));
      queue.Post(j);
      m := Next(g, m, Step(i));
    }

    method CountDown(i: nat, ghost rest: seq<nat>)
      requires Agrees(rest, i) && m.scan == |g.deps| && i < |m.nodes| && m.nodes[i] == Releasing(|g.succ[i]|)
      modifies this
      ensures Agrees(rest, -1) && m.scan == |g.deps| && canceled == old(canceled)
      ensures log == old(log) && remainingNodes == old(remainingNodes) - 1
      ensures Work(g, m) < old(Work(g, m))
    {
      CountdownGoesOn(g, m, i);
      var remaining := remainingNodes;
      remainingNodes := Dec(remaining);
      SafeStep(g, m, Step(i));
      StepsUseUpWork(g, m, Step(i));
      m := Next(g, m, Step(i));
      if remaining == 1 {
        Fulfil(i, rest);
      }
    }

    method Fulfil(i: nat, ghost rest: seq<nat>)
      requires Agrees(rest, i) && m.scan == |g.deps| && i < |m.nodes| && m.nodes[i].LastOne?
      modifies this
      ensures Agrees(rest, -1) && m.scan == |g.deps| && canceled == old(canceled)
      ensures log == old(log) && remainingNodes == old(remainingNodes)
      ensures Work(g, m) < old(Work(g, m))
    {
      SafeStep(g, m, Step(i));
      StepsUseUpWork(g, m, Step(i));
      sets := sets + 1;
      m := Next(g, m, Step(i));
    }

    /** One Drain call: runs the batch it took, in the order it was posted; what those runs post
        waits in the queue. */
    method Drain()
      requires Agrees([], -1) && m.scan == |g.deps|
      modifies this, queue
      ensures Agrees([], -1) && m.scan == |g.deps| && canceled == old(canceled)
      ensures log == if canceled then old(log) else old(log) + old(queue.pending)
      ensures remainingNodes == old(remainingNodes) - |old(queue.pending)|
      ensures old(queue.pending) != [] ==> Work(g, m) < old(Work(g, m))
    {
      var batch := TakeAll();
      var k := 0;
      assert batch[0..] == batch && batch[..0] == [];
      while k < |batch|
        invariant k <= |batch| && Agrees(batch[k..], -1) && m.scan == |g.deps| && canceled == old(canceled)
        invariant log == LogAfter(old(log), canceled, batch, k) && remainingNodes == old(remainingNodes) - k
        invariant Work(g, m) <= old(Work(g, m)) && (k > 0 ==> Work(g, m) < old(Work(g, m)))
      {
        LogAfterNext(old(log), canceled, batch, k);
        RunNext(batch, k);
        k := k + 1;
      }
      assert batch[k..] == [] && batch[..k] == batch;
    }

    method RunNext(batch: seq<nat>, k: nat)
      requires k < |batch| && Agrees(batch[k..], -1) && m.scan == |g.deps|
      modifies this, queue
      ensures Agrees(batch[k + 1..], -1) && m.scan == |g.deps| && canceled == old(canceled)
      ensures log == if canceled then old(log) else old(log) + [batch[k]]
      ensures remainingNodes == old(remainingNodes) - 1
      ensures Work(g, m) < old(Work(g, m))
    {
      assert batch[k..] == [batch[k]] + batch[k + 1..];
      Run(batch[k], batch[k + 1..]);
    }

    method TakeAll() returns (batch: seq<nat>)
      requires Agrees([], -1)
      modifies queue
      ensures Agrees(batch, -1) && batch == old(queue.pending)
    {
      batch := queue.TakeAll();
    }

    /** A started execution drained until nothing is left, with the token cancelled after
        `cancelAfter` drains. Over an acyclic graph every node completes and the promise is set
        once, cancelled or not; bodies run at most once, each after the bodies of all its
        dependencies, and without a cancellation all of them run. */
    method DrainAll(cancelAfter: nat)
      requires Agrees([], -1) && m.scan == |g.deps| > 0
      modifies this, queue
      ensures Agrees([], -1) && queue.pending == []
      ensures RanInOrder(g, log)
      ensures Acyclic(g.deps) ==> sets == 1 && remainingNodes == 0
      ensures Acyclic(g.deps) && !canceled ==> forall j :: 0 <= j < |g.deps| ==> Occ(log, j) == 1
      ensures old(canceled) || cancelAfter == 0 ==> log == old(log)
      ensures !old(canceled) && cancelAfter >= |g.deps| ==> !canceled
    {
      var drains := 0;
      while queue.pending != []
        invariant Agrees([], -1) && m.scan == |g.deps| && drains + remainingNodes <= |g.deps|
        invariant old(canceled) || cancelAfter == 0 ==> log == old(log)
        invariant old(canceled) || (cancelAfter == 0 && drains > 0) ==> canceled
        invariant canceled && !old(canceled) ==> cancelAfter < drains
        decreases Work(g, m)
      {
        Undone(g, m, queue.pending);
        if drains == cancelAfter {
          Cancel();
        }
        Drain();
        drains := drains + 1;
      }
      NothingLeft(g, m);
      if Acyclic(g.deps) {
        AcyclicNeverStalls(g, m);
      }
    }

    /** A fresh execution on a deferred executor, from Start to its end. */
    method RunToCompletion(cancelAfter: nat)
      requires Agrees([], -1) && m == Init(g) && |g.deps| > 0
      modifies this, queue
      ensures Agrees([], -1) && queue.pending == []
      ensures RanInOrder(g, log)
      ensures Acyclic(g.deps) ==> sets == 1 && remainingNodes == 0
      ensures Acyclic(g.deps) && !canceled ==> forall j :: 0 <= j < |g.deps| ==> Occ(log, j) == 1
      ensures old(canceled) || cancelAfter == 0 ==> log == old(log)
      ensures !old(canceled) && cancelAfter >= |g.deps| ==> !canceled
    {
      Start();
      DrainAll(cancelAfter);
    }
  }

  /** No body twice, none before a dependency's. */
  ghost predicate RanInOrder(g: Dag, log: seq<nat>) {
    && (forall j :: 0 <= j < |g.deps| ==> Occ(log, j) <= 1)
    && forall k :: 0 <= k < |log| ==> DepsBefore(g, log, k)
  }
}
