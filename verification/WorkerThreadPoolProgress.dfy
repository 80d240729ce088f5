/** What a worker gets done: in which order it looks for work, and that work it can reach is run. */
module WorkerPoolProgress {
  import opened WorkerPoolMachine

  // ---------------------------------------------------------------- one search for work

  /** The worker's own deque comes first, and is left alone only when it is empty. */
  lemma OwnWorkFirst(s: State, w: nat, victim: nat, ok: bool)
    requires Enabled(s, Work(w, victim, ok)) && s.pcs[w].Taking?
    ensures var s', q := Next(s, Work(w, victim, ok)), s.deques[w];
      if q != [] then s'.pcs[w] == Running(q[|q| - 1]) && s'.deques == s.deques[w := q[..|q| - 1]] && s'.inject == s.inject
      else s'.pcs[w] == Stealing(if |s.pcs| > 1 then s.attempts else 0) && s'.deques == s.deques && s'.inject == s.inject
  {
  }

  /** A steal that succeeds takes the victim's oldest task. */
  lemma StealTakesOldest(s: State, w: nat, victim: nat)
    requires Enabled(s, Work(w, victim, true)) && s.pcs[w].Stealing? && s.pcs[w].left > 0
    ensures var s' := Next(s, Work(w, victim, true));
      && victim != w && victim < |s.deques| && s.deques[victim] != []
      && s'.pcs[w] == Running(s.deques[victim][0])
      && s'.deques == s.deques[victim := s.deques[victim][1..]] && s'.inject == s.inject
  {
  }

  /** Whatever the others do, a worker stops looking only when it finds the inject queue empty, and
      turns to the other deques only when it finds its own empty. */
  lemma GivesUpOnlyOnEmpty(s: State, a: Action, w: nat)
    requires Enabled(s, a) && w < |s.pcs| && w < |Next(s, a).pcs|
    ensures Next(s, a).pcs[w].CheckingStop? && !s.pcs[w].CheckingStop? ==> s.pcs[w].CheckingInject? && s.inject == []
    ensures Next(s, a).pcs[w].Stealing? && !s.pcs[w].Stealing? ==> s.pcs[w].Taking? && s.deques[w] == []
  {
    if a.Work? && a.w == w {
      OwnTurn(s, w, a.victim, a.ok);
    } else if a.Work? {
      OthersTurn(s, a.w, a.victim, a.ok, w);
    }
  }

  lemma OwnTurn(s: State, w: nat, victim: nat, ok: bool)
    requires Shape(s) && w < |s.pcs| && WorkEnabled(s, w, victim, ok)
    ensures var s' := WorkStep(s, w, victim, ok);
      && |s'.pcs| == |s.pcs|
      && (s'.pcs[w].CheckingStop? ==> s.pcs[w].CheckingInject? && s.inject == [])
      && (s'.pcs[w].Stealing? && !s.pcs[w].Stealing? ==> s.pcs[w].Taking? && s.deques[w] == [])
  {
    if !GrabsOwn(s, w) && !Steals(s, w, victim, ok) && !GrabsInject(s, w) && !s.pcs[w].Running? && !s.pcs[w].Deleting? {
      QuietTurn(s, w);
    }
  }

  lemma QuietTurn(s: State, w: nat)
    requires Shape(s) && w < |s.pcs|
    ensures QuietPc(s, w).CheckingStop? ==> s.pcs[w].CheckingInject? || s.pcs[w].CheckingStop?
    ensures QuietPc(s, w).Stealing? ==> s.pcs[w].Stealing? || s.pcs[w].Taking?
  {
  }

  lemma OthersTurn(s: State, v: nat, victim: nat, ok: bool, w: nat)
    requires Shape(s) && v < |s.pcs| && WorkEnabled(s, v, victim, ok) && w < |s.pcs| && w != v
    ensures |WorkStep(s, v, victim, ok).pcs| == |s.pcs| && WorkStep(s, v, victim, ok).pcs[w] == s.pcs[w]
  {
  }

  // ---------------------------------------------------------------- the ends of the queues

  predicate Appended(q: seq<Task>, q': seq<Task>) {
    |q'| == |q| + 1 && q'[..|q|] == q
  }

  predicate LostOldest(q: seq<Task>, q': seq<Task>) {
    q != [] && q' == q[1..]
  }

  predicate LostYoungest(q: seq<Task>, q': seq<Task>) {
    q != [] && q' == q[..|q| - 1]
  }

  /** The inject queue is first in, first out. */
  ghost predicate InjectMoves(s: State, a: Action, s': State) {
    || s'.inject == s.inject
    || (a.ContinuePost? && Appended(s.inject, s'.inject))
    || ((a.Work? || a.DrainInject?) && LostOldest(s.inject, s'.inject))
  }

  /** A deque grows and shrinks at its young end for its own worker only; others take the oldest. */
  ghost predicate DequeMoves(s: State, a: Action, s': State, d: nat)
    requires d < |s.deques| && d < |s'.deques|
  {
    || s'.deques[d] == s.deques[d]
    || (a.ContinuePost? && a.p == d && Appended(s.deques[d], s'.deques[d]))
    || (((a.Work? && a.w == d) || a.DrainDeque?) && LostYoungest(s.deques[d], s'.deques[d]))
    || (a.Work? && a.w != d && LostOldest(s.deques[d], s'.deques[d]))
  }

  lemma QueuesMoveAtTheirEnds(s: State, a: Action, d: nat)
    requires Enabled(s, a) && d < |s.deques|
    ensures var s' := Next(s, a);
      |s'.deques| == |s.deques| && InjectMoves(s, a, s') && DequeMoves(s, a, s', d)
  {
    match a {
      case Work(w, victim, ok) =>
        WorkMovesInject(s, w, victim, ok);
        WorkMovesDeque(s, w, victim, ok, d);
      case ContinuePost(p, ok, wake) => PostMovesQueues(s, p, ok, wake, d);
      case _ => OtherMoves(s, a, d);
    }
  }

  lemma WorkMovesInject(s: State, w: nat, victim: nat, ok: bool)
    requires Shape(s) && w < |s.pcs| && WorkEnabled(s, w, victim, ok)
    ensures var s' := WorkStep(s, w, victim, ok);
      |s'.deques| == |s.deques| && (s'.inject == s.inject || LostOldest(s.inject, s'.inject))
  {
  }

  lemma WorkMovesDeque(s: State, w: nat, victim: nat, ok: bool, d: nat)
    requires Shape(s) && w < |s.pcs| && WorkEnabled(s, w, victim, ok) && d < |s.deques|
    ensures var s' := WorkStep(s, w, victim, ok);
      |s'.deques| == |s.deques| && (s'.deques[d] == s.deques[d]
        || (if w == d then LostYoungest(s.deques[d], s'.deques[d]) else LostOldest(s.deques[d], s'.deques[d])))
  {
  }

  lemma PostMovesQueues(s: State, p: nat, ok: bool, wake: nat, d: nat)
    requires Shape(s) && p < |s.posts| && !s.posts[p].NotPosting? && d < |s.deques|
    ensures var s' := PostStep(s, p, ok, wake);
      && |s'.deques| == |s.deques|
      && (s'.inject == s.inject || Appended(s.inject, s'.inject))
      && (s'.deques[d] == s.deques[d] || (p == d && Appended(s.deques[d], s'.deques[d])))
  {
  }

  lemma OtherMoves(s: State, a: Action, d: nat)
    requires Enabled(s, a) && d < |s.deques| && !a.Work? && !a.ContinuePost?
    ensures |Next(s, a).deques| == |s.deques| && InjectMoves(s, a, Next(s, a)) && DequeMoves(s, a, Next(s, a), d)
  {
  }

  /** Steps until a Post returns. */
  function PostLeft(pc: PostPc): nat {
    match pc
    case Created(_) => 3
    case Overflowed(_) => 2
    case Pushed => 1
    case NotPosting => 0
  }

  predicate EndsWith(q: seq<Task>, t: Task) {
    q != [] && q[|q| - 1] == t
  }

  /** A Post always moves on: its task ends up youngest in its worker's deque, or last in the inject
      queue, which takes what comes from outside and what a full deque refuses. */
  lemma PostAdvances(s: State, p: nat, ok: bool, wake: nat)
    requires Enabled(s, ContinuePost(p, ok, wake))
    ensures var s', pc := Next(s, ContinuePost(p, ok, wake)), s.posts[p];
      && |s'.posts| == |s.posts| && PostLeft(s'.posts[p]) < PostLeft(pc)
      && (pc.Created? && s'.posts[p].Overflowed? ==> p < |s.pcs| && !ok && s'.posts[p].task == pc.task)
      && (!pc.Pushed? && s'.posts[p].Pushed? ==>
            if pc.Created? && p < |s.pcs| then p < |s'.deques| && EndsWith(s'.deques[p], pc.task) else EndsWith(s'.inject, pc.task))
  {
  }

  // ---------------------------------------------------------------- a whole search

  predicate OwnSteps(acts: seq<Action>, w: nat) {
    forall k :: 0 <= k < |acts| ==> acts[k].Work? && acts[k].w == w
  }

  /** How many steals a round tries. */
  function Tries(s: State): nat {
    if |s.pcs| > 1 then s.attempts else 0
  }

  predicate NoSteal(acts: seq<Action>) {
    forall k :: 0 <= k < |acts| ==> acts[k].Work? && !acts[k].ok
  }

  /** From the steals on: the failed ones change nothing, then the oldest injected task is taken. */
  lemma {:induction false} AfterFailedSteals(s: State, w: nat, acts: seq<Action>)
    requires Executable(s, acts) && OwnSteps(acts, w) && NoSteal(acts) && w < |s.pcs|
    requires s.pcs[w].Stealing? && |acts| == s.pcs[w].left + 2
    ensures RoundEnds(s, w, Final(s, acts))
    decreases |acts|
  {
    var s' := Next(s, acts[0]);
    if s.pcs[w].left > 0 {
      assert s' == At(s, w, Stealing(s.pcs[w].left - 1));
      AfterFailedSteals(s', w, acts[1..]);
    } else {
      assert s' == At(s, w, CheckingInject);
      var last := acts[1..];
      LastLook(s, w, last[0]);
      assert last[1..] == [];
      assert Final(s', last) == Next(s', last[0]);
    }
  }

  lemma LastLook(s: State, w: nat, a: Action)
    requires Shape(s) && w < |s.pcs| && a.Work? && a.w == w && Enabled(At(s, w, CheckingInject), a)
    ensures RoundEnds(s, w, Next(At(s, w, CheckingInject), a))
  {
    var looking := At(s, w, CheckingInject);
    assert looking.pcs[w := CheckingStop] == s.pcs[w := CheckingStop];
    if s.inject != [] {
      assert looking.pcs[w := Running(s.inject[0])] == s.pcs[w := Running(s.inject[0])];
    }
  }

  /** How a search ends that found nothing before the inject queue. */
  predicate RoundEnds(s: State, w: nat, s': State)
    requires w < |s.pcs|
  {
    if s.inject != [] then
      s' == s.(pcs := s.pcs[w := Running(s.inject[0])], inject := s.inject[1..], place := Put(s.place, s.inject[0], Taken(w)))
    else s' == s.(pcs := s.pcs[w := CheckingStop])
  }

  /** A whole search by a worker whose own deque is empty, undisturbed and without a successful
      steal: it runs the oldest injected task, and gives up only if there is none. */
  lemma SearchTakesInjected(s: State, w: nat, acts: seq<Action>)
    requires Executable(s, acts) && OwnSteps(acts, w) && NoSteal(acts) && |acts| == Tries(s) + 4
    requires w < |s.pcs| == |s.deques| && s.pcs[w].Popping? && s.deques[w] == []
    ensures RoundEnds(s, w, Final(s, acts))
  {
    var s1 := Next(s, acts[0]);
    assert s1 == At(s, w, Taking);
    var s2 := Next(s1, acts[1..][0]);
    assert s2 == At(s, w, Stealing(Tries(s)));
    assert acts[1..][1..] == acts[2..];
    AfterFailedSteals(s2, w, acts[2..]);
  }

  // ---------------------------------------------------------------- work is run

  /** The worker holds a task or can reach one without stealing. */
  predicate Busy(s: State, w: nat)
    requires Shape(s) && w < |s.pcs|
  {
    s.pcs[w].Running? || s.deques[w] != [] || s.inject != []
  }

  /** Its own steps from the top of its loop until a body runs. */
  function Round(s: State, w: nat): nat
    requires Shape(s) && w < |s.pcs|
  {
    if s.deques[w] != [] then 3 else Tries(s) + 5
  }

  /** At most so many of its own steps until a body runs. */
  function Distance(s: State, w: nat): nat
    requires Shape(s) && w < |s.pcs|
  {
    var n, round := |s.pcs|, Round(s, w);
    match s.pcs[w]
    case Running(_) => 1
    case Deleting(_) => round + 1
    case Popping => round
    case Taking => round - 1
    case Stealing(k) => if s.inject != [] then k + 3 else k + n + round + 7
    case CheckingInject => if s.inject != [] then 2 else n + round + 6
    case CheckingStop => n + round + 5
    case Locking => n + round + 4
    case PredStop => n + round + 3
    case PredDeque(d) => (if d < n then n - d else 0) + round + 2
    case PredInject => round + 1
    case _ => 0
  }

  lemma DistanceIsBounded(s: State, w: nat)
    requires Shape(s) && w < |s.pcs| && (s.pcs[w].Stealing? ==> s.pcs[w].left <= s.attempts)
    ensures Distance(s, w) <= 2 * s.attempts + |s.pcs| + 12
  {
  }

  /** A worker that is neither asleep, nor about to be, nor gone. */
  predicate Alert(pc: WorkerPc) {
    Awake(pc) && !pc.FallAsleep?
  }

  /** It is never blocked by itself: only a lock holder or its own unfinished Post stops it. */
  lemma AlertCanStep(s: State, w: nat)
    requires Shape(s) && w < |s.pcs| && Alert(s.pcs[w]) && s.posts[w].NotPosting?
    requires forall v :: 0 <= v < |s.pcs| && v != w ==> !HoldsLock(s.pcs[v])
    ensures Enabled(s, Work(w, 0, false))
  {
  }

  lemma TakingIsNearer(s: State, w: nat, victim: nat, ok: bool)
    requires Enabled(s, Work(w, victim, ok)) && Alert(s.pcs[w])
    requires GrabsOwn(s, w) || Steals(s, w, victim, ok) || GrabsInject(s, w)
    ensures var s' := Next(s, Work(w, victim, ok));
      Shape(s') && |s'.pcs| == |s.pcs| && s'.stop == s.stop && s'.ran == s.ran && s'.pcs[w].Running?
    ensures Distance(s, w) > 1
  {
  }

  lemma QuietIsNearer(s: State, w: nat)
    requires WakeInv(s) && !s.stop && w < |s.pcs| && Alert(s.pcs[w]) && Busy(s, w)
    requires !s.pcs[w].Running? && !s.pcs[w].Deleting? && !GrabsOwn(s, w) && !GrabsInject(s, w)
    ensures var s' := At(s, w, QuietPc(s, w));
      Shape(s') && Alert(s'.pcs[w]) && Busy(s', w) && Distance(s', w) < Distance(s, w)
  {
    assert Checked(s, w);
    assert CheckedDeque(s, w, w) ==> s.deques[w] == [];
  }

  lemma DeletingIsNearer(s: State, w: nat)
    requires Shape(s) && w < |s.pcs| && s.pcs[w].Deleting? && Busy(s, w)
    ensures var s' := Discard(s, w, s.pcs[w].task);
      && Shape(s') && |s'.pcs| == |s.pcs| && s'.stop == s.stop && s'.ran == s.ran
      && Alert(s'.pcs[w]) && Busy(s', w) && Distance(s', w) < Distance(s, w)
  {
  }

  /** Each of its own steps brings a body nearer, whatever its steals do, until it runs one. */
  lemma StepsNearer(s: State, w: nat, victim: nat, ok: bool)
    requires WakeInv(s) && TaskInv(s) && !s.stop && Enabled(s, Work(w, victim, ok)) && Alert(s.pcs[w]) && Busy(s, w)
    ensures var s' := Next(s, Work(w, victim, ok));
      && Shape(s') && |s'.pcs| == |s.pcs| && !s'.stop
      && (if s.pcs[w].Running? then s.pcs[w].task < |s.ran| && s'.ran == s.ran[s.pcs[w].task := s.ran[s.pcs[w].task] + 1]
          else s'.ran == s.ran && Alert(s'.pcs[w]) && Busy(s', w) && Distance(s', w) < Distance(s, w))
  {
    if s.pcs[w].Running? {
      HandsHoldOne(s, w);
    } else if s.pcs[w].Deleting? {
      DeletingIsNearer(s, w);
    } else if GrabsOwn(s, w) || Steals(s, w, victim, ok) || GrabsInject(s, w) {
      TakingIsNearer(s, w, victim, ok);
    } else {
      QuietIsNearer(s, w);
    }
  }

  /** An undisturbed worker that is awake and has work of its own, or work in the inject queue, has
      run one task more after some number k of its steps, bounded by the distance. */
  lemma {:induction false} ReachableWorkIsRun(s: State, w: nat, acts: seq<Action>) returns (k: nat, t: Task)
    requires WakeInv(s) && TaskInv(s) && !s.stop && w < |s.pcs| && Alert(s.pcs[w]) && Busy(s, w)
    requires Executable(s, acts) && OwnSteps(acts, w) && |acts| >= Distance(s, w)
    ensures 0 < k <= Distance(s, w) && Executable(s, acts[..k])
    ensures t < |s.ran| && Final(s, acts[..k]).ran == s.ran[t := s.ran[t] + 1]
    decreases |acts|
  {
    var s' := Next(s, acts[0]);
    StepsNearer(s, w, acts[0].victim, acts[0].ok);
    if s.pcs[w].Running? {
      k, t := 1, s.pcs[w].task;
      PrefixStep(s, acts, 1);
    } else {
      WakeStep(s, acts[0]);
      TaskStep(s, acts[0]);
      k, t := ReachableWorkIsRun(s', w, acts[1..]);
      k := k + 1;
      PrefixStep(s, acts, k);
    }
  }

  lemma PrefixStep(s: State, acts: seq<Action>, k: nat)
    requires 0 < k <= |acts| && Enabled(s, acts[0]) && Executable(Next(s, acts[0]), acts[1..][..k - 1])
    ensures Executable(s, acts[..k]) && Final(s, acts[..k]) == Final(Next(s, acts[0]), acts[1..][..k - 1])
  {
    assert acts[..k][0] == acts[0] && acts[..k][1..] == acts[1..][..k - 1];
  }

  // ---------------------------------------------------------------- shutting down

  predicate NoWork(s: State) {
    s.inject == [] && forall d :: 0 <= d < |s.deques| ==> s.deques[d] == []
  }

  /** Once all have been notified and nothing is queued: a worker's own steps until it is gone. */
  function ToExit(s: State, w: nat): nat
    requires Shape(s) && w < |s.pcs|
  {
    match s.pcs[w]
    case Running(_) => Tries(s) + 7
    case Deleting(_) => Tries(s) + 6
    case Popping => Tries(s) + 5
    case Taking => Tries(s) + 4
    case Stealing(k) => k + 3
    case CheckingInject => 2
    case CheckingStop => 1
    case Locking => Tries(s) + 7
    case PredStop => Tries(s) + 6
    case _ => 0
  }

  lemma ExitIsNearer(s: State, w: nat, victim: nat, ok: bool)
    requires WakeInv(s) && s.notifiedAll && NoWork(s) && Enabled(s, Work(w, victim, ok))
    ensures var s' := Next(s, Work(w, victim, ok));
      Shape(s') && s'.notifiedAll && NoWork(s') && |s'.pcs| == |s.pcs| && ToExit(s', w) < ToExit(s, w)
  {
    assert Roused(s.pcs[w]);
  }

  /** A worker that keeps taking steps then leaves its loop: no run of its own steps is longer, and
      where it cannot take another it is gone, waits for the lock, or is itself in a Post. */
  lemma {:induction false} WorkersExit(s: State, w: nat, acts: seq<Action>)
    requires WakeInv(s) && s.notifiedAll && NoWork(s) && w < |s.pcs| && Executable(s, acts) && OwnSteps(acts, w)
    ensures |acts| <= ToExit(s, w)
    ensures var s' := Final(s, acts);
      Shape(s') && |s'.pcs| == |s.pcs| &&
      (s'.pcs[w].Exited? || Enabled(s', Work(w, 0, false)) || (s'.pcs[w].Locking? && !LockFree(s'.pcs))
       || (s'.pcs[w].Running? && !s'.posts[w].NotPosting?))
    decreases |acts|
  {
    if acts != [] {
      ExitIsNearer(s, w, acts[0].victim, acts[0].ok);
      WakeStep(s, acts[0]);
      WorkersExit(Next(s, acts[0]), w, acts[1..]);
    } else {
      assert Roused(s.pcs[w]);
    }
  }
}
