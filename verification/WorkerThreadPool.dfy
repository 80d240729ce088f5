/** The pool as interleaved steps of its workers, of the threads that post to it, and of its
    destructor. A deque is the sequence it refines; PopBottom is two steps, because its first
    store already shows in SizeApprox. */
module WorkerPoolMachine {

  type Task = nat

  /** Where a worker is in WorkerMain. From PredStop to FallAsleep it holds waitMu. */
  datatype WorkerPc =
    | Popping
    | Taking
    | Stealing(left: nat)
    | CheckingInject
    | Running(task: Task)
    | Deleting(task: Task)
    | CheckingStop
    | Locking
    | PredStop
    | PredDeque(d: nat)
    | PredInject
    | FallAsleep
    | Sleeping
    | Exited

  /** Where a thread is in Post. The workers are threads 0..n, other posters follow. */
  datatype PostPc = NotPosting | Created(task: Task) | Overflowed(task: Task) | Pushed

  datatype Place = Owned(thread: nat) | InDeque(worker: nat) | InInject | Taken(worker: nat) | Deleted

  datatype State = State(
    attempts: nat, pcs: seq<WorkerPc>, posts: seq<PostPc>, deques: seq<seq<Task>>, inject: seq<Task>,
    stop: bool, notifiedAll: bool, draining: bool,
    place: seq<Place>, ran: seq<nat>, deleted: seq<nat>)

  /** `ok` says whether a push or a steal succeeds; `wake` whom notify_one picks. */
  datatype Action =
    | Work(w: nat, victim: nat, ok: bool)
    | SpuriousWake(w: nat)
    | BeginPost(p: nat)
    | ContinuePost(p: nat, ok: bool, wake: nat)
    | Stop
    | NotifyAll
    | Join
    | DrainInject
    | DrainDeque(d: nat)

  function Init(workers: nat, others: nat, attempts: nat): State {
    State(attempts, seq(workers, _ => Popping), seq(workers + others, _ => NotPosting), seq(workers, _ => []), [],
          false, false, false, [], [], [])
  }

  predicate HoldsLock(pc: WorkerPc) {
    pc.PredStop? || pc.PredDeque? || pc.PredInject? || pc.FallAsleep?
  }

  predicate LockFree(pcs: seq<WorkerPc>) {
    forall w :: 0 <= w < |pcs| ==> !HoldsLock(pcs[w])
  }

  predicate NobodySleeps(pcs: seq<WorkerPc>) {
    forall w :: 0 <= w < |pcs| ==> !pcs[w].Sleeping?
  }

  predicate Shape(s: State) {
    && 0 < |s.pcs| == |s.deques| <= |s.posts|
    && |s.place| == |s.ran| == |s.deleted|
  }

  predicate Enabled(s: State, a: Action) {
    && Shape(s)
    && match a
       case Work(w, victim, ok) => w < |s.pcs| && WorkEnabled(s, w, victim, ok)
       case SpuriousWake(w) => w < |s.pcs| && s.pcs[w].Sleeping?
       case BeginPost(p) =>
         p < |s.posts| && s.posts[p].NotPosting? && if p < |s.pcs| then s.pcs[p].Running? else !s.stop
       case ContinuePost(p, ok, wake) =>
         && p < |s.posts| && !s.posts[p].NotPosting?
         && (s.posts[p].Pushed? ==> LockFree(s.pcs) && ((wake < |s.pcs| && s.pcs[wake].Sleeping?) || NobodySleeps(s.pcs)))
       case Stop => !s.stop
       case NotifyAll => s.stop && !s.notifiedAll && LockFree(s.pcs)
       case Join =>
         && s.notifiedAll && !s.draining
         && (forall w :: 0 <= w < |s.pcs| ==> s.pcs[w].Exited?)
         && (forall p :: 0 <= p < |s.posts| ==> s.posts[p].NotPosting?)
       case DrainInject => s.draining && s.inject != []
       case DrainDeque(d) => s.draining && s.inject == [] && d < |s.deques| && s.deques[d] != []
  }

  predicate WorkEnabled(s: State, w: nat, victim: nat, ok: bool)
    requires Shape(s) && w < |s.pcs|
  {
    match s.pcs[w]
    case Stealing(k) => k > 0 && ok ==> victim < |s.deques| && victim != w && s.deques[victim] != []
    case Running(_) => s.posts[w].NotPosting?
    case Locking => LockFree(s.pcs)
    case Sleeping => false
    case Exited => false
    case _ => true
  }

  // ---------------------------------------------------------------- the steps

  function Put(place: seq<Place>, t: Task, p: Place): seq<Place> {
    if t < |place| then place[t := p] else place
  }

  function Bump(counts: seq<nat>, t: Task): seq<nat> {
    if t < |counts| then counts[t := counts[t] + 1] else counts
  }

  function At(s: State, w: nat, pc: WorkerPc): State
    requires w < |s.pcs|
  {
    s.(pcs := s.pcs[w := pc])
  }

  function Take(s: State, w: nat, t: Task): State
    requires w < |s.pcs|
  {
    At(s, w, Running(t)).(place := Put(s.place, t, Taken(w)))
  }

  /** bottom_ - top_: a pop under way has already lowered bottom_. */
  function SizeApprox(s: State, d: nat): int
    requires Shape(s) && d < |s.deques|
  {
    |s.deques[d]| - if s.pcs[d].Taking? then 1 else 0
  }

  predicate GrabsOwn(s: State, w: nat)
    requires Shape(s) && w < |s.pcs|
  {
    s.pcs[w].Taking? && s.deques[w] != []
  }

  predicate Steals(s: State, w: nat, victim: nat, ok: bool)
    requires Shape(s) && w < |s.pcs|
  {
    s.pcs[w].Stealing? && s.pcs[w].left > 0 && ok && victim < |s.deques| && s.deques[victim] != []
  }

  predicate GrabsInject(s: State, w: nat)
    requires Shape(s) && w < |s.pcs|
  {
    s.pcs[w].CheckingInject? && s.inject != []
  }

  function PopOwn(s: State, w: nat): State
    requires Shape(s) && w < |s.pcs| && GrabsOwn(s, w)
  {
    var q := s.deques[w];
    Take(s, w, q[|q| - 1]).(deques := s.deques[w := q[..|q| - 1]])
  }

  function StealFrom(s: State, w: nat, victim: nat): State
    requires Shape(s) && w < |s.pcs| && victim < |s.deques| && s.deques[victim] != []
  {
    Take(s, w, s.deques[victim][0]).(deques := s.deques[victim := s.deques[victim][1..]])
  }

  function TakeInjected(s: State, w: nat): State
    requires Shape(s) && w < |s.pcs| && GrabsInject(s, w)
  {
    Take(s, w, s.inject[0]).(inject := s.inject[1..])
  }

  function RunBody(s: State, w: nat, t: Task): State
    requires w < |s.pcs|
  {
    At(s, w, Deleting(t)).(ran := Bump(s.ran, t))
  }

  function Discard(s: State, w: nat, t: Task): State
    requires w < |s.pcs|
  {
    At(s, w, Popping).(deleted := Bump(s.deleted, t), place := Put(s.place, t, Deleted))
  }

  /** Where a worker goes that neither takes, runs nor deletes a task. */
  function QuietPc(s: State, w: nat): WorkerPc
    requires Shape(s) && w < |s.pcs|
  {
    match s.pcs[w]
    case Popping => Taking
    case Taking => Stealing(if |s.pcs| > 1 then s.attempts else 0)
    case Stealing(k) => if k == 0 then CheckingInject else Stealing(k - 1)
    case CheckingInject => CheckingStop
    case CheckingStop => if s.stop then Exited else Locking
    case Locking => PredStop
    case PredStop => if s.stop then Popping else PredDeque(0)
    case PredDeque(d) =>
      if d >= |s.deques| then PredInject else if SizeApprox(s, d) > 0 then Popping else PredDeque(d + 1)
    case PredInject => if s.inject != [] then Popping else FallAsleep
    case FallAsleep => Sleeping
    case _ => s.pcs[w]
  }

  function WorkStep(s: State, w: nat, victim: nat, ok: bool): State
    requires Shape(s) && w < |s.pcs| && WorkEnabled(s, w, victim, ok)
  {
    if GrabsOwn(s, w) then PopOwn(s, w)
    else if Steals(s, w, victim, ok) then StealFrom(s, w, victim)
    else if GrabsInject(s, w) then TakeInjected(s, w)
    else if s.pcs[w].Running? then RunBody(s, w, s.pcs[w].task)
    else if s.pcs[w].Deleting? then Discard(s, w, s.pcs[w].task)
    else At(s, w, QuietPc(s, w))
  }

  function PostStep(s: State, p: nat, ok: bool, wake: nat): State
    requires Shape(s) && p < |s.posts| && !s.posts[p].NotPosting?
  {
    match s.posts[p]
    case Created(t) =>
      if p < |s.pcs| && ok then
        s.(posts := s.posts[p := Pushed], deques := s.deques[p := s.deques[p] + [t]], place := Put(s.place, t, InDeque(p)))
      else if p < |s.pcs| then s.(posts := s.posts[p := Overflowed(t)])
      else PushInject(s, p, t)
    case Overflowed(t) => PushInject(s, p, t)
    case Pushed =>
      var s' := s.(posts := s.posts[p := NotPosting]);
      if wake < |s.pcs| && s.pcs[wake].Sleeping? then At(s', wake, Locking) else s'
  }

  function PushInject(s: State, p: nat, t: Task): State
    requires p < |s.posts|
  {
    s.(posts := s.posts[p := Pushed], inject := s.inject + [t], place := Put(s.place, t, InInject))
  }

  function Delete(s: State, t: Task): State {
    s.(deleted := Bump(s.deleted, t), place := Put(s.place, t, Deleted))
  }

  function WakeAll(pcs: seq<WorkerPc>): (woken: seq<WorkerPc>)
    ensures |woken| == |pcs|
    ensures forall w :: 0 <= w < |pcs| ==> woken[w] == if pcs[w].Sleeping? then Locking else pcs[w]
  {
    seq(|pcs|, w requires 0 <= w < |pcs| => if pcs[w].Sleeping? then Locking else pcs[w])
  }

  function Next(s: State, a: Action): State
    requires Enabled(s, a)
  {
    match a
    case Work(w, victim, ok) => WorkStep(s, w, victim, ok)
    case SpuriousWake(w) => At(s, w, Locking)
    case BeginPost(p) =>
      s.(posts := s.posts[p := Created(|s.place|)], place := s.place + [Owned(p)], ran := s.ran + [0], deleted := s.deleted + [0])
    case ContinuePost(p, ok, wake) => PostStep(s, p, ok, wake)
    case Stop => s.(stop := true)
    case NotifyAll =>
      s.(notifiedAll := true, pcs := WakeAll(s.pcs))
    case Join => s.(draining := true)
    case DrainInject => Delete(s, s.inject[0]).(inject := s.inject[1..])
    case DrainDeque(d) =>
      var q := s.deques[d];
      Delete(s, q[|q| - 1]).(deques := s.deques[d := q[..|q| - 1]])
  }

  // ---------------------------------------------------------------- no lost wakeup

  predicate Awake(pc: WorkerPc) {
    !pc.Sleeping? && !pc.Exited?
  }

  /** Someone has queued a task and is still to notify. */
  predicate Pending(posts: seq<PostPc>) {
    exists p :: 0 <= p < |posts| && posts[p].Pushed?
  }

  predicate SomeoneAwake(pcs: seq<WorkerPc>) {
    exists w :: 0 <= w < |pcs| && Awake(pcs[w])
  }

  predicate WorkQueued(s: State) {
    s.inject != [] || exists d :: 0 <= d < |s.deques| && s.deques[d] != []
  }

  /** Deque d, found empty by worker w, can hold work only while its own worker is awake. */
  predicate CheckedDeque(s: State, w: nat, d: nat)
    requires Shape(s) && d < |s.deques|
  {
    s.deques[d] == [] || (d != w && Awake(s.pcs[d]))
  }

  predicate CheckedDeques(s: State, w: nat, n: nat)
    requires Shape(s) && n <= |s.deques|
  {
    forall d :: 0 <= d < n ==> CheckedDeque(s, w, d)
  }

  /** What a worker that holds waitMu has established on its way to sleep. */
  predicate Checked(s: State, w: nat)
    requires Shape(s) && w < |s.pcs|
  {
    match s.pcs[w]
    case PredDeque(d) => d <= |s.deques| && CheckedDeques(s, w, d)
    case PredInject => CheckedDeques(s, w, |s.deques|)
    case FallAsleep => CheckedDeques(s, w, |s.deques|) && (s.inject != [] ==> Pending(s.posts))
    case _ => true
  }

  /** Once all have been notified nobody sleeps or is on the way to. */
  predicate Roused(pc: WorkerPc) {
    !pc.Sleeping? && !pc.PredDeque? && !pc.PredInject? && !pc.FallAsleep?
  }

  ghost predicate LockInv(s: State)
    requires Shape(s)
  {
    && (forall w, v :: 0 <= w < v < |s.pcs| ==> !(HoldsLock(s.pcs[w]) && HoldsLock(s.pcs[v])))
    && (forall w :: 0 <= w < |s.pcs| && s.pcs[w].Exited? ==> s.stop)
    && (s.notifiedAll ==> s.stop && forall w :: 0 <= w < |s.pcs| ==> Roused(s.pcs[w]))
    && (s.draining ==> s.notifiedAll && forall w :: 0 <= w < |s.pcs| ==> s.pcs[w].Exited?)
    && (s.draining ==> forall p :: 0 <= p < |s.posts| ==> s.posts[p].NotPosting?)
    && (forall w :: 0 <= w < |s.pcs| && !s.pcs[w].Running? ==> s.posts[w].NotPosting?)
  }

  ghost predicate AllChecked(s: State)
    requires Shape(s)
  {
    forall w :: 0 <= w < |s.pcs| ==> Checked(s, w)
  }

  /** The property itself. */
  ghost predicate NoLostWakeup(s: State) {
    WorkQueued(s) && !Pending(s.posts) ==> SomeoneAwake(s.pcs)
  }

  ghost predicate WakeInv(s: State) {
    Shape(s) && LockInv(s) && (!s.stop ==> AllChecked(s) && NoLostWakeup(s))
  }

  lemma InitWakes(workers: nat, others: nat, attempts: nat)
    requires workers > 0
    ensures WakeInv(Init(workers, others, attempts))
  {
  }

  /** All that the wakeup argument needs to know of a worker's step. */
  ghost predicate WorkFacts(s: State, s': State, w: nat)
    requires Shape(s) && w < |s.pcs|
  {
    && Shape(s') && |s'.pcs| == |s.pcs| && s'.pcs == s.pcs[w := s'.pcs[w]]
    && s'.posts == s.posts && s'.stop == s.stop && s'.notifiedAll == s.notifiedAll && s'.draining == s.draining
    && Shrunk(s.deques, s'.deques) && (s.inject == [] ==> s'.inject == [])
    && (HoldsLock(s.pcs[w]) ==> s'.deques == s.deques && s'.inject == s.inject)
    && OwnMoveOk(s, w, s'.pcs[w])
  }

  predicate Shrunk(deques: seq<seq<Task>>, deques': seq<seq<Task>>) {
    |deques'| == |deques| && forall d :: 0 <= d < |deques| && deques[d] == [] ==> deques'[d] == []
  }

  predicate OwnMoveOk(s: State, w: nat, pc: WorkerPc)
    requires Shape(s) && w < |s.pcs|
  {
    && (HoldsLock(pc) ==> HoldsLock(s.pcs[w]) || (s.pcs[w].Locking? && LockFree(s.pcs)))
    && (pc.Exited? ==> s.stop)
    && (s.stop && Roused(s.pcs[w]) ==> Roused(pc))
    && Awake(s.pcs[w]) && (!s.pcs[w].FallAsleep? && !s.stop ==> Awake(pc))
    && (s.pcs[w].Running? ==> s.posts[w].NotPosting?)
  }

  lemma QuietMoveIsOk(s: State, w: nat, victim: nat, ok: bool)
    requires Shape(s) && w < |s.pcs| && WorkEnabled(s, w, victim, ok) && !s.pcs[w].Running?
    ensures OwnMoveOk(s, w, QuietPc(s, w))
  {
  }

  lemma QuietFacts(s: State, w: nat, victim: nat, ok: bool)
    requires Shape(s) && w < |s.pcs| && WorkEnabled(s, w, victim, ok) && !s.pcs[w].Running?
    ensures WorkFacts(s, At(s, w, QuietPc(s, w)), w)
  {
    QuietMoveIsOk(s, w, victim, ok);
  }

  lemma BodyFacts(s: State, w: nat)
    requires Shape(s) && w < |s.pcs| && (s.pcs[w].Running? ==> s.posts[w].NotPosting?)
    ensures s.pcs[w].Running? ==> WorkFacts(s, RunBody(s, w, s.pcs[w].task), w)
    ensures s.pcs[w].Deleting? ==> WorkFacts(s, Discard(s, w, s.pcs[w].task), w)
  {
  }

  lemma TakeFacts(s: State, w: nat, victim: nat)
    requires Shape(s) && w < |s.pcs|
    ensures GrabsInject(s, w) ==> WorkFacts(s, TakeInjected(s, w), w)
    ensures s.pcs[w].Stealing? && victim < |s.deques| && s.deques[victim] != [] ==> WorkFacts(s, StealFrom(s, w, victim), w)
  {
  }

  lemma PopFacts(s: State, w: nat)
    requires Shape(s) && w < |s.pcs| && GrabsOwn(s, w)
    ensures WorkFacts(s, PopOwn(s, w), w)
  {
  }

  lemma WorkFactsHold(s: State, w: nat, victim: nat, ok: bool)
    requires Enabled(s, Work(w, victim, ok))
    ensures WorkFacts(s, Next(s, Work(w, victim, ok)), w)
  {
    if GrabsOwn(s, w) {
      PopFacts(s, w);
    } else if Steals(s, w, victim, ok) || GrabsInject(s, w) {
      TakeFacts(s, w, victim);
    } else if s.pcs[w].Running? || s.pcs[w].Deleting? {
      BodyFacts(s, w);
    } else {
      QuietFacts(s, w, victim, ok);
    }
  }

  lemma LocksAfterMove(s: State, s': State, w: nat)
    requires WakeInv(s) && w < |s.pcs| && WorkFacts(s, s', w)
    ensures LockInv(s')
  {
  }

  lemma WorkKeepsLocks(s: State, w: nat, victim: nat, ok: bool)
    requires WakeInv(s) && Enabled(s, Work(w, victim, ok))
    ensures Shape(Next(s, Work(w, victim, ok))) && LockInv(Next(s, Work(w, victim, ok)))
  {
    WorkFactsHold(s, w, victim, ok);
    LocksAfterMove(s, Next(s, Work(w, victim, ok)), w);
  }

  lemma BeginKeepsLocks(s: State, p: nat)
    requires WakeInv(s) && Enabled(s, BeginPost(p))
    ensures Shape(Next(s, BeginPost(p))) && LockInv(Next(s, BeginPost(p)))
  {
  }

  lemma WakeKeepsLocks(s: State, w: nat)
    requires WakeInv(s) && w < |s.pcs| && s.pcs[w].Sleeping?
    ensures Shape(At(s, w, Locking)) && LockInv(At(s, w, Locking))
  {
  }

  lemma PushKeepsLocks(s: State, p: nat, ok: bool, wake: nat)
    requires WakeInv(s) && Enabled(s, ContinuePost(p, ok, wake)) && !s.posts[p].Pushed?
    ensures Shape(Next(s, ContinuePost(p, ok, wake))) && LockInv(Next(s, ContinuePost(p, ok, wake)))
  {
  }

  lemma PostedKeepsLocks(s: State, p: nat)
    requires WakeInv(s) && p < |s.posts| && s.posts[p].Pushed?
    ensures Shape(s.(posts := s.posts[p := NotPosting])) && LockInv(s.(posts := s.posts[p := NotPosting]))
  {
  }

  lemma ContinueKeepsLocks(s: State, p: nat, ok: bool, wake: nat)
    requires WakeInv(s) && Enabled(s, ContinuePost(p, ok, wake))
    ensures Shape(Next(s, ContinuePost(p, ok, wake))) && LockInv(Next(s, ContinuePost(p, ok, wake)))
  {
    if s.posts[p].Pushed? {
      PostedKeepsLocks(s, p);
      if wake < |s.pcs| && s.pcs[wake].Sleeping? {
        LocksOfWoken(s.(posts := s.posts[p := NotPosting]), wake);
      }
    } else {
      PushKeepsLocks(s, p, ok, wake);
    }
  }

  lemma LocksOfWoken(s: State, w: nat)
    requires Shape(s) && LockInv(s) && w < |s.pcs| && s.pcs[w].Sleeping?
    ensures LockInv(At(s, w, Locking))
  {
  }

  lemma PostKeepsLocks(s: State, a: Action)
    requires WakeInv(s) && Enabled(s, a) && (a.BeginPost? || a.ContinuePost? || a.SpuriousWake?)
    ensures Shape(Next(s, a)) && LockInv(Next(s, a))
  {
    match a {
      case BeginPost(p) => BeginKeepsLocks(s, p);
      case ContinuePost(p, ok, wake) => ContinueKeepsLocks(s, p, ok, wake);
      case SpuriousWake(w) => WakeKeepsLocks(s, w);
    }
  }

  lemma EndKeepsLocks(s: State, a: Action)
    requires WakeInv(s) && Enabled(s, a) && (a.Stop? || a.NotifyAll? || a.Join? || a.DrainInject? || a.DrainDeque?)
    ensures Shape(Next(s, a)) && LockInv(Next(s, a))
  {
  }

  /** What a checker knows survives steps that keep everyone awake who was, and queue nothing new
      behind its back. */
  lemma CheckedKept(s: State, s': State, v: nat)
    requires Shape(s) && Shape(s') && v < |s.pcs| && |s'.pcs| == |s.pcs| && Checked(s, v) && s'.pcs[v] == s.pcs[v]
    requires forall d :: 0 <= d < |s.pcs| && Awake(s.pcs[d]) ==> Awake(s'.pcs[d])
    requires forall d :: 0 <= d < |s.deques| && s.deques[d] == [] ==> s'.deques[d] == [] || (d != v && Awake(s'.pcs[d]))
    requires s'.inject != [] ==> s.inject != [] || Pending(s'.posts)
    requires Pending(s.posts) ==> Pending(s'.posts)
    ensures Checked(s', v)
  {
    forall d | 0 <= d < |s.deques| && CheckedDeque(s, v, d)
      ensures CheckedDeque(s', v, d)
    {
    }
  }

  /** A worker goes to sleep only when whatever is queued is somebody else's to see. */
  lemma FallingAsleep(s: State, w: nat)
    requires WakeInv(s) && !s.stop && w < |s.pcs| && s.pcs[w].FallAsleep?
    requires WorkQueued(s) && !Pending(s.posts)
    ensures exists d :: 0 <= d < |s.pcs| && d != w && Awake(s.pcs[d])
  {
    assert Checked(s, w);
    var d :| 0 <= d < |s.deques| && s.deques[d] != [];
    assert CheckedDeque(s, w, d);
  }

  lemma OwnCheck(s: State, w: nat)
    requires WakeInv(s) && !s.stop && w < |s.pcs| && !s.pcs[w].Sleeping? && !s.pcs[w].Exited?
    ensures Checked(At(s, w, QuietPc(s, w)), w)
  {
    var s' := At(s, w, QuietPc(s, w));
    assert Checked(s, w);
    forall d | 0 <= d < |s.deques| && HoldsLock(s.pcs[w]) && CheckedDeque(s, w, d)
      ensures CheckedDeque(s', w, d)
    {
    }
  }

  lemma WorkKeepsChecks(s: State, w: nat, victim: nat, ok: bool)
    requires WakeInv(s) && !s.stop && Enabled(s, Work(w, victim, ok))
    ensures Shape(Next(s, Work(w, victim, ok))) && AllChecked(Next(s, Work(w, victim, ok)))
  {
    var s' := Next(s, Work(w, victim, ok));
    WorkFactsHold(s, w, victim, ok);
    OwnCheck(s, w);
    OthersChecked(s, s', w);
    assert Checked(s', w);
  }

  lemma OthersChecked(s: State, s': State, w: nat)
    requires WakeInv(s) && !s.stop && w < |s.pcs| && WorkFacts(s, s', w)
    ensures forall v :: 0 <= v < |s.pcs| && v != w ==> Checked(s', v)
  {
    forall v | 0 <= v < |s.pcs| && v != w
      ensures Checked(s', v)
    {
      if HoldsLock(s.pcs[v]) {
        assert Checked(s, v);
        CheckedKept(s, s', v);
      }
    }
  }

  lemma WorkLosesNoWakeup(s: State, w: nat, victim: nat, ok: bool)
    requires WakeInv(s) && !s.stop && Enabled(s, Work(w, victim, ok))
    ensures NoLostWakeup(Next(s, Work(w, victim, ok)))
  {
    var s' := Next(s, Work(w, victim, ok));
    WorkFactsHold(s, w, victim, ok);
    if s.pcs[w].FallAsleep? {
      if WorkQueued(s) && !Pending(s.posts) {
        FallingAsleep(s, w);
        var d :| 0 <= d < |s.pcs| && d != w && Awake(s.pcs[d]);
        assert Awake(s'.pcs[d]);
      }
    } else {
      assert Awake(s'.pcs[w]);
    }
  }

  lemma PostKeepsChecks(s: State, a: Action)
    requires WakeInv(s) && !s.stop && Enabled(s, a) && (a.BeginPost? || a.ContinuePost? || a.SpuriousWake?)
    ensures Shape(Next(s, a)) && AllChecked(Next(s, a))
  {
    var s' := Next(s, a);
    PostKeepsLocks(s, a);
    forall v | 0 <= v < |s.pcs|
      ensures Checked(s', v)
    {
      assert Checked(s, v);
      if HoldsLock(s.pcs[v]) {
        PostBesideChecker(s, a, v);
        CheckedKept(s, s', v);
      }
    }
  }

  lemma PostBesideChecker(s: State, a: Action, v: nat)
    requires WakeInv(s) && !s.stop && Enabled(s, a) && (a.BeginPost? || a.ContinuePost? || a.SpuriousWake?)
    requires v < |s.pcs| && HoldsLock(s.pcs[v])
    ensures var s' := Next(s, a);
      && |s'.pcs| == |s.pcs| && |s'.deques| == |s.deques| && s'.pcs[v] == s.pcs[v]
      && (forall d :: 0 <= d < |s.pcs| && Awake(s.pcs[d]) ==> Awake(s'.pcs[d]))
      && (forall d :: 0 <= d < |s.deques| && s.deques[d] == [] ==> s'.deques[d] == [] || (d != v && Awake(s'.pcs[d])))
      && (s'.inject != [] ==> s.inject != [] || Pending(s'.posts))
      && (Pending(s.posts) ==> Pending(s'.posts))
  {
    var s' := Next(s, a);
    if a.BeginPost? || a.ContinuePost? {
      assert !s.posts[a.p].Pushed? || a.BeginPost?;
      PendingKept(s.posts, a.p, s'.posts[a.p]);
      assert s'.posts == s.posts[a.p := s'.posts[a.p]];
    }
  }

  lemma PendingKept(posts: seq<PostPc>, p: nat, pc: PostPc)
    requires p < |posts| && !posts[p].Pushed?
    ensures Pending(posts) ==> Pending(posts[p := pc])
    ensures pc.Pushed? ==> Pending(posts[p := pc])
  {
    if pc.Pushed? {
      assert posts[p := pc][p].Pushed?;
    }
    if Pending(posts) {
      var q :| 0 <= q < |posts| && posts[q].Pushed?;
      assert posts[p := pc][q].Pushed?;
    }
  }

  lemma PostLosesNoWakeup(s: State, a: Action)
    requires WakeInv(s) && !s.stop && Enabled(s, a) && (a.BeginPost? || a.ContinuePost? || a.SpuriousWake?)
    ensures NoLostWakeup(Next(s, a))
  {
    var s' := Next(s, a);
    match a {
      case SpuriousWake(w) => assert Awake(s'.pcs[w]);
      case BeginPost(p) => PendingKept(s.posts, p, s'.posts[p]);
      case ContinuePost(p, ok, wake) =>
        if s.posts[p].Pushed? {
          NotifyWakes(s, p, ok, wake);
        } else {
          PendingKept(s.posts, p, s'.posts[p]);
          if s'.posts[p].Pushed? {
            assert Pending(s'.posts);
          }
        }
    }
  }

  lemma NotifyWakes(s: State, p: nat, ok: bool, wake: nat)
    requires WakeInv(s) && !s.stop && Enabled(s, ContinuePost(p, ok, wake)) && s.posts[p].Pushed?
    ensures SomeoneAwake(Next(s, ContinuePost(p, ok, wake)).pcs)
  {
    var s' := Next(s, ContinuePost(p, ok, wake));
    if wake < |s.pcs| && s.pcs[wake].Sleeping? {
      assert Awake(s'.pcs[wake]);
    } else {
      assert Awake(s'.pcs[0]);
    }
  }

  /** Every step keeps it: before the pool stops, queued work without a notification still to come
      means some worker is awake. */
  lemma WakeStep(s: State, a: Action)
    requires WakeInv(s) && Enabled(s, a)
    ensures WakeInv(Next(s, a))
  {
    match a {
      case Work(w, victim, ok) =>
        WorkKeepsLocks(s, w, victim, ok);
        if !s.stop {
          WorkKeepsChecks(s, w, victim, ok);
          WorkLosesNoWakeup(s, w, victim, ok);
        }
        WorkFactsHold(s, w, victim, ok);
      case Stop => EndKeepsLocks(s, a);
      case NotifyAll => EndKeepsLocks(s, a);
      case Join => EndKeepsLocks(s, a);
      case DrainInject => EndKeepsLocks(s, a);
      case DrainDeque(d) => EndKeepsLocks(s, a);
      case _ =>
        PostKeepsLocks(s, a);
        if !s.stop {
          PostKeepsChecks(s, a);
          PostLosesNoWakeup(s, a);
        }
    }
  }

  // ---------------------------------------------------------------- no lost task

  function HeldByWorker(pc: WorkerPc): seq<Task> {
    match pc
    case Running(t) => [t]
    case Deleting(t) => [t]
    case _ => []
  }

  function HeldByPoster(pc: PostPc): seq<Task> {
    match pc
    case Created(t) => [t]
    case Overflowed(t) => [t]
    case _ => []
  }

  /** The tasks at a place, in order. */
  function Box(s: State, p: Place): seq<Task> {
    match p
    case Owned(i) => if i < |s.posts| then HeldByPoster(s.posts[i]) else []
    case InDeque(d) => if d < |s.deques| then s.deques[d] else []
    case InInject => s.inject
    case Taken(w) => if w < |s.pcs| then HeldByWorker(s.pcs[w]) else []
    case Deleted => []
  }

  /** A box holds exactly the tasks whose place it is, each once. */
  ghost predicate BoxOk(box: seq<Task>, place: seq<Place>, p: Place) {
    && (forall k :: 0 <= k < |box| ==> box[k] < |place| && place[box[k]] == p)
    && (forall j, k :: 0 <= j < k < |box| ==> box[j] != box[k])
    && forall t: Task :: t < |place| && place[t] == p ==> t in box
  }

  ghost predicate Boxes(s: State) {
    forall p: Place {:trigger Box(s, p)} :: !p.Deleted? ==> BoxOk(Box(s, p), s.place, p)
  }

  /** How often a task's body has run, by where the task is. */
  predicate FateOk(s: State, t: Task)
    requires Shape(s) && t < |s.place|
  {
    && s.deleted[t] == (if s.place[t].Deleted? then 1 else 0)
    && s.ran[t] <= 1
    && match s.place[t]
       case Taken(w) => w < |s.pcs| && s.ran[t] == if s.pcs[w].Deleting? then 1 else 0
       case Deleted => s.draining || s.ran[t] == 1
       case _ => s.ran[t] == 0
  }

  ghost predicate Fates(s: State)
    requires Shape(s)
  {
    forall t: Task :: t < |s.place| ==> FateOk(s, t)
  }

  ghost predicate TaskInv(s: State) {
    Shape(s) && Boxes(s) && Fates(s)
  }

  lemma InitKeepsTasks(workers: nat, others: nat, attempts: nat)
    requires workers > 0
    ensures TaskInv(Init(workers, others, attempts))
  {
    var s := Init(workers, others, attempts);
    forall p: Place | !p.Deleted?
      ensures BoxOk(Box(s, p), s.place, p)
    {
    }
  }

  lemma TaskLeaves(box: seq<Task>, box': seq<Task>, place: seq<Place>, t: Task, from: Place, to: Place)
    requires BoxOk(box, place, from) && box != [] && from != to
    requires (box' == box[1..] && t == box[0]) || (box' == box[..|box| - 1] && t == box[|box| - 1])
    ensures t < |place| && place[t] == from && BoxOk(box', place[t := to], from)
  {
    forall x: Task | x < |place| && x != t && place[x] == from
      ensures x in box'
    {
      assert x in box;
    }
  }

  lemma TaskEnters(box: seq<Task>, place: seq<Place>, t: Task, to: Place)
    requires BoxOk(box, place, to) && t < |place| && place[t] != to
    ensures BoxOk(box + [t], place[t := to], to)
  {
  }

  lemma TaskElsewhere(box: seq<Task>, place: seq<Place>, t: Task, p: Place, to: Place)
    requires BoxOk(box, place, p) && t < |place| && place[t] != p && to != p
    ensures BoxOk(box, place[t := to], p)
  {
  }

  /** One task leaves one box and enters another, or is deleted. */
  ghost predicate Moves(s: State, s': State, t: Task, from: Place, to: Place) {
    && from != to && !from.Deleted?
    && s'.place == Put(s.place, t, to)
    && (var box, box' := Box(s, from), Box(s', from);
        box != [] && ((t == box[0] && box' == box[1..]) || (t == box[|box| - 1] && box' == box[..|box| - 1])))
    && (!to.Deleted? ==> Box(s', to) == Box(s, to) + [t])
    && (forall p: Place {:trigger Box(s', p)} :: p != from && p != to ==> Box(s', p) == Box(s, p))
  }

  lemma MoveKeepsBoxes(s: State, s': State, t: Task, from: Place, to: Place)
    requires Boxes(s) && Moves(s, s', t, from, to)
    ensures t < |s.place| && s.place[t] == from && Boxes(s')
  {
    TaskLeaves(Box(s, from), Box(s', from), s.place, t, from, to);
    forall p: Place | !p.Deleted?
      ensures BoxOk(Box(s', p), s'.place, p)
    {
      if p == to {
        TaskEnters(Box(s, p), s.place, t, to);
      } else if p != from {
        TaskElsewhere(Box(s, p), s.place, t, p, to);
      }
    }
  }

  /** Nothing moves. */
  ghost predicate Stays(s: State, s': State) {
    s'.place == s.place && forall p: Place {:trigger Box(s', p)} :: Box(s', p) == Box(s, p)
  }

  lemma StayKeepsBoxes(s: State, s': State)
    requires Boxes(s) && Stays(s, s')
    ensures Boxes(s')
  {
  }

  lemma FatesKept(s: State, s': State)
    requires TaskInv(s) && Shape(s') && s'.place == s.place && s'.ran == s.ran && s'.deleted == s.deleted
    requires |s'.pcs| == |s.pcs| && forall w :: 0 <= w < |s.pcs| ==> s'.pcs[w].Deleting? == s.pcs[w].Deleting?
    requires s.draining ==> s'.draining
    ensures Fates(s')
  {
    forall t: Task | t < |s.place|
      ensures FateOk(s', t)
    {
      assert FateOk(s, t);
    }
  }

  lemma FatesMove(s: State, s': State, t: Task, to: Place)
    requires TaskInv(s) && Shape(s') && t < |s.place| && s'.place == s.place[t := to] && s'.ran == s.ran && s'.deleted == s.deleted
    requires |s'.pcs| == |s.pcs| && forall w :: 0 <= w < |s.pcs| ==> s'.pcs[w].Deleting? == s.pcs[w].Deleting?
    requires s'.draining == s.draining && !s.place[t].Deleted? && !s.place[t].Taken? && !to.Deleted?
    requires to.Taken? ==> to.worker < |s.pcs| && !s.pcs[to.worker].Deleting?
    ensures Fates(s')
  {
    forall x: Task | x < |s.place|
      ensures FateOk(s', x)
    {
      assert FateOk(s, x);
    }
  }

  /** A worker takes a task from a queue. */
  lemma TakeKeepsTasks(s: State, s': State, w: nat, t: Task, from: Place)
    requires TaskInv(s) && Shape(s') && Moves(s, s', t, from, Taken(w)) && (from.InDeque? || from.InInject?)
    requires w < |s.pcs| && !s.pcs[w].Deleting? && s'.pcs == s.pcs[w := Running(t)]
    requires s'.ran == s.ran && s'.deleted == s.deleted && s'.draining == s.draining
    ensures TaskInv(s')
  {
    MoveKeepsBoxes(s, s', t, from, Taken(w));
    FatesMove(s, s', t, Taken(w));
  }

  lemma PopTakes(s: State, w: nat)
    requires TaskInv(s) && w < |s.pcs| && GrabsOwn(s, w)
    ensures TaskInv(PopOwn(s, w))
  {
    var q, s' := s.deques[w], PopOwn(s, w);
    assert s'.deques[w] == q[..|q| - 1];
    forall p: Place | p != InDeque(w) && p != Taken(w)
      ensures Box(s', p) == Box(s, p)
    {
    }
    TakeKeepsTasks(s, s', w, q[|q| - 1], InDeque(w));
  }

  lemma StealTakes(s: State, w: nat, victim: nat)
    requires TaskInv(s) && w < |s.pcs| && s.pcs[w].Stealing? && victim < |s.deques| && s.deques[victim] != []
    ensures TaskInv(StealFrom(s, w, victim))
  {
    var q, s' := s.deques[victim], StealFrom(s, w, victim);
    assert s'.deques[victim] == q[1..];
    forall p: Place | p != InDeque(victim) && p != Taken(w)
      ensures Box(s', p) == Box(s, p)
    {
    }
    TakeKeepsTasks(s, s', w, q[0], InDeque(victim));
  }

  lemma InjectTakes(s: State, w: nat)
    requires TaskInv(s) && w < |s.pcs| && GrabsInject(s, w)
    ensures TaskInv(TakeInjected(s, w))
  {
    TakeKeepsTasks(s, TakeInjected(s, w), w, s.inject[0], InInject);
  }

  lemma HandsHoldOne(s: State, w: nat)
    requires TaskInv(s) && w < |s.pcs| && (s.pcs[w].Running? || s.pcs[w].Deleting?)
    ensures s.pcs[w].task < |s.place| && s.place[s.pcs[w].task] == Taken(w)
    ensures forall x: Task :: x < |s.place| && s.place[x] == Taken(w) ==> x == s.pcs[w].task
  {
    var box := Box(s, Taken(w));
    assert BoxOk(box, s.place, Taken(w));
    assert box == [s.pcs[w].task] && box[0] == s.pcs[w].task;
  }

  lemma CountsDoNotMatter(s: State, ran: seq<nat>)
    requires Boxes(s)
    ensures Boxes(s.(ran := ran))
  {
    var s' := s.(ran := ran);
    forall p: Place
      ensures Box(s', p) == Box(s, p)
    {
    }
    assert Stays(s, s');
    StayKeepsBoxes(s, s');
  }

  lemma RunKeepsTasks(s: State, w: nat)
    requires TaskInv(s) && w < |s.pcs| && s.pcs[w].Running?
    ensures TaskInv(RunBody(s, w, s.pcs[w].task))
  {
    var t := s.pcs[w].task;
    HandsHoldOne(s, w);
    RetagKeepsBoxes(s, w, Deleting(t));
    CountsDoNotMatter(At(s, w, Deleting(t)), Bump(s.ran, t));
    RunKeepsFates(s, RunBody(s, w, t), w, t);
  }

  lemma RunKeepsFates(s: State, s': State, w: nat, t: Task)
    requires Shape(s) && Fates(s) && w < |s.pcs| && s.pcs[w] == Running(t) && t < |s.place| && s.place[t] == Taken(w)
    requires forall x: Task :: x < |s.place| && s.place[x] == Taken(w) ==> x == t
    requires s' == s.(pcs := s.pcs[w := Deleting(t)], ran := s.ran[t := s.ran[t] + 1])
    ensures Fates(s')
  {
    forall x: Task | x < |s.place|
      ensures FateOk(s', x)
    {
      assert FateOk(s, x);
    }
  }

  lemma DeleteKeepsTasks(s: State, w: nat)
    requires TaskInv(s) && w < |s.pcs| && s.pcs[w].Deleting?
    ensures TaskInv(Discard(s, w, s.pcs[w].task))
  {
    var t, s' := s.pcs[w].task, Discard(s, w, s.pcs[w].task);
    HandsHoldOne(s, w);
    assert [t][0] == t && [t][1..] == [];
    MoveKeepsBoxes(s, s', t, Taken(w), Deleted);
    forall x: Task | x < |s.place|
      ensures FateOk(s', x)
    {
      assert FateOk(s, x);
    }
  }

  /** A worker changes what it is doing and not what it holds. */
  lemma RetagKeepsBoxes(s: State, w: nat, pc: WorkerPc)
    requires Boxes(s) && w < |s.pcs| && HeldByWorker(s.pcs[w]) == HeldByWorker(pc)
    ensures Boxes(At(s, w, pc))
  {
    var s' := At(s, w, pc);
    assert s'.pcs == s.pcs[w := pc];
    forall p: Place
      ensures Box(s', p) == Box(s, p)
    {
      match p {
        case Taken(v) =>
        case _ =>
      }
    }
    assert Stays(s, s');
    StayKeepsBoxes(s, s');
  }

  lemma IdleKeepsTasks(s: State, w: nat, pc: WorkerPc)
    requires TaskInv(s) && w < |s.pcs| && HeldByWorker(s.pcs[w]) == [] == HeldByWorker(pc)
    ensures TaskInv(At(s, w, pc))
  {
    RetagKeepsBoxes(s, w, pc);
    FatesKept(s, At(s, w, pc));
  }

  lemma WorkKeepsTasks(s: State, w: nat, victim: nat, ok: bool)
    requires TaskInv(s) && Enabled(s, Work(w, victim, ok))
    ensures TaskInv(Next(s, Work(w, victim, ok)))
  {
    if GrabsOwn(s, w) {
      PopTakes(s, w);
    } else if Steals(s, w, victim, ok) {
      StealTakes(s, w, victim);
    } else if GrabsInject(s, w) {
      InjectTakes(s, w);
    } else if s.pcs[w].Running? {
      RunKeepsTasks(s, w);
    } else if s.pcs[w].Deleting? {
      DeleteKeepsTasks(s, w);
    } else {
      IdleKeepsTasks(s, w, QuietPc(s, w));
    }
  }

  lemma CreateKeepsTasks(s: State, p: nat)
    requires TaskInv(s) && Enabled(s, BeginPost(p))
    ensures TaskInv(Next(s, BeginPost(p)))
  {
    var s', t := Next(s, BeginPost(p)), |s.place|;
    forall q: Place | !q.Deleted?
      ensures BoxOk(Box(s', q), s'.place, q)
    {
      assert BoxOk(Box(s, q), s.place, q);
      if q == Owned(p) {
        assert Box(s, q) == [] && Box(s', q) == [t];
      } else {
        assert Box(s', q) == Box(s, q);
      }
    }
    forall x: Task | x < |s'.place|
      ensures FateOk(s', x)
    {
      if x < t {
        assert FateOk(s, x);
      }
    }
  }

  lemma PushKeepsTasks(s: State, s': State, p: nat, t: Task, to: Place)
    requires TaskInv(s) && Shape(s') && Moves(s, s', t, Owned(p), to) && (to.InDeque? || to.InInject?)
    requires s'.pcs == s.pcs && s'.ran == s.ran && s'.deleted == s.deleted && s'.draining == s.draining
    ensures TaskInv(s')
  {
    MoveKeepsBoxes(s, s', t, Owned(p), to);
    FatesMove(s, s', t, to);
  }

  lemma PostNotifies(s: State, p: nat, ok: bool, wake: nat)
    requires TaskInv(s) && Enabled(s, ContinuePost(p, ok, wake)) && s.posts[p].Pushed?
    ensures TaskInv(PostStep(s, p, ok, wake))
  {
    RetagPosterKeepsTasks(s, p, NotPosting);
    if wake < |s.pcs| && s.pcs[wake].Sleeping? {
      IdleKeepsTasks(s.(posts := s.posts[p := NotPosting]), wake, Locking);
    }
  }

  /** A poster changes what it is doing and not what it holds. */
  lemma RetagPosterKeepsTasks(s: State, p: nat, pc: PostPc)
    requires TaskInv(s) && p < |s.posts| && HeldByPoster(s.posts[p]) == HeldByPoster(pc)
    ensures TaskInv(s.(posts := s.posts[p := pc]))
  {
    var s' := s.(posts := s.posts[p := pc]);
    forall q: Place
      ensures Box(s', q) == Box(s, q)
    {
      match q {
        case Owned(v) =>
        case _ =>
      }
    }
    StayKeepsBoxes(s, s');
    FatesKept(s, s');
  }

  lemma PushDeque(s: State, p: nat, t: Task, wake: nat)
    requires TaskInv(s) && Enabled(s, ContinuePost(p, true, wake)) && s.posts[p] == Created(t) && p < |s.pcs|
    ensures TaskInv(PostStep(s, p, true, wake))
  {
    var s' := PostStep(s, p, true, wake);
    assert [t][0] == t && [t][1..] == [];
    assert s'.deques[p] == s.deques[p] + [t];
    forall q: Place | q != InDeque(p) && q != Owned(p)
      ensures Box(s', q) == Box(s, q)
    {
    }
    PushKeepsTasks(s, s', p, t, InDeque(p));
  }

  lemma PushInjected(s: State, p: nat, t: Task)
    requires TaskInv(s) && p < |s.posts| && (s.posts[p] == Created(t) || s.posts[p] == Overflowed(t))
    ensures TaskInv(PushInject(s, p, t))
  {
    assert [t][0] == t && [t][1..] == [];
    PushKeepsTasks(s, PushInject(s, p, t), p, t, InInject);
  }

  lemma PostKeepsTasks(s: State, p: nat, ok: bool, wake: nat)
    requires TaskInv(s) && Enabled(s, ContinuePost(p, ok, wake))
    ensures TaskInv(PostStep(s, p, ok, wake))
  {
    if s.posts[p].Pushed? {
      PostNotifies(s, p, ok, wake);
    } else if s.posts[p].Created? && p < |s.pcs| && !ok {
      RetagPosterKeepsTasks(s, p, Overflowed(s.posts[p].task));
    } else if s.posts[p].Created? && p < |s.pcs| {
      PushDeque(s, p, s.posts[p].task, wake);
    } else {
      PushInjected(s, p, s.posts[p].task);
    }
  }

  lemma DrainKeepsTasks(s: State, s': State, t: Task, from: Place)
    requires TaskInv(s) && Shape(s') && Moves(s, s', t, from, Deleted) && (from.InDeque? || from.InInject?)
    requires s.draining && s'.draining && s'.pcs == s.pcs && s'.ran == s.ran && s'.deleted == Bump(s.deleted, t)
    ensures TaskInv(s')
  {
    MoveKeepsBoxes(s, s', t, from, Deleted);
    forall x: Task | x < |s.place|
      ensures FateOk(s', x)
    {
      assert FateOk(s, x);
    }
  }

  lemma DrainInjectKeepsTasks(s: State)
    requires TaskInv(s) && Enabled(s, DrainInject)
    ensures TaskInv(Next(s, DrainInject))
  {
    DrainKeepsTasks(s, Next(s, DrainInject), s.inject[0], InInject);
  }

  lemma DrainDequeKeepsTasks(s: State, d: nat)
    requires TaskInv(s) && Enabled(s, DrainDeque(d))
    ensures TaskInv(Next(s, DrainDeque(d)))
  {
    var q, s' := s.deques[d], Next(s, DrainDeque(d));
    assert s'.deques == s.deques[d := q[..|q| - 1]];
    forall p: Place | p != InDeque(d) && !p.Deleted?
      ensures Box(s', p) == Box(s, p)
    {
      match p {
        case InDeque(e) =>
        case _ =>
      }
    }
    DrainKeepsTasks(s, s', q[|q| - 1], InDeque(d));
  }

  lemma StopKeepsTasks(s: State)
    requires TaskInv(s)
    ensures TaskInv(s.(stop := true))
  {
    StayKeepsBoxes(s, s.(stop := true));
    FatesKept(s, s.(stop := true));
  }

  lemma JoinKeepsTasks(s: State)
    requires TaskInv(s)
    ensures TaskInv(s.(draining := true))
  {
    StayKeepsBoxes(s, s.(draining := true));
    FatesKept(s, s.(draining := true));
  }

  lemma WakingKeepsBoxes(s: State)
    requires Boxes(s)
    ensures Boxes(s.(pcs := WakeAll(s.pcs)))
  {
    var s' := s.(pcs := WakeAll(s.pcs));
    forall p: Place
      ensures Box(s', p) == Box(s, p)
    {
      match p {
        case Taken(w) =>
        case _ =>
      }
    }
    assert Stays(s, s');
    StayKeepsBoxes(s, s');
  }

  lemma NotifyKeepsTasks(s: State)
    requires TaskInv(s) && Enabled(s, NotifyAll)
    ensures TaskInv(Next(s, NotifyAll))
  {
    var woken := s.(pcs := WakeAll(s.pcs));
    WakingKeepsBoxes(s);
    FatesKept(s, woken);
    assert Next(s, NotifyAll) == woken.(notifiedAll := true);
    NotifiedDoesNotMatter(woken);
  }

  lemma NotifiedDoesNotMatter(s: State)
    requires TaskInv(s)
    ensures TaskInv(s.(notifiedAll := true))
  {
    StayKeepsBoxes(s, s.(notifiedAll := true));
    FatesKept(s, s.(notifiedAll := true));
  }

  /** Every step keeps each task in exactly one place. */
  lemma TaskStep(s: State, a: Action)
    requires TaskInv(s) && Enabled(s, a)
    ensures TaskInv(Next(s, a))
  {
    match a {
      case Work(w, victim, ok) => WorkKeepsTasks(s, w, victim, ok);
      case BeginPost(p) => CreateKeepsTasks(s, p);
      case ContinuePost(p, ok, wake) => PostKeepsTasks(s, p, ok, wake);
      case DrainInject => DrainInjectKeepsTasks(s);
      case DrainDeque(d) => DrainDequeKeepsTasks(s, d);
      case NotifyAll => NotifyKeepsTasks(s);
      case Stop => StopKeepsTasks(s);
      case Join => JoinKeepsTasks(s);
      case SpuriousWake(w) => IdleKeepsTasks(s, w, Locking);
    }
  }

  // ---------------------------------------------------------------- whole runs

  predicate Executable(s: State, acts: seq<Action>)
    decreases |acts|
  {
    acts == [] || (Enabled(s, acts[0]) && Executable(Next(s, acts[0]), acts[1..]))
  }

  function Final(s: State, acts: seq<Action>): State
    requires Executable(s, acts)
    decreases |acts|
  {
    if acts == [] then s else Final(Next(s, acts[0]), acts[1..])
  }

  lemma {:induction false} RunInv(s: State, acts: seq<Action>)
    requires WakeInv(s) && TaskInv(s) && Executable(s, acts)
    ensures WakeInv(Final(s, acts)) && TaskInv(Final(s, acts))
    decreases |acts|
  {
    if acts != [] {
      WakeStep(s, acts[0]);
      TaskStep(s, acts[0]);
      RunInv(Next(s, acts[0]), acts[1..]);
    }
  }

  /** No lost wakeup, in every run: before the destructor starts, if work is queued and every
      poster has notified, some worker is awake. */
  lemma QueuedWorkIsSeen(workers: nat, others: nat, attempts: nat, acts: seq<Action>)
    requires workers > 0 && Executable(Init(workers, others, attempts), acts)
    ensures var s := Final(Init(workers, others, attempts), acts);
      !s.stop && WorkQueued(s) && !Pending(s.posts) ==> SomeoneAwake(s.pcs)
  {
    InitWakes(workers, others, attempts);
    InitKeepsTasks(workers, others, attempts);
    RunInv(Init(workers, others, attempts), acts);
  }

  /** No lost task, in every run: a task's body runs at most once, the task is deleted at most
      once, not before its body has run unless the pool is being destroyed, and until then it is
      in exactly one deque, the inject queue, or one thread's hands. */
  lemma TasksAreKept(workers: nat, others: nat, attempts: nat, acts: seq<Action>, t: Task)
    requires workers > 0 && Executable(Init(workers, others, attempts), acts)
    requires t < |Final(Init(workers, others, attempts), acts).place|
    ensures var s := Final(Init(workers, others, attempts), acts);
      && |s.ran| == |s.deleted| == |s.place|
      && s.ran[t] <= 1 && s.deleted[t] <= 1
      && (s.deleted[t] == 1 && !s.draining ==> s.ran[t] == 1)
      && (s.deleted[t] == 0 ==> !s.place[t].Deleted? && t in Box(s, s.place[t]))
      && (forall p: Place :: t in Box(s, p) ==> p == s.place[t] && s.deleted[t] == 0)
  {
    InitWakes(workers, others, attempts);
    InitKeepsTasks(workers, others, attempts);
    RunInv(Init(workers, others, attempts), acts);
    var s := Final(Init(workers, others, attempts), acts);
    assert FateOk(s, t);
    assert BoxOk(Box(s, s.place[t]), s.place, s.place[t]) || s.place[t].Deleted?;
    forall p: Place | t in Box(s, p)
      ensures p == s.place[t] && s.deleted[t] == 0
    {
      assert BoxOk(Box(s, p), s.place, p);
    }
  }

  /** Shutting down: after notify_all nobody sleeps any more, so every worker can go on to exit;
      when the drained queues are empty every task ever posted has been deleted exactly once. */
  lemma ShutdownDeletesAll(workers: nat, others: nat, attempts: nat, acts: seq<Action>)
    requires workers > 0 && Executable(Init(workers, others, attempts), acts)
    ensures var s := Final(Init(workers, others, attempts), acts);
      && (s.notifiedAll ==> NobodySleeps(s.pcs))
      && |s.deleted| == |s.place|
      && (s.draining && !WorkQueued(s) ==> forall t: Task :: t < |s.place| ==> s.deleted[t] == 1)
  {
    InitWakes(workers, others, attempts);
    InitKeepsTasks(workers, others, attempts);
    RunInv(Init(workers, others, attempts), acts);
    var s := Final(Init(workers, others, attempts), acts);
    if s.draining && !WorkQueued(s) {
      forall t: Task | t < |s.place|
        ensures s.deleted[t] == 1
      {
        assert FateOk(s, t);
        NowhereLeft(s, t);
      }
    }
  }

  lemma NowhereLeft(s: State, t: Task)
    requires WakeInv(s) && TaskInv(s) && s.draining && !WorkQueued(s) && t < |s.place|
    ensures s.place[t].Deleted?
  {
    EveryBoxEmpty(s, s.place[t]);
    TaskIsBoxed(s, t);
  }

  lemma TaskIsBoxed(s: State, t: Task)
    requires TaskInv(s) && t < |s.place|
    ensures !s.place[t].Deleted? ==> t in Box(s, s.place[t])
  {
    assert s.place[t].Deleted? || BoxOk(Box(s, s.place[t]), s.place, s.place[t]);
  }

  lemma EveryBoxEmpty(s: State, p: Place)
    requires WakeInv(s) && s.draining && !WorkQueued(s)
    ensures Box(s, p) == []
  {
  }
}
