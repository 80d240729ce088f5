/** One reference-counted object, its strong and weak holders, and any number of threads acting on
    it. Every atomic access is one step; a holder is a Ref or WeakRef variable, or a detached +1. */
module RefCountMachine {

  /** Where a thread is inside Release, ReleaseWeakRef or TryAddRefFromWeak. */
  datatype Pc =
    | Idle
    | Destroying
    | ReleasingPhantom
    | Freeing
    | Promoting(weak: nat, ref: nat, current: nat)

  /** What has become of the object: not yet adopted by a first Ref, alive, taken to zero by a
      thread that is to destroy it, destroyed with that thread's weak reference still to go, gone. */
  datatype Stage = Fresh | Alive | Dying(thread: nat) | Dead(thread: nat) | Gone

  /** The storage: held by a weak reference, given up by the thread that is to free it, freed. */
  datatype Storage = Held | GivenUp(thread: nat) | Freed

  datatype State = State(
    strong: nat, weak: nat, pcs: seq<Pc>, refs: set<nat>, weaks: set<nat>,
    stage: Stage, storage: Storage, destroyed: nat, freed: nat)

  datatype Action =
    | Adopt(ref: nat)
    | CopyRef(src: nat, dst: nat)
    | MoveRef(src: nat, dst: nat)
    | MakeWeak(ref: nat, weak: nat)
    | CopyWeak(wsrc: nat, wdst: nat)
    | MoveWeak(wsrc: nat, wdst: nat)
    | Release(t: nat, ref: nat)
    | ReleaseWeak(t: nat, weak: nat)
    | BeginLock(t: nat, weak: nat, ref: nat)
    | Proceed(t: nat)
    | SpuriousFailure(t: nat)

  function Init(threads: nat): State {
    State(0, 1, seq(threads, _ => Idle), {}, {}, Fresh, Held, 0, 0)
  }

  /** A strong holder's name is free if no Ref has it and no Lock is about to. */
  predicate FreeRef(s: State, ref: nat) {
    ref !in s.refs && forall t :: 0 <= t < |s.pcs| && s.pcs[t].Promoting? ==> s.pcs[t].ref != ref
  }

  /** A weak holder may be dropped or moved only while no Lock runs through it. */
  predicate Unused(s: State, weak: nat) {
    forall t :: 0 <= t < |s.pcs| && s.pcs[t].Promoting? ==> s.pcs[t].weak != weak
  }

  predicate IsIdle(s: State, t: nat) {
    t < |s.pcs| && s.pcs[t].Idle?
  }

  /** The holder discipline: every operation goes through a holder the caller has. */
  predicate Enabled(s: State, a: Action) {
    match a
    case Adopt(r) => s.stage.Fresh? && FreeRef(s, r)
    case CopyRef(src, dst) => src in s.refs && FreeRef(s, dst)
    case MoveRef(src, dst) => src in s.refs && FreeRef(s, dst)
    case MakeWeak(r, w) => r in s.refs && w !in s.weaks
    case CopyWeak(src, dst) => src in s.weaks && dst !in s.weaks
    case MoveWeak(src, dst) => src in s.weaks && Unused(s, src) && dst !in s.weaks
    case Release(t, r) => IsIdle(s, t) && r in s.refs
    case ReleaseWeak(t, w) => IsIdle(s, t) && w in s.weaks && Unused(s, w)
    case BeginLock(t, w, r) => IsIdle(s, t) && w in s.weaks && FreeRef(s, r)
    case Proceed(t) => t < |s.pcs| && !s.pcs[t].Idle?
    case SpuriousFailure(t) => t < |s.pcs| && s.pcs[t].Promoting? && s.pcs[t].current != 0
  }

  /** fetch_sub on a 32-bit counter. */
  function Dec(x: nat): nat {
    if x == 0 then 0xFFFF_FFFF else x - 1
  }

  function At(s: State, t: nat, pc: Pc): State
    requires t < |s.pcs|
  {
    s.(pcs := s.pcs[t := pc])
  }

  function DropWeak(s: State, t: nat): State
    requires t < |s.pcs|
  {
    var last := s.weak == 1;
    At(s, t, if last then Freeing else Idle).(weak := Dec(s.weak), storage := if last then GivenUp(t) else s.storage)
  }

  function Next(s: State, a: Action): State
    requires Enabled(s, a)
  {
    match a
    case Adopt(r) => s.(strong := s.strong + 1, refs := s.refs + {r}, stage := Alive)
    case CopyRef(src, dst) => s.(strong := s.strong + 1, refs := s.refs + {dst})
    case MoveRef(src, dst) => s.(refs := s.refs - {src} + {dst})
    case MakeWeak(r, w) => s.(weak := s.weak + 1, weaks := s.weaks + {w})
    case CopyWeak(src, dst) => s.(weak := s.weak + 1, weaks := s.weaks + {dst})
    case MoveWeak(src, dst) => s.(weaks := s.weaks - {src} + {dst})
    case Release(t, r) =>
      var last := s.strong == 1;
      At(s, t, if last then Destroying else Idle).(
        strong := Dec(s.strong), refs := s.refs - {r}, stage := if last then Dying(t) else s.stage)
    case ReleaseWeak(t, w) => DropWeak(s, t).(weaks := s.weaks - {w})
    case BeginLock(t, w, r) => At(s, t, Promoting(w, r, s.strong))
    case SpuriousFailure(t) => At(s, t, s.pcs[t].(current := s.strong))
    case Proceed(t) =>
      match s.pcs[t]
      case Destroying => At(s, t, ReleasingPhantom).(destroyed := s.destroyed + 1, stage := Dead(t))
      case ReleasingPhantom => DropWeak(s, t).(stage := Gone)
      case Freeing => At(s, t, Idle).(freed := s.freed + 1, storage := Freed)
      case Promoting(w, r, current) =>
        if current == 0 then At(s, t, Idle)
        else if s.strong == current then At(s, t, Idle).(strong := current + 1, refs := s.refs + {r})
        else At(s, t, Promoting(w, r, s.strong))
  }

  predicate Ended(s: State) {
    s.stage.Dying? || s.stage.Dead? || s.stage.Gone?
  }

  predicate Destroyed(s: State) {
    s.stage.Dead? || s.stage.Gone?
  }

  /** What thread t is doing agrees with the object's history and the holders. */
  predicate ThreadOk(s: State, t: nat)
    requires t < |s.pcs|
  {
    && (s.pcs[t].Destroying? <==> s.stage == Dying(t))
    && (s.pcs[t].ReleasingPhantom? <==> s.stage == Dead(t))
    && (s.pcs[t].Freeing? <==> s.storage == GivenUp(t))
    && (s.pcs[t].Promoting? ==> s.pcs[t].weak in s.weaks && s.pcs[t].ref !in s.refs)
    && (s.pcs[t].Promoting? && s.pcs[t].current == 0 ==> Ended(s))
  }

  ghost predicate Threads(s: State) {
    && (forall t :: 0 <= t < |s.pcs| ==> ThreadOk(s, t))
    && (s.stage.Dying? || s.stage.Dead? ==> s.stage.thread < |s.pcs|)
    && (s.storage.GivenUp? ==> s.storage.thread < |s.pcs|)
  }

  ghost predicate NamesApart(s: State) {
    forall t, u :: 0 <= t < u < |s.pcs| && s.pcs[t].Promoting? && s.pcs[u].Promoting? ==> s.pcs[t].ref != s.pcs[u].ref
  }

  ghost predicate Counts(s: State) {
    && s.strong == |s.refs|
    && s.weak == |s.weaks| + (if s.stage.Gone? then 0 else 1)
    && s.destroyed == (if Destroyed(s) then 1 else 0)
    && s.freed == (if s.storage.Freed? then 1 else 0)
    && (s.stage.Alive? <==> s.refs != {})
    && (s.storage.Held? <==> s.weak > 0)
    && (s.stage.Fresh? ==> s.weaks == {})
  }

  ghost predicate Inv(s: State) {
    Counts(s) && Threads(s) && NamesApart(s)
  }

  lemma InitInv(threads: nat)
    ensures Inv(Init(threads))
  {
  }

  lemma AddSize(s: set<nat>, x: nat)
    requires x !in s
    ensures |s + {x}| == |s| + 1
  {
  }

  lemma DropSize(s: set<nat>, x: nat)
    requires x in s
    ensures |s - {x}| == |s| - 1 && (|s| == 1 <==> s - {x} == {})
  {
    assert s == (s - {x}) + {x};
  }

  lemma AdditionCounts(s: State, a: Action)
    requires Counts(s) && Enabled(s, a) && (a.Adopt? || a.CopyRef? || a.MakeWeak? || a.CopyWeak?)
    ensures Counts(Next(s, a))
  {
    match a {
      case Adopt(r) => AddSize(s.refs, r);
      case CopyRef(src, dst) => AddSize(s.refs, dst);
      case MakeWeak(r, w) => AddSize(s.weaks, w);
      case CopyWeak(src, dst) => AddSize(s.weaks, dst);
    }
  }

  lemma MoveCounts(s: State, a: Action)
    requires Counts(s) && Enabled(s, a) && (a.MoveRef? || a.MoveWeak?)
    ensures Counts(Next(s, a))
  {
    match a {
      case MoveRef(src, dst) => DropSize(s.refs, src); AddSize(s.refs - {src}, dst);
      case MoveWeak(src, dst) => DropSize(s.weaks, src); AddSize(s.weaks - {src}, dst);
    }
  }

  lemma ReleaseCounts(s: State, t: nat, r: nat)
    requires Counts(s) && Enabled(s, Release(t, r))
    ensures Counts(Next(s, Release(t, r)))
  {
    DropSize(s.refs, r);
  }

  lemma ReleaseWeakCounts(s: State, t: nat, w: nat)
    requires Counts(s) && Enabled(s, ReleaseWeak(t, w))
    ensures Counts(Next(s, ReleaseWeak(t, w)))
  {
    DropSize(s.weaks, w);
  }

  lemma ProceedCounts(s: State, t: nat)
    requires Counts(s) && Enabled(s, Proceed(t)) && ThreadOk(s, t)
    ensures Counts(Next(s, Proceed(t)))
  {
    if s.pcs[t].Promoting? && s.pcs[t].current != 0 && s.strong == s.pcs[t].current {
      AddSize(s.refs, s.pcs[t].ref);
    }
  }

  lemma CountsStep(s: State, a: Action)
    requires Inv(s) && Enabled(s, a)
    ensures Counts(Next(s, a))
  {
    match a {
      case Release(t, r) => ReleaseCounts(s, t, r);
      case ReleaseWeak(t, w) => ReleaseWeakCounts(s, t, w);
      case Proceed(t) => ProceedCounts(s, t);
      case MoveRef(src, dst) => MoveCounts(s, a);
      case MoveWeak(src, dst) => MoveCounts(s, a);
      case BeginLock(t, w, r) =>
      case SpuriousFailure(t) =>
      case _ => AdditionCounts(s, a);
    }
  }

  lemma HolderThreads(s: State, a: Action, t: nat)
    requires Counts(s) && t < |s.pcs| && ThreadOk(s, t) && Enabled(s, a)
    requires !a.Release? && !a.ReleaseWeak? && !a.Proceed? && !a.BeginLock? && !a.SpuriousFailure?
    ensures ThreadOk(Next(s, a), t)
  {
  }

  lemma LockThreads(s: State, a: Action, t: nat)
    requires Counts(s) && t < |s.pcs| && ThreadOk(s, t) && Enabled(s, a) && (a.BeginLock? || a.SpuriousFailure?)
    ensures ThreadOk(Next(s, a), t)
  {
  }

  lemma ReleaseThreads(s: State, u: nat, r: nat, t: nat)
    requires Counts(s) && t < |s.pcs| && ThreadOk(s, t) && Enabled(s, Release(u, r))
    ensures ThreadOk(Next(s, Release(u, r)), t)
  {
  }

  lemma ReleaseWeakThreads(s: State, u: nat, w: nat, t: nat)
    requires Counts(s) && t < |s.pcs| && ThreadOk(s, t) && Enabled(s, ReleaseWeak(u, w))
    ensures ThreadOk(Next(s, ReleaseWeak(u, w)), t)
  {
    DropSize(s.weaks, w);
  }

  lemma ProceedThreads(s: State, u: nat, t: nat)
    requires Counts(s) && NamesApart(s) && t < |s.pcs| && ThreadOk(s, t) && Enabled(s, Proceed(u)) && ThreadOk(s, u)
    ensures ThreadOk(Next(s, Proceed(u)), t)
  {
    if s.pcs[u].Promoting? && t != u && s.pcs[t].Promoting? {
      assert s.pcs[t].ref != s.pcs[u].ref;
    }
  }

  lemma ThreadStep(s: State, a: Action, t: nat)
    requires Counts(s) && NamesApart(s) && t < |s.pcs| && ThreadOk(s, t) && Enabled(s, a)
    requires a.Proceed? ==> ThreadOk(s, a.t)
    ensures ThreadOk(Next(s, a), t)
  {
    match a {
      case Release(u, r) => ReleaseThreads(s, u, r, t);
      case ReleaseWeak(u, w) => ReleaseWeakThreads(s, u, w, t);
      case Proceed(u) => ProceedThreads(s, u, t);
      case BeginLock(u, w, r) => LockThreads(s, a, t);
      case SpuriousFailure(u) => LockThreads(s, a, t);
      case _ => HolderThreads(s, a, t);
    }
  }

  lemma SizeKept(s: State, a: Action)
    requires Enabled(s, a)
    ensures |Next(s, a).pcs| == |s.pcs|
    ensures var s' := Next(s, a);
      && (s'.stage != s.stage && (s'.stage.Dying? || s'.stage.Dead?) ==> s'.stage.thread < |s.pcs|)
      && (s'.storage != s.storage && s'.storage.GivenUp? ==> s'.storage.thread < |s.pcs|)
  {
  }

  lemma ThreadsStep(s: State, a: Action)
    requires Inv(s) && Enabled(s, a)
    ensures Threads(Next(s, a))
  {
    var s' := Next(s, a);
    SizeKept(s, a);
    forall t | 0 <= t < |s'.pcs|
      ensures ThreadOk(s', t)
    {
      ThreadStep(s, a, t);
    }
  }

  /** Only BeginLock makes a new promotion, under a name nobody else uses. */
  lemma NamesStep(s: State, a: Action)
    requires NamesApart(s) && Enabled(s, a)
    ensures NamesApart(Next(s, a))
  {
    var s' := Next(s, a);
    forall t, u | 0 <= t < u < |s'.pcs| && s'.pcs[t].Promoting? && s'.pcs[u].Promoting?
      ensures s'.pcs[t].ref != s'.pcs[u].ref
    {
      NameKept(s, a, t);
      NameKept(s, a, u);
    }
  }

  lemma NameKept(s: State, a: Action, t: nat)
    requires Enabled(s, a) && t < |s.pcs| && |Next(s, a).pcs| == |s.pcs| && Next(s, a).pcs[t].Promoting?
    ensures if a.BeginLock? && a.t == t then Next(s, a).pcs[t].ref == a.ref
            else s.pcs[t].Promoting? && Next(s, a).pcs[t].ref == s.pcs[t].ref
  {
  }

  lemma InvStep(s: State, a: Action)
    requires Inv(s) && Enabled(s, a)
    ensures Inv(Next(s, a))
  {
    CountsStep(s, a);
    ThreadsStep(s, a);
    NamesStep(s, a);
  }

  // ---------------------------------------------------------------- whole runs

  predicate Executable(s: State, acts: seq<Action>)
    decreases |acts|
  {
    acts == [] || (Enabled(s, acts[0]) && Executable(Next(s, acts[0]), acts[1..]))
  }

  function Final(s: State, acts: seq<Action>): State
    requires Executable(s, acts)
    decreases |acts|
  {
    if acts == [] then s else Final(Next(s, acts[0]), acts[1..])
  }

  lemma {:induction false} RunInv(s: State, acts: seq<Action>)
    requires Inv(s) && Executable(s, acts)
    ensures Inv(Final(s, acts))
    decreases |acts|
  {
    if acts != [] {
      InvStep(s, acts[0]);
      RunInv(Next(s, acts[0]), acts[1..]);
    }
  }

  /** In every interleaving: the counters are the numbers of holders, with one weak reference more
      for the strong holders together; the destructor runs at most once, never beside a strong
      holder; the storage is freed at most once, after the destructor, never beside a holder. */
  lemma LifetimeIsSafe(threads: nat, acts: seq<Action>)
    requires Executable(Init(threads), acts)
    ensures var s := Final(Init(threads), acts);
      && s.strong == |s.refs|
      && s.weak == |s.weaks| + (if s.stage.Gone? then 0 else 1)
      && s.destroyed <= 1 && s.freed <= s.destroyed
      && (s.refs != {} ==> s.destroyed == 0)
      && (s.weaks != {} ==> s.freed == 0)
  {
    InitInv(threads);
    RunInv(Init(threads), acts);
    if Final(Init(threads), acts).weaks != {} {
      var w :| w in Final(Init(threads), acts).weaks;
      DropSize(Final(Init(threads), acts).weaks, w);
    }
  }

  /** No step of anybody touches freed storage, and the storage is only freed once the object has
      been destroyed. */
  lemma NeverTouchedOnceFreed(s: State, a: Action)
    requires Inv(s) && Enabled(s, a)
    ensures s.freed == 0
    ensures Next(s, a).freed > 0 ==> s.destroyed == 1
  {
    match a {
      case Adopt(r) =>
      case CopyRef(src, dst) =>
      case MoveRef(src, dst) =>
      case MakeWeak(r, w) =>
      case CopyWeak(src, dst) => DropSize(s.weaks, src);
      case MoveWeak(src, dst) => DropSize(s.weaks, src);
      case Release(t, r) =>
      case ReleaseWeak(t, w) => DropSize(s.weaks, w);
      case BeginLock(t, w, r) => DropSize(s.weaks, w);
      case Proceed(t) => ProceedsOnHeldStorage(s, t);
      case SpuriousFailure(t) => assert ThreadOk(s, t); DropSize(s.weaks, s.pcs[t].weak);
    }
  }

  lemma ProceedsOnHeldStorage(s: State, t: nat)
    requires Inv(s) && Enabled(s, Proceed(t))
    ensures s.freed == 0
    ensures Next(s, Proceed(t)).freed > 0 ==> s.destroyed == 1
  {
    assert ThreadOk(s, t);
    if s.pcs[t].Promoting? {
      DropSize(s.weaks, s.pcs[t].weak);
    }
  }

  /** Once the count has reached zero nobody gets a strong reference again. */
  lemma {:induction false} NoResurrection(s: State, acts: seq<Action>)
    requires Inv(s) && Ended(s) && Executable(s, acts)
    ensures Ended(Final(s, acts)) && Final(s, acts).refs == {} && Final(s, acts).strong == 0
    decreases |acts|
  {
    if acts != [] {
      InvStep(s, acts[0]);
      StaysEnded(s, acts[0]);
      NoResurrection(Next(s, acts[0]), acts[1..]);
    }
  }

  lemma StaysEnded(s: State, a: Action)
    requires Inv(s) && Ended(s) && Enabled(s, a)
    ensures Ended(Next(s, a))
  {
    if a.Proceed? {
      assert ThreadOk(s, a.t);
    }
  }

  /** A Lock that returns a reference gets it while the object is alive, together with its
      increment; one that returns empty does so only because the count has reached zero. */
  lemma LockOutcome(s: State, t: nat)
    requires Inv(s) && t < |s.pcs| && s.pcs[t].Promoting? && Next(s, Proceed(t)).pcs[t].Idle?
    ensures var s', ref := Next(s, Proceed(t)), s.pcs[t].ref;
      if ref in s'.refs then
        s.stage.Alive? && s.destroyed == 0 && s'.strong == s.strong + 1 && s'.refs == s.refs + {ref}
      else
        Ended(s) && s.strong == 0 && s' == At(s, t, Idle)
  {
    assert ThreadOk(s, t);
  }

  /** Nothing leaks: an adopted object without holders, and with every thread done, has been
      destroyed and its storage freed. */
  lemma NothingLeaks(s: State)
    requires Inv(s) && !s.stage.Fresh? && s.refs == {} && s.weaks == {}
    requires forall t :: 0 <= t < |s.pcs| ==> s.pcs[t].Idle?
    ensures s.destroyed == 1 && s.freed == 1
  {
    FinishersAreBusy(s);
  }

  lemma FinishersAreBusy(s: State)
    requires Threads(s)
    ensures s.stage.Dying? || s.stage.Dead? ==> s.stage.thread < |s.pcs| && !s.pcs[s.stage.thread].Idle?
    ensures s.storage.GivenUp? ==> s.storage.thread < |s.pcs| && !s.pcs[s.storage.thread].Idle?
  {
    if s.stage.Dying? || s.stage.Dead? {
      assert ThreadOk(s, s.stage.thread);
    }
    if s.storage.GivenUp? {
      assert ThreadOk(s, s.storage.thread);
    }
  }
}
