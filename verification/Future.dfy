/** One future's shared state: Set, AddContinuation and Wait by any number of threads. A critical
    section under the mutex is one step; the value is whatever the only Set brings. */
module FutureMachine {
  import opened Occurrences
  import opened Options

  type Continuation = nat

  /** Adding: before AddContinuation's critical section. Inline: found the future ready.
      Notifying, Invoking: Set after its critical section, with the callbacks it swapped out.
      WaitLocking: Wait found the future not ready yet. */
  datatype Pc =
    | Idle
    | Adding(c: Continuation)
    | Inline(c: Continuation)
    | Notifying(toRun: seq<Continuation>)
    | Invoking(toRun: seq<Continuation>)
    | WaitLocking
    | Asleep
    | Returned

  /** Continuations are numbered as they arrive; ran counts their invocations. */
  datatype State<T> = State(
    value: Option<T>, callbacks: seq<Continuation>, pcs: seq<Pc>, ran: seq<nat>, notified: bool)

  datatype Action<T> =
    | Set(t: nat, value: T)
    | AddContinuation(t: nat)
    | Wait(t: nat)
    | Wake(t: nat)
    | Proceed(t: nat)

  function Init<T>(threads: nat): State<T> {
    State(None, [], seq(threads, _ => Idle), [], false)
  }

  predicate Enabled<T>(s: State<T>, a: Action<T>) {
    && a.t < |s.pcs|
    && match a
       case Set(t, _) => s.pcs[t].Idle? && s.value.None?
       case AddContinuation(t) => s.pcs[t].Idle?
       case Wait(t) => s.pcs[t].Idle?
       case Wake(t) => s.pcs[t].Asleep?
       case Proceed(t) => !s.pcs[t].Idle? && !s.pcs[t].Asleep? && !s.pcs[t].Returned?
  }

  function At<T>(s: State<T>, t: nat, pc: Pc): State<T>
    requires t < |s.pcs|
  {
    s.(pcs := s.pcs[t := pc])
  }

  function Invoke<T>(s: State<T>, c: Continuation): State<T> {
    if c < |s.ran| then s.(ran := s.ran[c := s.ran[c] + 1]) else s
  }

  function Next<T>(s: State<T>, a: Action<T>): State<T>
    requires Enabled(s, a)
  {
    match a
    case Set(t, v) => At(s, t, Notifying(s.callbacks)).(value := Some(v), callbacks := [])
    case AddContinuation(t) => At(s, t, Adding(|s.ran|)).(ran := s.ran + [0])
    case Wait(t) => At(s, t, if s.value.Some? then Returned else WaitLocking)
    case Wake(t) => At(s, t, WaitLocking)
    case Proceed(t) =>
      match s.pcs[t]
      case Adding(c) =>
        if s.value.Some? then At(s, t, Inline(c)) else At(s, t, Idle).(callbacks := s.callbacks + [c])
      case Inline(c) => Invoke(At(s, t, Idle), c)
      case Notifying(cs) =>
        s.(notified := true, pcs := seq(|s.pcs|, u requires 0 <= u < |s.pcs| =>
          if u == t then Invoking(cs) else if s.pcs[u].Asleep? then WaitLocking else s.pcs[u]))
      case Invoking(cs) => if cs == [] then At(s, t, Idle) else Invoke(At(s, t, Invoking(cs[1..])), cs[0])
      case WaitLocking => At(s, t, if s.value.Some? then Returned else Asleep)
  }

  // ---------------------------------------------------------------- the invariant

  /** The continuations in a thread's hands. */
  function Held(pc: Pc): seq<Continuation> {
    match pc
    case Adding(c) => [c]
    case Inline(c) => [c]
    case Notifying(cs) => cs
    case Invoking(cs) => cs
    case _ => []
  }

  function HeldBelow(pcs: seq<Pc>, c: Continuation, m: nat): nat
    requires m <= |pcs|
  {
    if m == 0 then 0 else HeldBelow(pcs, c, m - 1) + Occ(Held(pcs[m - 1]), c)
  }

  lemma {:induction false} HeldUpdate(pcs: seq<Pc>, t: nat, pc: Pc, c: Continuation, m: nat)
    requires t < |pcs| && m <= |pcs|
    ensures HeldBelow(pcs[t := pc], c, m) == HeldBelow(pcs, c, m) + if t < m then Occ(Held(pc), c) - Occ(Held(pcs[t]), c) else 0
  {
    if m > 0 {
      HeldUpdate(pcs, t, pc, c, m - 1);
    }
  }

  lemma {:induction false} HeldSame(pcs: seq<Pc>, pcs': seq<Pc>, c: Continuation, m: nat)
    requires m <= |pcs| == |pcs'| && forall t :: 0 <= t < |pcs| ==> Held(pcs'[t]) == Held(pcs[t])
    ensures HeldBelow(pcs', c, m) == HeldBelow(pcs, c, m)
  {
    if m > 0 {
      HeldSame(pcs, pcs', c, m - 1);
    }
  }

  lemma {:induction false} HeldZero(pcs: seq<Pc>, c: Continuation, m: nat)
    requires m <= |pcs|
    ensures HeldBelow(pcs, c, m) == 0 <==> forall t :: 0 <= t < m ==> NotHeld(pcs[t], c)
  {
    if m > 0 {
      HeldZero(pcs, c, m - 1);
      assert HeldBelow(pcs, c, m) == 0 <==> HeldBelow(pcs, c, m - 1) == 0 && NotHeld(pcs[m - 1], c);
    }
  }

  predicate NotHeld(pc: Pc, c: Continuation) {
    Occ(Held(pc), c) == 0
  }

  /** A continuation is stored, or in one thread's hands, or has run; one of these, and once. */
  ghost predicate Accounted<T>(s: State<T>, c: Continuation) {
    Occ(s.callbacks, c) + HeldBelow(s.pcs, c, |s.pcs|) + (if c < |s.ran| then s.ran[c] else 0) == if c < |s.ran| then 1 else 0
  }

  ghost predicate AllAccounted<T>(s: State<T>) {
    forall c: Continuation :: Accounted(s, c)
  }

  predicate PcOk<T>(s: State<T>, pc: Pc) {
    match pc
    case Inline(_) => s.value.Some?
    case Notifying(_) => s.value.Some? && !s.notified
    case Invoking(_) => s.value.Some? && s.notified
    case Asleep => !s.notified
    case Returned => s.value.Some?
    case _ => true
  }

  /** Before the value nothing has run; after it nothing is stored. */
  ghost predicate Timely<T>(s: State<T>) {
    && (forall t :: 0 <= t < |s.pcs| ==> PcOk(s, s.pcs[t]))
    && (s.value.Some? ==> s.callbacks == [])
    && (s.value.None? ==> !s.notified && forall c :: 0 <= c < |s.ran| ==> s.ran[c] == 0)
    && (s.value.Some? && !s.notified ==> exists t :: 0 <= t < |s.pcs| && s.pcs[t].Notifying?)
    && (forall t, u :: 0 <= t < u < |s.pcs| ==> !(s.pcs[t].Notifying? && s.pcs[u].Notifying?))
  }

  ghost predicate Inv<T>(s: State<T>) {
    AllAccounted(s) && Timely(s)
  }

  lemma InitInv<T>(threads: nat)
    ensures Inv(Init<T>(threads))
  {
    var s := Init<T>(threads);
    forall c: Continuation
      ensures Accounted(s, c)
    {
      HeldZero(s.pcs, c, |s.pcs|);
    }
  }

  lemma TimelyStep<T>(s: State<T>, a: Action<T>)
    requires Timely(s) && Enabled(s, a) && !a.Proceed?
    ensures Timely(Next(s, a))
  {
    if a.Set? {
      assert Next(s, a).pcs[a.t].Notifying?;
    } else if s.value.Some? && !s.notified {
      var t :| 0 <= t < |s.pcs| && s.pcs[t].Notifying?;
      assert Next(s, a).pcs[t].Notifying?;
    }
  }

  lemma TimelyProceed<T>(s: State<T>, t: nat)
    requires Timely(s) && Enabled(s, Proceed(t))
    ensures Timely(Next(s, Proceed(t)))
  {
    if s.value.Some? && !s.notified && !s.pcs[t].Notifying? {
      var u :| 0 <= u < |s.pcs| && s.pcs[u].Notifying?;
      assert Next(s, Proceed(t)).pcs[u].Notifying?;
    }
    assert PcOk(s, s.pcs[t]);
  }

  lemma SetAccounts<T>(s: State<T>, t: nat, v: T, c: Continuation)
    requires Enabled(s, Action.Set(t, v)) && Accounted(s, c)
    ensures Accounted(Next(s, Action.Set(t, v)), c)
  {
    HeldUpdate(s.pcs, t, Notifying(s.callbacks), c, |s.pcs|);
  }

  lemma AddAccounts<T>(s: State<T>, t: nat, c: Continuation)
    requires Enabled(s, AddContinuation(t)) && Accounted(s, c)
    ensures Accounted(Next(s, AddContinuation(t)), c)
  {
    HeldUpdate(s.pcs, t, Adding(|s.ran|), c, |s.pcs|);
    assert Occ([|s.ran|], c) == if c == |s.ran| then 1 else 0 by {
      OccPrefix([|s.ran|], 0, c);
      assert [|s.ran|][..1] == [|s.ran|] && [|s.ran|][..0] == [];
    }
  }

  /** A thread's pc changes and with it nothing it holds. */
  lemma MoveAccounts<T>(s: State<T>, t: nat, pc: Pc, c: Continuation)
    requires t < |s.pcs| && Held(pc) == Held(s.pcs[t]) && Accounted(s, c)
    ensures Accounted(At(s, t, pc), c)
  {
    HeldUpdate(s.pcs, t, pc, c, |s.pcs|);
  }

  lemma StoreAccounts<T>(s: State<T>, t: nat, c: Continuation)
    requires t < |s.pcs| && s.pcs[t].Adding? && Accounted(s, c)
    ensures Accounted(At(s, t, Idle).(callbacks := s.callbacks + [s.pcs[t].c]), c)
  {
    HeldUpdate(s.pcs, t, Idle, c, |s.pcs|);
    OccSplit(s.callbacks, [s.pcs[t].c], c);
  }

  /** Invoking the first continuation in hand takes it out of the hand. */
  lemma InvokeAccounts<T>(s: State<T>, t: nat, pc: Pc, c: Continuation)
    requires t < |s.pcs| && Held(s.pcs[t]) != [] && Held(pc) == Held(s.pcs[t])[1..] && AllAccounted(s)
    ensures Accounted(Invoke(At(s, t, pc), Held(s.pcs[t])[0]), c)
  {
    var hand := Held(s.pcs[t]);
    var first := hand[0];
    HeldUpdate(s.pcs, t, pc, c, |s.pcs|);
    HeldUpdate(s.pcs, t, pc, first, |s.pcs|);
    assert [first] + hand[1..] == hand;
    OccSplit([first], hand[1..], c);
    OccSplit([first], hand[1..], first);
    assert Occ([first], c) == if c == first then 1 else 0 by { OccOne(first, c); }
    OccOne(first, first);
    assert Accounted(s, c) && Accounted(s, first);
  }

  lemma OccOne(x: nat, c: nat)
    ensures Occ([x], c) == if c == x then 1 else 0
  {
    assert [x][..0] == [];
  }

  lemma ProceedAccounts<T>(s: State<T>, t: nat, c: Continuation)
    requires AllAccounted(s) && Enabled(s, Proceed(t))
    ensures Accounted(Next(s, Proceed(t)), c)
  {
    assert Accounted(s, c);
    match s.pcs[t] {
      case Adding(d) =>
        if s.value.Some? {
          MoveAccounts(s, t, Inline(d), c);
        } else {
          StoreAccounts(s, t, c);
        }
      case Inline(d) =>
        assert [d][0] == d && [d][1..] == [];
        InvokeAccounts(s, t, Idle, c);
      case Notifying(cs) => HeldSame(s.pcs, Next(s, Proceed(t)).pcs, c, |s.pcs|);
      case Invoking(cs) =>
        if cs == [] {
          MoveAccounts(s, t, Idle, c);
        } else {
          InvokeAccounts(s, t, Invoking(cs[1..]), c);
        }
      case WaitLocking => MoveAccounts(s, t, if s.value.Some? then Returned else Asleep, c);
    }
  }

  lemma InvStep<T>(s: State<T>, a: Action<T>)
    requires Inv(s) && Enabled(s, a)
    ensures Inv(Next(s, a))
  {
    if a.Proceed? {
      TimelyProceed(s, a.t);
    } else {
      TimelyStep(s, a);
    }
    forall c: Continuation
      ensures Accounted(Next(s, a), c)
    {
      assert Accounted(s, c);
      match a {
        case Set(t, v) => SetAccounts(s, t, v, c);
        case AddContinuation(t) => AddAccounts(s, t, c);
        case Wait(t) => MoveAccounts(s, t, if s.value.Some? then Returned else WaitLocking, c);
        case Wake(t) => MoveAccounts(s, t, WaitLocking, c);
        case Proceed(t) => ProceedAccounts(s, t, c);
      }
    }
  }

  // ---------------------------------------------------------------- whole runs

  predicate Executable<T>(s: State<T>, acts: seq<Action<T>>)
    decreases |acts|
  {
    acts == [] || (Enabled(s, acts[0]) && Executable(Next(s, acts[0]), acts[1..]))
  }

  function Final<T>(s: State<T>, acts: seq<Action<T>>): State<T>
    requires Executable(s, acts)
    decreases |acts|
  {
    if acts == [] then s else Final(Next(s, acts[0]), acts[1..])
  }

  lemma {:induction false} RunInv<T>(s: State<T>, acts: seq<Action<T>>)
    requires Inv(s) && Executable(s, acts)
    ensures Inv(Final(s, acts))
    ensures s.value.Some? ==> Final(s, acts).value == s.value
    decreases |acts|
  {
    if acts != [] {
      InvStep(s, acts[0]);
      RunInv(Next(s, acts[0]), acts[1..]);
    }
  }

  /** What Set stores is what it was given. */
  lemma SetStores<T>(s: State<T>, t: nat, v: T)
    requires Enabled(s, Action.Set(t, v))
    ensures Next(s, Action.Set(t, v)).value == Some(v)
  {
  }

  /** Callbacks stored before the value came run in the order they were stored: new ones go to the
      end, Set takes them all over as they are, and its thread runs the first of those left. */
  lemma CallbacksInOrder<T>(s: State<T>, t: nat)
    requires t < |s.pcs|
    ensures Enabled(s, Proceed(t)) && s.pcs[t].Adding? && s.value.None? ==>
      Next(s, Proceed(t)).callbacks == s.callbacks + [s.pcs[t].c]
    ensures forall v: T :: Enabled(s, Action.Set(t, v)) ==> Next(s, Action.Set(t, v)).pcs[t] == Notifying(s.callbacks)
    ensures Enabled(s, Proceed(t)) && s.pcs[t].Notifying? ==> Next(s, Proceed(t)).pcs[t] == Invoking(s.pcs[t].toRun)
    ensures Enabled(s, Proceed(t)) && s.pcs[t].Invoking? && s.pcs[t].toRun != [] && s.pcs[t].toRun[0] < |s.ran| ==>
      var c, s' := s.pcs[t].toRun[0], Next(s, Proceed(t));
      s'.ran == s.ran[c := s.ran[c] + 1] && s'.pcs[t] == Invoking(s.pcs[t].toRun[1..])
  {
  }

  /** A thread's own steps until it is idle, has returned, or sleeps. */
  function Left(pc: Pc): nat {
    match pc
    case Adding(_) => 2
    case Inline(_) => 1
    case Notifying(cs) => |cs| + 2
    case Invoking(cs) => |cs| + 1
    case WaitLocking => 1
    case _ => 0
  }

  /** Every call comes to an end: each step of a thread brings it nearer, and a waiter that finds
      the value returns. */
  lemma CallsFinish<T>(s: State<T>, t: nat)
    requires Enabled(s, Proceed(t))
    ensures |Next(s, Proceed(t)).pcs| == |s.pcs| && Left(Next(s, Proceed(t)).pcs[t]) < Left(s.pcs[t])
    ensures s.pcs[t].WaitLocking? && s.value.Some? ==> Next(s, Proceed(t)).pcs[t].Returned?
  {
  }

  /** Nobody has a step of his own left. */
  predicate Settled<T>(s: State<T>) {
    forall t :: 0 <= t < |s.pcs| ==> s.pcs[t].Idle? || s.pcs[t].Asleep? || s.pcs[t].Returned?
  }

  /** Whatever the race between Set and AddContinuation: a continuation runs at most once and not
      before the value is there; and once everybody is done with a value there, every continuation
      has run exactly once and no waiter is left asleep. */
  lemma EachContinuationOnce<T>(threads: nat, acts: seq<Action<T>>)
    requires Executable(Init<T>(threads), acts)
    ensures var s := Final(Init<T>(threads), acts);
      && (forall c :: 0 <= c < |s.ran| ==> s.ran[c] <= 1 && (s.value.None? ==> s.ran[c] == 0))
      && (s.value.Some? && Settled(s) ==> forall c :: 0 <= c < |s.ran| ==> s.ran[c] == 1)
      && (s.value.Some? && Settled(s) ==> forall t :: 0 <= t < |s.pcs| ==> !s.pcs[t].Asleep?)
  {
    InitInv<T>(threads);
    RunInv(Init<T>(threads), acts);
    var s := Final(Init<T>(threads), acts);
    forall c | 0 <= c < |s.ran|
      ensures s.ran[c] <= 1 && (s.value.Some? && Settled(s) ==> s.ran[c] == 1)
    {
      assert Accounted(s, c);
      HeldZero(s.pcs, c, |s.pcs|);
    }
  }
}
