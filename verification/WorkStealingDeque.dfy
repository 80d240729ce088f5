/** The fixed-capacity Chase-Lev deque as a transition system: every atomic load, store and
    compare-exchange of PushBottom, PopBottom and Steal is one step, taken under sequential
    consistency by one owner and any number of thieves.  */
module DequeMachine {
  import opened Bits

  /** A task pointer; the value 0 is the null the constructor fills the buffer with. */
  type Pointer = int

  /** Where the owner stands inside PushBottom or PopBottom. `b` is the local of that name. */
  datatype OwnerPc =
    | OwnerIdle
    | PushLoadTop(item: Pointer, b: int)
    | PushStoreSlot(item: Pointer, b: int)
    | PushStoreBottom(item: Pointer, b: int)
    | PopStoreBottom(b: int)
    | PopLoadTop(b: int)
    | PopRestoreEmpty(b: int)
    | PopLoadOwn(b: int)
    | PopLoadLast(b: int)
    | PopCas(b: int, item: Pointer)
    | PopRestore(b: int, won: bool, item: Pointer)

  /** Where a thief stands inside Steal. */
  datatype ThiefPc =
    | ThiefIdle
    | StealLoadBottom(t: int)
    | StealLoadSlot(t: int)
    | StealCas(t: int, item: Pointer)

  datatype State = State(
    top: int, bottom: int, slots: seq<Pointer>, owner: OwnerPc, thieves: seq<ThiefPc>)

  /** One step: the owner or a thief starts a call (its first load) or takes its next step. */
  datatype Action =
    | StartPush(x: Pointer)
    | StartPop
    | Owner
    | StartSteal(i: nat)
    | Thief(i: nat)

  /** What a call hands back to its caller. */
  datatype Response =
    | PushedOk(x: Pointer)
    | PushRefused
    | PopGave(x: Pointer)
    | PopNull
    | StealGave(x: Pointer, index: int)
    | StealNull

  datatype Outcome = Pending | Returned(response: Response)

  datatype Result = Result(state: State, outcome: Outcome)

  function Init(capacity: nat, thiefCount: nat): State {
    State(0, 0, seq(capacity, _ => 0), OwnerIdle, seq(thiefCount, _ => ThiefIdle))
  }

  predicate Enabled(s: State, a: Action) {
    match a
    case StartPush(_) => s.owner.OwnerIdle?
    case StartPop => s.owner.OwnerIdle?
    case Owner => !s.owner.OwnerIdle?
    case StartSteal(i) => i < |s.thieves| && s.thieves[i].ThiefIdle?
    case Thief(i) => i < |s.thieves| && !s.thieves[i].ThiefIdle?
  }

  function Next(s: State, a: Action): Result
    requires |s.slots| > 0 && Enabled(s, a)
  {
    match a
    case StartPush(x) => Result(s.(owner := PushLoadTop(x, s.bottom)), Pending)
    case StartPop => Result(s.(owner := PopStoreBottom(s.bottom - 1)), Pending)
    case Owner => OwnerNext(s)
    case StartSteal(i) => Result(s.(thieves := s.thieves[i := StealLoadBottom(s.top)]), Pending)
    case Thief(i) => ThiefNext(s, i)
  }

  function OwnerNext(s: State): Result
    requires |s.slots| > 0 && !s.owner.OwnerIdle?
  {
    var cap := |s.slots|;
    match s.owner
    case PushLoadTop(x, b) =>
      if b - s.top >= cap then Result(s.(owner := OwnerIdle), Returned(PushRefused))
      else Result(s.(owner := PushStoreSlot(x, b)), Pending)
    case PushStoreSlot(x, b) =>
      Result(s.(slots := s.slots[b % cap := x], owner := PushStoreBottom(x, b)), Pending)
    case PushStoreBottom(x, b) =>
      Result(s.(bottom := b + 1, owner := OwnerIdle), Returned(PushedOk(x)))
    case PopStoreBottom(b) => Result(s.(bottom := b, owner := PopLoadTop(b)), Pending)
    case PopLoadTop(b) =>
      if s.top > b then Result(s.(owner := PopRestoreEmpty(b)), Pending)
      else if s.top < b then Result(s.(owner := PopLoadOwn(b)), Pending)
      else Result(s.(owner := PopLoadLast(b)), Pending)
    case PopRestoreEmpty(b) =>
      Result(s.(bottom := b + 1, owner := OwnerIdle), Returned(PopNull))
    case PopLoadOwn(b) => Result(s.(owner := OwnerIdle), Returned(PopGave(s.slots[b % cap])))
    case PopLoadLast(b) => Result(s.(owner := PopCas(b, s.slots[b % cap])), Pending)
    case PopCas(b, item) =>
      if s.top == b then Result(s.(top := b + 1, owner := PopRestore(b, true, item)), Pending)
      else Result(s.(owner := PopRestore(b, false, item)), Pending)
    case PopRestore(b, won, item) =>
      Result(s.(bottom := b + 1, owner := OwnerIdle), Returned(if won then PopGave(item) else PopNull))
  }

  function ThiefNext(s: State, i: nat): Result
    requires |s.slots| > 0 && i < |s.thieves| && !s.thieves[i].ThiefIdle?
  {
    match s.thieves[i]
    case StealLoadBottom(t) =>
      if t >= s.bottom then Result(SetThief(s, i, ThiefIdle), Returned(StealNull))
      else Result(SetThief(s, i, StealLoadSlot(t)), Pending)
    case StealLoadSlot(t) =>
      Result(SetThief(s, i, StealCas(t, s.slots[t % |s.slots|])), Pending)
    case StealCas(t, item) =>
      if s.top == t then Result(SetThief(s, i, ThiefIdle).(top := t + 1), Returned(StealGave(item, t)))
      else Result(SetThief(s, i, ThiefIdle), Returned(StealNull))
  }

  function SetThief(s: State, i: nat, pc: ThiefPc): State
    requires i < |s.thieves|
  {
    s.(thieves := s.thieves[i := pc])
  }

  // ---------------------------------------------------------------- the abstract deque

  /** One past the last index whose item is still in the deque. While a pop is undecided the
      item under the lowered bottom is still in; once the pop has claimed it, it is not. */
  function Limit(s: State): int {
    match s.owner
    case PopLoadTop(b) => b + 1
    case PopRestoreEmpty(b) => b + 1
    case PopLoadLast(b) => b + 1
    case PopCas(b, _) => b + 1
    case PopRestore(b, _, _) => b + 1
    case _ => s.bottom
  }

  /** The inductive invariant. The last two clauses are the heart of it: a stale thief whose
      index is still `top` names an item that is in the deque and holds the slot's value. */
  ghost predicate Inv(s: State) {
    && |s.slots| > 0
    && 0 <= s.top <= Limit(s) <= s.top + |s.slots|
    && OwnerInv(s)
    && forall i :: 0 <= i < |s.thieves| ==> ThiefInv(s, s.thieves[i])
  }

  ghost predicate OwnerInv(s: State) {
    var cap := |s.slots|;
    cap > 0 &&
    match s.owner
    case OwnerIdle => true
    case PushLoadTop(_, b) => b == s.bottom
    case PushStoreSlot(_, b) => b == s.bottom && b - s.top < cap
    case PushStoreBottom(x, b) => b == s.bottom && b - s.top < cap && b >= 0 && s.slots[b % cap] == x
    case PopStoreBottom(b) => b == s.bottom - 1
    case PopLoadTop(b) => b == s.bottom
    case PopRestoreEmpty(b) => b == s.bottom && s.top == b + 1
    case PopLoadOwn(b) => b == s.bottom
    case PopLoadLast(b) => b == s.bottom && b >= 0 && s.top >= b
    case PopCas(b, item) => b == s.bottom && b >= 0 && s.top >= b && (s.top == b ==> item == s.slots[b % cap])
    case PopRestore(b, _, _) => b == s.bottom && s.top == b + 1
  }

  ghost predicate ThiefInv(s: State, pc: ThiefPc) {
    |s.slots| > 0 &&
    match pc
    case ThiefIdle => true
    case StealLoadBottom(t) => 0 <= t <= s.top
    case StealLoadSlot(t) => 0 <= t <= s.top && (t == s.top ==> t < Limit(s))
    case StealCas(t, item) =>
      0 <= t <= s.top && (t == s.top ==> t < Limit(s) && item == s.slots[t % |s.slots|])
  }

  /** The refinement map: the items at indices [top, Limit), oldest first. */
  function Contents(s: State): (q: seq<Pointer>)
    requires |s.slots| > 0 && 0 <= s.top <= Limit(s)
    ensures |q| == Limit(s) - s.top
  {
    seq(Limit(s) - s.top, k requires 0 <= k => s.slots[(s.top + k) % |s.slots|])
  }

  /** Moves of the sequential deque: what a step does to the abstract contents. */
  datatype Effect = Stutter | AbsPush(x: Pointer) | AbsFull | AbsPop(x: Pointer) | AbsEmpty | AbsSteal(x: Pointer)

  ghost predicate SpecStep(capacity: nat, q: seq<Pointer>, e: Effect, q': seq<Pointer>) {
    match e
    case Stutter => q' == q
    case AbsPush(x) => |q| < capacity && q' == q + [x]
    case AbsFull => |q| == capacity && q' == q
    case AbsPop(x) => q == q' + [x]
    case AbsEmpty => q == [] && q' == []
    case AbsSteal(x) => q == [x] + q'
  }

  /** The linearization point of each call: the step at which its effect happens. */
  function EffectOf(s: State, a: Action): Effect
    requires |s.slots| > 0 && Enabled(s, a)
  {
    var cap := |s.slots|;
    match a
    case Owner => (
      match s.owner
      case PushLoadTop(_, b) => if b - s.top >= cap then AbsFull else Stutter
      case PushStoreBottom(x, _) => AbsPush(x)
      case PopLoadTop(b) =>
        if s.top > b then AbsEmpty else if s.top < b then AbsPop(s.slots[b % cap]) else Stutter
      case PopCas(b, item) => if s.top == b then AbsPop(item) else AbsEmpty
      case _ => Stutter)
    case Thief(i) => (
      match s.thieves[i]
      case StealCas(t, item) => if s.top == t then AbsSteal(item) else Stutter
      case _ => Stutter)
    case _ => Stutter
  }

  /** The response a linearized owner call still owes its caller, if any. */
  function Owed(s: State): Outcome
    requires |s.slots| > 0
  {
    match s.owner
    case PopRestoreEmpty(_) => Returned(PopNull)
    case PopLoadOwn(b) => Returned(PopGave(s.slots[b % |s.slots|]))
    case PopRestore(_, won, item) => Returned(if won then PopGave(item) else PopNull)
    case _ => Pending
  }

  function ResponseOf(e: Effect, s: State): Outcome {
    match e
    case Stutter => Pending
    case AbsPush(x) => Returned(PushedOk(x))
    case AbsFull => Returned(PushRefused)
    case AbsPop(x) => Returned(PopGave(x))
    case AbsEmpty => Returned(PopNull)
    case AbsSteal(x) => Returned(StealGave(x, s.top))
  }

  // ---------------------------------------------------------------- one step

  lemma InitInv(capacity: nat, thiefCount: nat)
    requires capacity > 0
    ensures Inv(Init(capacity, thiefCount)) && Contents(Init(capacity, thiefCount)) == []
  {
  }

  lemma SlotWriteKeepsContents(s: State, b: int, x: Pointer)
    requires |s.slots| > 0 && 0 <= s.top <= b < s.top + |s.slots|
    ensures forall k :: s.top <= k < b ==> s.slots[b % |s.slots| := x][k % |s.slots|] == s.slots[k % |s.slots|]
  {
    forall k | s.top <= k < b
      ensures k % |s.slots| != b % |s.slots|
    {
      DistinctSlots(k, b, |s.slots|);
    }
  }

  lemma OwnerStep(s: State, a: Action)
    requires Inv(s) && Enabled(s, a)
    ensures var s' := Next(s, a).state;
      && |s'.slots| == |s.slots| && OwnerInv(s')
      && 0 <= s'.top <= Limit(s') <= s'.top + |s'.slots|
  {
    if a.Thief? {
      assert ThiefInv(s, s.thieves[a.i]);
    }
  }

  lemma ThiefStep(s: State, a: Action, j: nat)
    requires Inv(s) && Enabled(s, a) && j < |Next(s, a).state.thieves|
    ensures j < |s.thieves| && ThiefInv(Next(s, a).state, Next(s, a).state.thieves[j])
  {
    if a.Owner? && s.owner.PushStoreSlot? {
      SlotWriteKeepsContents(s, s.owner.b, s.owner.item);
    }
    assert ThiefInv(s, s.thieves[j]);
  }

  lemma InvStep(s: State, a: Action)
    requires Inv(s) && Enabled(s, a)
    ensures Inv(Next(s, a).state)
    ensures s.top <= Next(s, a).state.top <= s.top + 1
    ensures var r := Next(s, a);
      r.outcome.Returned? && r.outcome.response.StealGave? ==>
        r.outcome.response.index == s.top && r.state.top == s.top + 1
    ensures |Next(s, a).state.slots| == |s.slots|
  {
    var s' := Next(s, a).state;
    OwnerStep(s, a);
    forall j | 0 <= j < |s'.thieves|
      ensures ThiefInv(s', s'.thieves[j])
    {
      ThiefStep(s, a, j);
    }
    if a.Thief? {
      assert ThiefInv(s, s.thieves[a.i]);
    }
  }

  /** Refinement: every step of every thread is a move of the sequential deque, so a steal
      takes the oldest item, a pop the youngest, and a null pop or a refused push happen only
      when the deque is really empty or full at that instant. */
  lemma StepRefines(s: State, a: Action)
    requires Inv(s) && Enabled(s, a)
    ensures Inv(Next(s, a).state)
    ensures SpecStep(|s.slots|, Contents(s), EffectOf(s, a), Contents(Next(s, a).state))
  {
    InvStep(s, a);
    if a.Thief? {
      ThiefEffect(s, a);
    } else {
      OwnerEffect(s, a);
    }
  }

  lemma OwnerEffect(s: State, a: Action)
    requires Inv(s) && Enabled(s, a) && !a.Thief?
    requires |Next(s, a).state.slots| > 0
    ensures SpecStep(|s.slots|, Contents(s), EffectOf(s, a), Contents(Next(s, a).state))
  {
    if a.Owner? && s.owner.PushStoreSlot? {
      SlotWriteKeepsContents(s, s.owner.b, s.owner.item);
    }
    var q, q' := Contents(s), Contents(Next(s, a).state);
    var effect := EffectOf(s, a);
    if effect.AbsPush? {
      assert q' == q + [effect.x];
    } else if effect.AbsPop? {
      assert q == q' + [effect.x];
    } else {
      assert q' == q;
    }
  }

  lemma ThiefEffect(s: State, a: Action)
    requires Inv(s) && Enabled(s, a) && a.Thief?
    requires |Next(s, a).state.slots| > 0
    ensures SpecStep(|s.slots|, Contents(s), EffectOf(s, a), Contents(Next(s, a).state))
  {
    assert ThiefInv(s, s.thieves[a.i]);
    var q, q' := Contents(s), Contents(Next(s, a).state);
    var effect := EffectOf(s, a);
    if effect.AbsSteal? {
      assert q == [effect.x] + q';
    } else {
      assert q' == q;
    }
  }

  /** Each call returns exactly what its linearization point decided: a response is either the
      effect of this very step or the one owed since an earlier step of the same call. A failing
      Steal is the only call that returns without an effect. */
  lemma ResponsesMatchEffects(s: State, a: Action)
    requires Inv(s) && Enabled(s, a)
    ensures var r := Next(s, a);
      && (a.Owner? && Owed(s).Returned? ==> EffectOf(s, a).Stutter? && r.outcome == Owed(s) && Owed(r.state).Pending?)
      && (a.Owner? && Owed(s).Pending? && EffectOf(s, a) != Stutter ==>
            if r.outcome.Returned? then r.outcome == ResponseOf(EffectOf(s, a), s) && Owed(r.state).Pending?
            else Owed(r.state) == ResponseOf(EffectOf(s, a), s))
      && (a.Owner? && Owed(s).Pending? && EffectOf(s, a) == Stutter ==> r.outcome.Pending? && Owed(r.state).Pending?)
      && (!a.Owner? ==> Owed(r.state) == Owed(s))
      && (!a.Owner? ==> r.outcome == ResponseOf(EffectOf(s, a), s) || r.outcome == Returned(StealNull))
      && (r.outcome == Returned(StealNull) ==> EffectOf(s, a) == Stutter)
  {
  }

  // ---------------------------------------------------------------- whole runs

  predicate Executable(s: State, acts: seq<Action>)
    requires |s.slots| > 0
    decreases |acts|
  {
    acts == [] ||
    (Enabled(s, acts[0]) && |Next(s, acts[0]).state.slots| > 0 && Executable(Next(s, acts[0]).state, acts[1..]))
  }

  function Final(s: State, acts: seq<Action>): State
    requires |s.slots| > 0 && Executable(s, acts)
    decreases |acts|
  {
    if acts == [] then s else Final(Next(s, acts[0]).state, acts[1..])
  }

  /** The responses of an interleaving, in the order in which the calls return. */
  function Responses(s: State, acts: seq<Action>): seq<Response>
    requires |s.slots| > 0 && Executable(s, acts)
    decreases |acts|
  {
    if acts == [] then []
    else
      var r := Next(s, acts[0]);
      Logged(r.outcome) + Responses(r.state, acts[1..])
  }

  function Logged(o: Outcome): seq<Response> {
    if o.Returned? then [o.response] else []
  }

  function Effects(s: State, acts: seq<Action>): seq<Effect>
    requires |s.slots| > 0 && Executable(s, acts)
    decreases |acts|
  {
    if acts == [] then [] else [EffectOf(s, acts[0])] + Effects(Next(s, acts[0]).state, acts[1..])
  }

  ghost predicate SpecRun(capacity: nat, q: seq<Pointer>, effects: seq<Effect>, q': seq<Pointer>)
    decreases |effects|
  {
    if effects == [] then q' == q
    else exists m: seq<Pointer> :: SpecStep(capacity, q, effects[0], m) && SpecRun(capacity, m, effects[1..], q')
  }

  /** Safety over whole runs: every interleaving of the owner and the thieves is a run of the
      sequential deque. */
  lemma {:induction false} RunRefines(s: State, acts: seq<Action>)
    requires Inv(s) && Executable(s, acts)
    ensures Inv(Final(s, acts)) && |Final(s, acts).slots| == |s.slots|
    ensures SpecRun(|s.slots|, Contents(s), Effects(s, acts), Contents(Final(s, acts)))
    decreases |acts|
  {
    if acts != [] {
      StepRefines(s, acts[0]);
      InvStep(s, acts[0]);
      var s' := Next(s, acts[0]).state;
      RunRefines(s', acts[1..]);
      assert Effects(s, acts)[1..] == Effects(s', acts[1..]);
    }
  }

  function PushedBy(o: Outcome, x: Pointer): nat {
    if o == Returned(PushedOk(x)) then 1 else 0
  }

  function GivenBy(o: Outcome, x: Pointer): nat {
    if o.Returned? && (o.response.PopGave? || o.response.StealGave?) && o.response.x == x then 1 else 0
  }

  /** How often `x` was pushed, and how often pops and steals handed it out. */
  function Pushed(rs: seq<Response>, x: Pointer): nat {
    if rs == [] then 0 else PushedBy(Returned(rs[0]), x) + Pushed(rs[1..], x)
  }

  function Given(rs: seq<Response>, x: Pointer): nat {
    if rs == [] then 0 else GivenBy(Returned(rs[0]), x) + Given(rs[1..], x)
  }

  /** One when `x` is the item an owner pop has claimed and not yet returned. */
  function Carried(s: State, x: Pointer): nat
    requires |s.slots| > 0
  {
    if Owed(s) == Returned(PopGave(x)) then 1 else 0
  }

  function Held(s: State, x: Pointer): nat
    requires |s.slots| > 0 && 0 <= s.top <= Limit(s)
  {
    multiset(Contents(s))[x] + Carried(s, x)
  }

  function Put(e: Effect, x: Pointer): nat {
    if e == AbsPush(x) then 1 else 0
  }

  function Took(e: Effect, x: Pointer): nat {
    if e == AbsPop(x) || e == AbsSteal(x) then 1 else 0
  }

  lemma MoveConserves(capacity: nat, q: seq<Pointer>, e: Effect, q': seq<Pointer>, x: Pointer)
    requires SpecStep(capacity, q, e, q')
    ensures multiset(q)[x] + Put(e, x) == multiset(q')[x] + Took(e, x)
  {
  }

  lemma ResponsesConserve(s: State, a: Action, x: Pointer)
    requires Inv(s) && Enabled(s, a) && Inv(Next(s, a).state)
    ensures PushedBy(Next(s, a).outcome, x) == Put(EffectOf(s, a), x)
    ensures Carried(s, x) + Took(EffectOf(s, a), x) == Carried(Next(s, a).state, x) + GivenBy(Next(s, a).outcome, x)
  {
    ResponsesMatchEffects(s, a);
  }

  lemma StepConserves(s: State, a: Action, x: Pointer)
    requires Inv(s) && Enabled(s, a) && Inv(Next(s, a).state)
    ensures Held(s, x) + PushedBy(Next(s, a).outcome, x) == Held(Next(s, a).state, x) + GivenBy(Next(s, a).outcome, x)
  {
    StepRefines(s, a);
    ResponsesConserve(s, a, x);
    MoveConserves(|s.slots|, Contents(s), EffectOf(s, a), Contents(Next(s, a).state), x);
  }

  lemma Tally(o: Outcome, rest: seq<Response>, x: Pointer)
    ensures Pushed(Logged(o) + rest, x) == PushedBy(o, x) + Pushed(rest, x)
    ensures Given(Logged(o) + rest, x) == GivenBy(o, x) + Given(rest, x)
  {
    if o.Returned? {
      assert (Logged(o) + rest)[1..] == rest;
    } else {
      assert Logged(o) + rest == rest;
    }
  }

  lemma {:induction false} RunConserves(s: State, acts: seq<Action>, x: Pointer)
    requires Inv(s) && Executable(s, acts) && Inv(Final(s, acts))
    ensures Held(s, x) + Pushed(Responses(s, acts), x) == Held(Final(s, acts), x) + Given(Responses(s, acts), x)
    decreases |acts|
  {
    if acts != [] {
      var r := Next(s, acts[0]);
      InvStep(s, acts[0]);
      StepConserves(s, acts[0], x);
      RunConserves(r.state, acts[1..], x);
      Tally(r.outcome, Responses(r.state, acts[1..]), x);
    }
  }

  /** Conservation: after any interleaving from the empty deque, every item has been pushed
      exactly as often as it was handed out, is still in the deque, or is being carried by an
      unfinished pop. */
  lemma Conservation(capacity: nat, thiefCount: nat, acts: seq<Action>, x: Pointer)
    requires capacity > 0 && Executable(Init(capacity, thiefCount), acts)
    ensures var s := Final(Init(capacity, thiefCount), acts);
      var rs := Responses(Init(capacity, thiefCount), acts);
      Inv(s) && Pushed(rs, x) == Given(rs, x) + multiset(Contents(s))[x] + Carried(s, x)
  {
    InitInv(capacity, thiefCount);
    RunRefines(Init(capacity, thiefCount), acts);
    RunConserves(Init(capacity, thiefCount), acts, x);
  }

  function StolenIndices(rs: seq<Response>): seq<int> {
    if rs == [] then []
    else (if rs[0].StealGave? then [rs[0].index] else []) + StolenIndices(rs[1..])
  }

  ghost predicate Rising(lo: int, ix: seq<int>) {
    && (forall i :: 0 <= i < |ix| ==> lo <= ix[i])
    && (forall i, j :: 0 <= i < j < |ix| ==> ix[i] < ix[j])
  }

  lemma RisingCons(lo: int, head: int, rest: seq<int>)
    requires lo <= head && Rising(head + 1, rest)
    ensures Rising(lo, [head] + rest)
  {
  }

  lemma StealsCons(lo: int, o: Outcome, hi: int, rest: seq<Response>)
    requires lo <= hi && Rising(hi, StolenIndices(rest))
    requires o.Returned? && o.response.StealGave? ==> o.response.index == lo && hi == lo + 1
    ensures Rising(lo, StolenIndices(Logged(o) + rest))
  {
    if o.Returned? {
      StolenCons(o.response, rest);
      if o.response.StealGave? {
        RisingCons(lo, lo, StolenIndices(rest));
      }
    } else {
      assert Logged(o) + rest == rest;
    }
  }

  lemma StolenCons(r: Response, rest: seq<Response>)
    ensures StolenIndices([r] + rest) == if r.StealGave? then [r.index] + StolenIndices(rest) else StolenIndices(rest)
  {
    assert ([r] + rest)[1..] == rest;
    assert [] + StolenIndices(rest) == StolenIndices(rest);
  }

  /** Steals follow push order: successive steals take strictly larger indices. */
  lemma {:induction false} StealsInOrder(s: State, acts: seq<Action>)
    requires Inv(s) && Executable(s, acts)
    ensures Rising(s.top, StolenIndices(Responses(s, acts)))
    decreases |acts|
  {
    if acts != [] {
      InvStep(s, acts[0]);
      var r := Next(s, acts[0]);
      StealsInOrder(r.state, acts[1..]);
      StealsCons(s.top, r.outcome, r.state.top, Responses(r.state, acts[1..]));
    }
  }

  lemma FinalCons(s: State, a: Action, rest: seq<Action>)
    requires |s.slots| > 0 && Enabled(s, a) && |Next(s, a).state.slots| > 0
    requires Executable(Next(s, a).state, rest)
    ensures Executable(s, [a] + rest)
    ensures Final(s, [a] + rest) == Final(Next(s, a).state, rest)
  {
    assert ([a] + rest)[1..] == rest;
  }

  /** A call of one first step and then one step of its thread until it returns. */
  lemma Undisturbed(s: State, first: Action, a: Action, states: seq<State>)
    requires |s.slots| > 0 && |states| >= 1
    requires Enabled(s, first) && states[0] == Next(s, first).state
    requires forall k :: 0 <= k < |states| ==> |states[k].slots| > 0
    requires forall k :: 0 <= k < |states| - 1 ==> Enabled(states[k], a) && states[k + 1] == Next(states[k], a).state
    ensures var acts := [first] + seq(|states| - 1, _ => a);
      Executable(s, acts) && Final(s, acts) == states[|states| - 1]
    decreases |states|
  {
    var rest := seq(|states| - 1, _ => a);
    if |states| > 1 {
      Undisturbed(states[0], a, a, states[1..]);
      assert rest == [a] + seq(|states| - 2, _ => a);
    }
    FinalCons(s, first, rest);
  }

  // ---------------------------------------------------------------- calls run alone

  lemma PushAlone(s: State, x: Pointer)
    requires Inv(s) && s.owner.OwnerIdle?
    ensures var room := s.bottom - s.top < |s.slots|;
      var acts := [StartPush(x)] + seq(if room then 3 else 1, _ => Owner);
      var s' := if room then s.(slots := s.slots[s.bottom % |s.slots| := x], bottom := s.bottom + 1) else s;
      && Executable(s, acts) && Final(s, acts) == s' && Inv(s')
      && Contents(s') == if room then Contents(s) + [x] else Contents(s)
  {
    var s1 := Next(s, StartPush(x)).state;
    StepRefines(s, StartPush(x));
    var s2 := Next(s1, Owner).state;
    StepRefines(s1, Owner);
    if s.bottom - s.top < |s.slots| {
      var s3 := Next(s2, Owner).state;
      StepRefines(s2, Owner);
      StepRefines(s3, Owner);
      Undisturbed(s, StartPush(x), Owner, [s1, s2, s3, Next(s3, Owner).state]);
    } else {
      Undisturbed(s, StartPush(x), Owner, [s1, s2]);
    }
  }

  /** The contended end, one item left: it is taken by advancing the top. */
  lemma StatesOfLastPop(s: State) returns (states: seq<State>)
    requires Inv(s) && s.owner.OwnerIdle? && s.bottom - s.top == 1
    ensures |states| == 6 && states[0] == Next(s, StartPop).state && states[5] == s.(top := s.bottom)
    ensures forall k :: 0 <= k < 6 ==> |states[k].slots| > 0
    ensures forall k :: 0 <= k < 5 ==> Enabled(states[k], Owner) && states[k + 1] == Next(states[k], Owner).state
  {
    var b := s.bottom - 1;
    var item := s.slots[b % |s.slots|];
    states := [s.(owner := PopStoreBottom(b)),
               s.(bottom := b, owner := PopLoadTop(b)),
               s.(bottom := b, owner := PopLoadLast(b)),
               s.(bottom := b, owner := PopCas(b, item)),
               s.(bottom := b, top := s.bottom, owner := PopRestore(b, true, item)),
               s.(top := s.bottom)];
  }

  lemma PopsLast(s: State)
    requires Inv(s) && s.owner.OwnerIdle? && s.bottom - s.top == 1
    ensures var acts := [StartPop] + seq(5, _ => Owner);
      Executable(s, acts) && Final(s, acts) == s.(top := s.bottom) && Inv(s.(top := s.bottom))
  {
    var states := StatesOfLastPop(s);
    Undisturbed(s, StartPop, Owner, states);
  }

  lemma PopsOther(s: State)
    requires Inv(s) && s.owner.OwnerIdle? && s.bottom - s.top != 1
    ensures var s' := if s.bottom == s.top then s else s.(bottom := s.bottom - 1);
      var acts := [StartPop] + seq(3, _ => Owner);
      Executable(s, acts) && Final(s, acts) == s' && Inv(s')
  {
    var s1 := Next(s, StartPop).state;
    InvStep(s, StartPop);
    var s2 := Next(s1, Owner).state;
    InvStep(s1, Owner);
    var s3 := Next(s2, Owner).state;
    InvStep(s2, Owner);
    InvStep(s3, Owner);
    Undisturbed(s, StartPop, Owner, [s1, s2, s3, Next(s3, Owner).state]);
  }

  lemma PopAlone(s: State)
    requires Inv(s) && s.owner.OwnerIdle?
    ensures var n := s.bottom - s.top;
      var acts := [StartPop] + seq(if n == 1 then 5 else 3, _ => Owner);
      var s' := if n == 0 then s else if n == 1 then s.(top := s.bottom) else s.(bottom := s.bottom - 1);
      && Executable(s, acts) && Final(s, acts) == s' && Inv(s')
      && (n == 0 ==> Contents(s) == [])
      && (n > 0 ==> Contents(s) == Contents(s') + [s.slots[(s.bottom - 1) % |s.slots|]])
  {
    if s.bottom - s.top == 1 {
      PopsLast(s);
    } else {
      PopsOther(s);
    }
  }

  lemma StealFinds(s: State, i: nat)
    requires Inv(s) && s.owner.OwnerIdle? && i < |s.thieves| && s.thieves[i].ThiefIdle? && s.top < s.bottom
    ensures var acts := [StartSteal(i)] + seq(3, _ => Thief(i));
      Executable(s, acts) && Final(s, acts) == s.(top := s.top + 1) && Inv(s.(top := s.top + 1))
  {
    var s1 := Next(s, StartSteal(i)).state;
    InvStep(s, StartSteal(i));
    var s2 := Next(s1, Thief(i)).state;
    InvStep(s1, Thief(i));
    var s3 := Next(s2, Thief(i)).state;
    InvStep(s2, Thief(i));
    InvStep(s3, Thief(i));
    assert Next(s3, Thief(i)).state.thieves == s.thieves;
    Undisturbed(s, StartSteal(i), Thief(i), [s1, s2, s3, Next(s3, Thief(i)).state]);
  }

  lemma StealMisses(s: State, i: nat)
    requires Inv(s) && s.owner.OwnerIdle? && i < |s.thieves| && s.thieves[i].ThiefIdle? && s.top >= s.bottom
    ensures var acts := [StartSteal(i)] + seq(1, _ => Thief(i));
      Executable(s, acts) && Final(s, acts) == s
  {
    var s1 := Next(s, StartSteal(i)).state;
    InvStep(s, StartSteal(i));
    var s2 := Next(s1, Thief(i)).state;
    assert s2.thieves == s.thieves;
    Undisturbed(s, StartSteal(i), Thief(i), [s1, s2]);
  }

  lemma StealAlone(s: State, i: nat)
    requires Inv(s) && s.owner.OwnerIdle? && i < |s.thieves| && s.thieves[i].ThiefIdle?
    ensures var found := s.top < s.bottom;
      var acts := [StartSteal(i)] + seq(if found then 3 else 1, _ => Thief(i));
      var s' := if found then s.(top := s.top + 1) else s;
      && Executable(s, acts) && Final(s, acts) == s' && Inv(s')
      && (if found then Contents(s) == [s.slots[s.top % |s.slots|]] + Contents(s') else Contents(s) == [])
  {
    if s.top < s.bottom {
      StealFinds(s, i);
    } else {
      StealMisses(s, i);
    }
  }
}

/** The class itself: the same code run by a thread that is not interrupted. Each method is
    tied both to the abstract contents and to the steps of the machine above. */
module WorkStealingDeques {
  import opened Bits
  import opened DequeMachine

  class WorkStealingDeque {
    const mask: nat
    const buffer: array<Pointer>
    var top: int
    var bottom: int

    ghost predicate Valid()
      reads this, buffer
    {
      && IsPow2(mask + 1)
      && buffer.Length == mask + 1
      && Inv(Snapshot())
    }

    /** The shared state as the machine sees it when no call is in progress. */
    function Snapshot(): State
      reads this, buffer
    {
      State(top, bottom, buffer[..], OwnerIdle, [ThiefIdle])
    }

    ghost function View(): seq<Pointer>
      requires Valid()
      reads this, buffer
    {
      Contents(Snapshot())
    }

    constructor (capacity: nat)
      requires capacity >= 2 && IsPow2(capacity)
      ensures Valid() && View() == [] && mask + 1 == capacity
      ensures fresh(buffer)
    {
      mask := capacity - 1;
      buffer := new Pointer[capacity](_ => 0);
      top, bottom := 0, 0;
    }

    lemma SlotOf(b: nat)
      requires IsPow2(mask + 1) && buffer.Length == mask + 1
      ensures BitAnd(b, mask) == b % buffer.Length
    {
      var k: nat :| Pow2(k) == mask + 1;
      MaskIsRemainder(b, k);
    }

    method PushBottom(item: Pointer) returns (ok: bool)
      requires Valid()
      modifies this`bottom, buffer
      ensures Valid()
      ensures ok == (|old(View())| <= mask)
      ensures View() == if ok then old(View()) + [item] else old(View())
      ensures var acts := [StartPush(item)] + seq(if ok then 3 else 1, _ => Owner);
        Executable(old(Snapshot()), acts) && Snapshot() == Final(old(Snapshot()), acts)
    {
      PushAlone(Snapshot(), item);
      var b := bottom;
      var t := top;
      if b - t >= mask + 1 {
        return false;
      }
      SlotOf(b);
      buffer[BitAnd(b, mask)] := item;
      bottom := b + 1;
      return true;
    }

    method PopBottom() returns (item: Pointer, found: bool)
      requires Valid()
      modifies this`top, this`bottom
      ensures Valid()
      ensures found == (old(View()) != [])
      ensures if found then old(View()) == View() + [item] else View() == [] && item == 0
      ensures var acts := [StartPop] + seq(if |old(View())| == 1 then 5 else 3, _ => Owner);
        Executable(old(Snapshot()), acts) && Snapshot() == Final(old(Snapshot()), acts)
    {
      PopAlone(Snapshot());
      var b := bottom - 1;
      bottom := b;
      var t := top;
      if t > b {
        bottom := b + 1;
        return 0, false;
      }
      SlotOf(b);
      item := buffer[BitAnd(b, mask)];
      if t < b {
        return item, true;
      }
      found := top == t;
      top := if found then t + 1 else top;
      item := if found then item else 0;
      bottom := b + 1;
    }

    method Steal() returns (item: Pointer, found: bool)
      requires Valid()
      modifies this`top
      ensures Valid()
      ensures found == (old(View()) != [])
      ensures if found then old(View()) == [item] + View() else View() == [] && item == 0
      ensures var acts := [StartSteal(0)] + seq(if found then 3 else 1, _ => Thief(0));
        Executable(old(Snapshot()), acts) && Snapshot() == Final(old(Snapshot()), acts)
    {
      StealAlone(Snapshot(), 0);
      var t := top;
      var b := bottom;
      if t >= b {
        return 0, false;
      }
      SlotOf(t);
      item := buffer[BitAnd(t, mask)];
      found := top == t;
      top := if found then t + 1 else top;
      item := if found then item else 0;
    }
  }
}
