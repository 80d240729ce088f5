/** WhenAll's shared state: every input's continuation writes its slot and counts down; the one
    that counts to zero hands the results over. Each atomic access is one step. */
module WhenAllMachine {
  import opened Options

  datatype Pc<T> = Unresolved | Writing | Counting | Swapping | Setting(snapshot: seq<T>) | Done

  datatype State<T> = State(
    inputs: seq<T>, results: seq<T>, remaining: nat, pcs: seq<Pc<T>>, swapped: bool, outcome: Option<seq<T>>, sets: nat)

  /** Resolve: input i becomes ready and its continuation starts, on whichever thread that is. */
  datatype Action = Resolve(i: nat) | Step(i: nat)

  function Init<T>(inputs: seq<T>, blank: T): State<T> {
    State(inputs, seq(|inputs|, _ => blank), |inputs|, seq(|inputs|, _ => Unresolved), false, None, 0)
  }

  predicate Enabled<T>(s: State<T>, a: Action) {
    && a.i < |s.pcs| && |s.pcs| == |s.inputs|
    && match a
       case Resolve(i) => s.pcs[i].Unresolved?
       case Step(i) => !s.pcs[i].Unresolved? && !s.pcs[i].Done? && (s.pcs[i].Writing? ==> i < |s.results|)
  }

  /** fetch_sub on a 64-bit counter. */
  function Dec(x: nat): nat {
    if x == 0 then 0xFFFF_FFFF_FFFF_FFFF else x - 1
  }

  function Next<T>(s: State<T>, a: Action): State<T>
    requires Enabled(s, a)
  {
    match a
    case Resolve(i) => s.(pcs := s.pcs[i := Writing])
    case Step(i) =>
      match s.pcs[i]
      case Writing => s.(pcs := s.pcs[i := Counting], results := s.results[i := s.inputs[i]])
      case Counting => s.(pcs := s.pcs[i := if s.remaining == 1 then Swapping else Done], remaining := Dec(s.remaining))
      case Swapping => s.(pcs := s.pcs[i := Setting(s.results)], results := [], swapped := true)
      case Setting(snapshot) => s.(pcs := s.pcs[i := Done], outcome := Some(snapshot), sets := s.sets + 1)
  }

  predicate Wrote<T>(pc: Pc<T>) {
    !pc.Unresolved? && !pc.Writing?
  }

  predicate Counted<T>(pc: Pc<T>) {
    pc.Swapping? || pc.Setting? || pc.Done?
  }

  predicate Finishing<T>(pc: Pc<T>) {
    pc.Swapping? || pc.Setting?
  }

  function CountedBelow<T>(pcs: seq<Pc<T>>, m: nat): nat
    requires m <= |pcs|
  {
    if m == 0 then 0 else CountedBelow(pcs, m - 1) + if Counted(pcs[m - 1]) then 1 else 0
  }

  function FinishingBelow<T>(pcs: seq<Pc<T>>, m: nat): nat
    requires m <= |pcs|
  {
    if m == 0 then 0 else FinishingBelow(pcs, m - 1) + if Finishing(pcs[m - 1]) then 1 else 0
  }

  lemma {:induction false} CountsUpdate<T>(pcs: seq<Pc<T>>, i: nat, pc: Pc<T>, m: nat)
    requires i < |pcs| && m <= |pcs|
    ensures CountedBelow(pcs[i := pc], m) == CountedBelow(pcs, m)
      + if i < m then (if Counted(pc) then 1 else 0) - (if Counted(pcs[i]) then 1 else 0) else 0
    ensures FinishingBelow(pcs[i := pc], m) == FinishingBelow(pcs, m)
      + if i < m then (if Finishing(pc) then 1 else 0) - (if Finishing(pcs[i]) then 1 else 0) else 0
  {
    if m > 0 {
      CountsUpdate(pcs, i, pc, m - 1);
    }
  }

  lemma {:induction false} CountsBounds<T>(pcs: seq<Pc<T>>, m: nat)
    requires m <= |pcs|
    ensures CountedBelow(pcs, m) <= m
    ensures CountedBelow(pcs, m) == m <==> forall i :: 0 <= i < m ==> Counted(pcs[i])
    ensures FinishingBelow(pcs, m) == 0 <==> forall i :: 0 <= i < m ==> !Finishing(pcs[i])
  {
    if m > 0 {
      CountsBounds(pcs, m - 1);
    }
  }

  ghost predicate Inv<T>(s: State<T>) {
    var n := |s.inputs|;
    && |s.pcs| == n && |s.results| == (if s.swapped then 0 else n)
    && s.remaining + CountedBelow(s.pcs, n) == n
    && s.sets + FinishingBelow(s.pcs, n) == (if s.remaining == 0 && n > 0 then 1 else 0)
    && (!s.swapped ==> forall i :: 0 <= i < n && Wrote(s.pcs[i]) ==> s.results[i] == s.inputs[i])
    && (s.swapped ==> s.remaining == 0)
    && (forall i :: 0 <= i < n && s.pcs[i].Swapping? ==> !s.swapped)
    && (forall i :: 0 <= i < n && s.pcs[i].Setting? ==> s.swapped && s.pcs[i].snapshot == s.inputs)
    && (if s.sets == 0 then s.outcome == None else s.swapped && s.outcome == Some(s.inputs))
  }

  lemma {:induction false} NoneCounted<T>(pcs: seq<Pc<T>>, m: nat)
    requires m <= |pcs| && forall i :: 0 <= i < |pcs| ==> pcs[i].Unresolved?
    ensures CountedBelow(pcs, m) == 0 && FinishingBelow(pcs, m) == 0
  {
    if m > 0 {
      NoneCounted(pcs, m - 1);
    }
  }

  lemma InitInv<T>(inputs: seq<T>, blank: T)
    requires inputs != []
    ensures Inv(Init(inputs, blank))
  {
    NoneCounted(Init(inputs, blank).pcs, |inputs|);
  }

  lemma Early<T>(s: State<T>, a: Action)
    requires Inv(s) && Enabled(s, a) && (a.Resolve? || s.pcs[a.i].Writing?)
    ensures Inv(Next(s, a))
  {
    CountsUpdate(s.pcs, a.i, Next(s, a).pcs[a.i], |s.inputs|);
    CountsBounds(s.pcs, |s.inputs|);
  }

  lemma CountDown<T>(s: State<T>, i: nat)
    requires Inv(s) && Enabled(s, Step(i)) && s.pcs[i].Counting?
    ensures Inv(Next(s, Step(i)))
  {
    CountsUpdate(s.pcs, i, Next(s, Step(i)).pcs[i], |s.inputs|);
    CountsBounds(s.pcs, |s.inputs|);
  }

  /** The thread that hands over is the only one, and finds every slot written. */
  lemma HandOver<T>(s: State<T>, i: nat)
    requires Inv(s) && Enabled(s, Step(i)) && Finishing(s.pcs[i])
    ensures Inv(Next(s, Step(i)))
  {
    var n := |s.inputs|;
    CountsUpdate(s.pcs, i, Next(s, Step(i)).pcs[i], n);
    CountsBounds(s.pcs, n);
    CountsBounds(s.pcs[i := Done], n);
    CountsUpdate(s.pcs, i, Done, n);
    forall j | 0 <= j < n && j != i
      ensures !Finishing(s.pcs[j])
    {
      assert s.pcs[i := Done][j] == s.pcs[j];
    }
    if s.pcs[i].Swapping? {
      assert s.results == s.inputs;
    }
  }

  lemma InvStep<T>(s: State<T>, a: Action)
    requires Inv(s) && Enabled(s, a)
    ensures Inv(Next(s, a))
  {
    if a.Resolve? || s.pcs[a.i].Writing? {
      Early(s, a);
    } else if s.pcs[a.i].Counting? {
      CountDown(s, a.i);
    } else {
      HandOver(s, a.i);
    }
  }

  predicate Executable<T>(s: State<T>, acts: seq<Action>)
    decreases |acts|
  {
    acts == [] || (Enabled(s, acts[0]) && Executable(Next(s, acts[0]), acts[1..]))
  }

  function Final<T>(s: State<T>, acts: seq<Action>): State<T>
    requires Executable(s, acts)
    decreases |acts|
  {
    if acts == [] then s else Final(Next(s, acts[0]), acts[1..])
  }

  lemma {:induction false} RunInv<T>(s: State<T>, acts: seq<Action>)
    requires Inv(s) && Executable(s, acts)
    ensures Inv(Final(s, acts)) && Final(s, acts).inputs == s.inputs
    decreases |acts|
  {
    if acts != [] {
      InvStep(s, acts[0]);
      RunInv(Next(s, acts[0]), acts[1..]);
    }
  }

  /** In every interleaving of the inputs' continuations the promise is set at most once, only
      after every input has resolved, with the inputs in their order; and once every continuation
      has run it has been set. */
  lemma ResultsInOrder<T>(inputs: seq<T>, blank: T, acts: seq<Action>)
    requires inputs != [] && Executable(Init(inputs, blank), acts)
    ensures var s := Final(Init(inputs, blank), acts);
      && |s.pcs| == |inputs|
      && (if s.sets == 0 then s.outcome == None else s.sets == 1 && s.outcome == Some(inputs))
      && (s.sets > 0 ==> forall i :: 0 <= i < |inputs| ==> Wrote(s.pcs[i]))
      && ((forall i :: 0 <= i < |inputs| ==> s.pcs[i].Done?) ==> s.sets == 1)
  {
    InitInv(inputs, blank);
    RunInv(Init(inputs, blank), acts);
    CountsBounds(Final(Init(inputs, blank), acts).pcs, |inputs|);
  }

  /** An input's steps until its continuation is done. */
  function Left<T>(pc: Pc<T>): nat {
    match pc
    case Unresolved => 5
    case Writing => 4
    case Counting => 3
    case Swapping => 2
    case Setting(_) => 1
    case Done => 0
  }

  /** No continuation can get stuck: an unfinished one always has a next step, and each brings it
      nearer to its end. */
  lemma NeverStuck<T>(s: State<T>, i: nat)
    requires Inv(s) && i < |s.inputs| && !s.pcs[i].Done?
    ensures Enabled(s, Resolve(i)) || Enabled(s, Step(i))
    ensures forall a: Action :: Enabled(s, a) && a.i == i ==>
      |Next(s, a).pcs| == |s.pcs| && Left(Next(s, a).pcs[i]) < Left(s.pcs[i])
  {
    CountsBounds(s.pcs, |s.inputs|);
  }
}
