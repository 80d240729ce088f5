/** LoadGenericByGuid by any number of threads: the cache, the in-flight table and the jobs that
    build assets. A critical section under stateMutex_ is one step. */
module AssetLoadMachine {
  import opened Options

  type Guid = nat

  /** Where the call that owns a promise, or later its continuation, has got to. */
  datatype Pc =
    | Searching
    | Parsing
    | Building
    | Publishing(built: bool)
    | GivingUp
    | Setting(built: bool)
    | Done

  /** One promise, its asset's id, how often it has been set, and whether with an asset. */
  datatype Job = Job(guid: Guid, pc: Pc, sets: nat, built: bool)

  /** What a call returns: a ready future from the cache, the future of a job under way, or that of
      its own job. */
  datatype Answer = FromCache | Shared(job: nat) | Own(job: nat)

  /** `strong` holds the ids the cache has a strong reference for. */
  datatype State = State(strong: set<Guid>, inflight: map<Guid, nat>, jobs: seq<Job>, answers: seq<(Guid, Answer)>)

  /** `live`: the cache has only a weak reference, but the asset is still alive elsewhere. `ok`: the
      registry knows the id, the loader gives a valid future, or the inner future has an asset. */
  datatype Action = Load(guid: Guid, live: bool) | Step(job: nat, ok: bool) | Evict(guid: Guid) | UnloadAll

  function Init(): State {
    State({}, map[], [], [])
  }

  predicate Enabled(s: State, a: Action) {
    a.Step? ==> a.job < |s.jobs| && !s.jobs[a.job].pc.Done?
  }

  function Lookup(s: State, guid: Guid, live: bool): Answer {
    if guid in s.strong || live then FromCache
    else if guid in s.inflight then Shared(s.inflight[guid])
    else Own(|s.jobs|)
  }

  function Forget(m: map<Guid, nat>, guid: Guid): map<Guid, nat> {
    m - {guid}
  }

  function At(s: State, f: nat, pc: Pc): State
    requires f < |s.jobs|
  {
    s.(jobs := s.jobs[f := s.jobs[f].(pc := pc)])
  }

  function Next(s: State, a: Action): State
    requires Enabled(s, a)
  {
    match a
    case Load(guid, live) =>
      var answer := Lookup(s, guid, live);
      var s' := s.(answers := s.answers + [(guid, answer)]);
      if answer.Own? then s'.(inflight := s.inflight[guid := |s.jobs|], jobs := s.jobs + [Job(guid, Searching, 0, false)]) else s'
    case Evict(guid) => s.(strong := s.strong - {guid})
    case UnloadAll => s.(strong := {})
    case Step(f, ok) =>
      var job := s.jobs[f];
      match job.pc
      case Searching => At(s, f, if ok then Parsing else GivingUp)
      case Parsing => At(s, f, if ok then Building else GivingUp)
      case Building => At(s, f, Publishing(ok))
      case Publishing(built) =>
        At(s, f, Setting(built)).(
          strong := if built then s.strong + {job.guid} else s.strong, inflight := Forget(s.inflight, job.guid))
      case GivingUp => At(s, f, Setting(false)).(inflight := Forget(s.inflight, job.guid))
      case Setting(built) => s.(jobs := s.jobs[f := job.(pc := Done, sets := job.sets + 1, built := built)])
  }

  // ---------------------------------------------------------------- the invariant

  /** Between its entry in the in-flight table and the removal of that entry. */
  predicate Active(pc: Pc) {
    pc.Searching? || pc.Parsing? || pc.Building? || pc.Publishing? || pc.GivingUp?
  }

  predicate JobOk(s: State, f: nat)
    requires f < |s.jobs|
  {
    && (Active(s.jobs[f].pc) <==> s.jobs[f].guid in s.inflight && s.inflight[s.jobs[f].guid] == f)
    && (Active(s.jobs[f].pc) ==> s.jobs[f].guid !in s.strong)
    && s.jobs[f].sets == if s.jobs[f].pc.Done? then 1 else 0
  }

  /** A shared or own answer names a job for the same id. */
  predicate AnswerOk(s: State, k: nat)
    requires k < |s.answers|
  {
    match s.answers[k].1
    case FromCache => true
    case Shared(f) => f < |s.jobs| && s.jobs[f].guid == s.answers[k].0
    case Own(f) => f < |s.jobs| && s.jobs[f].guid == s.answers[k].0
  }

  ghost predicate Inv(s: State) {
    && (forall f :: 0 <= f < |s.jobs| ==> JobOk(s, f))
    && (forall g :: g in s.inflight ==> s.inflight[g] < |s.jobs| && s.jobs[s.inflight[g]].guid == g)
    && forall k :: 0 <= k < |s.answers| ==> AnswerOk(s, k)
  }

  lemma LoadKeeps(s: State, guid: Guid, live: bool)
    requires Inv(s)
    ensures Inv(Next(s, Load(guid, live)))
  {
    var s' := Next(s, Load(guid, live));
    forall f | 0 <= f < |s'.jobs|
      ensures JobOk(s', f)
    {
      if f < |s.jobs| {
        assert JobOk(s, f);
      }
    }
    forall k | 0 <= k < |s'.answers|
      ensures AnswerOk(s', k)
    {
      if k < |s.answers| {
        assert AnswerOk(s, k);
      }
    }
  }

  lemma StepKeepsJob(s: State, f: nat, ok: bool, h: nat)
    requires Inv(s) && Enabled(s, Step(f, ok)) && h < |s.jobs|
    ensures |Next(s, Step(f, ok)).jobs| == |s.jobs| && JobOk(Next(s, Step(f, ok)), h)
  {
    assert JobOk(s, f) && JobOk(s, h);
  }

  lemma StepKeepsTables(s: State, f: nat, ok: bool)
    requires Inv(s) && Enabled(s, Step(f, ok))
    ensures var s' := Next(s, Step(f, ok));
      && (forall g :: g in s'.inflight ==> s'.inflight[g] < |s'.jobs| && s'.jobs[s'.inflight[g]].guid == g)
      && forall k :: 0 <= k < |s'.answers| ==> AnswerOk(s', k)
  {
    forall k | 0 <= k < |s.answers|
      ensures AnswerOk(Next(s, Step(f, ok)), k)
    {
      assert AnswerOk(s, k);
    }
  }

  lemma StepKeeps(s: State, f: nat, ok: bool)
    requires Inv(s) && Enabled(s, Step(f, ok))
    ensures Inv(Next(s, Step(f, ok)))
  {
    StepKeepsTables(s, f, ok);
    forall h | 0 <= h < |s.jobs|
      ensures |Next(s, Step(f, ok)).jobs| == |s.jobs| && JobOk(Next(s, Step(f, ok)), h)
    {
      StepKeepsJob(s, f, ok, h);
    }
  }

  lemma InvStep(s: State, a: Action)
    requires Inv(s) && Enabled(s, a)
    ensures Inv(Next(s, a))
  {
    match a {
      case Load(guid, live) => LoadKeeps(s, guid, live);
      case Step(f, ok) => StepKeeps(s, f, ok);
      case _ =>
        forall f | 0 <= f < |s.jobs|
          ensures JobOk(Next(s, a), f)
        {
          assert JobOk(s, f);
        }
        forall k | 0 <= k < |s.answers|
          ensures AnswerOk(Next(s, a), k)
        {
          assert AnswerOk(s, k);
        }
    }
  }

  predicate Executable(s: State, acts: seq<Action>)
    decreases |acts|
  {
    acts == [] || (Enabled(s, acts[0]) && Executable(Next(s, acts[0]), acts[1..]))
  }

  function Final(s: State, acts: seq<Action>): State
    requires Executable(s, acts)
    decreases |acts|
  {
    if acts == [] then s else Final(Next(s, acts[0]), acts[1..])
  }

  lemma {:induction false} RunInv(s: State, acts: seq<Action>)
    requires Inv(s) && Executable(s, acts)
    ensures Inv(Final(s, acts))
    decreases |acts|
  {
    if acts != [] {
      InvStep(s, acts[0]);
      RunInv(Next(s, acts[0]), acts[1..]);
    }
  }

  // ---------------------------------------------------------------- what it is for

  /** In every run: for one id at most one job is under way, every promise is set at most once and
      exactly once when its job is done, and no job for a strongly cached id is under way, so what
      the cache holds is never parsed again. */
  lemma OneJobPerAsset(acts: seq<Action>, f: nat, h: nat)
    requires Executable(Init(), acts)
    requires f < |Final(Init(), acts).jobs| && h < |Final(Init(), acts).jobs|
    ensures var s := Final(Init(), acts);
      && (Active(s.jobs[f].pc) && Active(s.jobs[h].pc) && s.jobs[f].guid == s.jobs[h].guid ==> f == h)
      && s.jobs[f].sets <= 1 && (s.jobs[f].sets == 1 <==> s.jobs[f].pc.Done?)
      && (Active(s.jobs[f].pc) ==> s.jobs[f].guid !in s.strong)
  {
    RunInv(Init(), acts);
    assert JobOk(Final(Init(), acts), f) && JobOk(Final(Init(), acts), h);
  }

  /** What a call gets: the cached asset if the cache can produce it; otherwise the future of the
      one job under way for this id; and a new job exactly when there is neither. */
  lemma LoadAnswers(s: State, guid: Guid, live: bool)
    requires Inv(s)
    ensures var s' := Next(s, Load(guid, live));
      && |s'.answers| == |s.answers| + 1 && s'.answers[..|s.answers|] == s.answers && s'.strong == s.strong
      && var (asked, answer) := s'.answers[|s.answers|];
      && asked == guid
      && (answer.FromCache? <==> guid in s.strong || live)
      && (answer.Shared? ==> answer.job < |s.jobs| && s.jobs[answer.job].guid == guid && Active(s.jobs[answer.job].pc))
      && (|s'.jobs| > |s.jobs| <==> answer.Own?)
      && (answer.Own? ==> forall f :: 0 <= f < |s.jobs| && s.jobs[f].guid == guid ==> !Active(s.jobs[f].pc))
  {
    if guid in s.inflight {
      assert JobOk(s, s.inflight[guid]);
    }
    forall f | 0 <= f < |s.jobs| && s.jobs[f].guid == guid && guid !in s.inflight
      ensures !Active(s.jobs[f].pc)
    {
      assert JobOk(s, f);
    }
  }

  /** How the steps of one job went, in order. */
  function Outcomes(acts: seq<Action>, f: nat): seq<bool> {
    if acts == [] then []
    else (if acts[0].Step? && acts[0].job == f then [acts[0].ok] else []) + Outcomes(acts[1..], f)
  }

  /** The registry knew the id, the loader gave a future, and that future had an asset. */
  predicate AllWentWell(oks: seq<bool>) {
    |oks| >= 3 && oks[0] && oks[1] && oks[2]
  }

  /** Where a job has got to, given how its steps went. */
  ghost predicate Tracks(job: Job, oks: seq<bool>) {
    match job.pc
    case Searching => oks == []
    case Parsing => oks == [true]
    case Building => oks == [true, true]
    case GivingUp => oks == [false] || oks == [true, false]
    case Publishing(built) => |oks| == 3 && built == AllWentWell(oks)
    case Setting(built) => |oks| >= 2 && (|oks| == 2 ==> !oks[0]) && built == AllWentWell(oks)
    case Done => |oks| >= 3 && job.built == AllWentWell(oks)
  }

  /** The same for a job that may still be to come. */
  ghost predicate TracksJob(s: State, f: nat, oks: seq<bool>) {
    if f < |s.jobs| then Tracks(s.jobs[f], oks) else oks == []
  }

  lemma TracksStep(s: State, a: Action, f: nat, oks: seq<bool>)
    requires Enabled(s, a) && TracksJob(s, f, oks)
    ensures TracksJob(Next(s, a), f, if a.Step? && a.job == f then oks + [a.ok] else oks)
  {
  }

  lemma {:induction false} TracksRun(s: State, acts: seq<Action>, f: nat, oks: seq<bool>)
    requires Executable(s, acts) && TracksJob(s, f, oks)
    ensures TracksJob(Final(s, acts), f, oks + Outcomes(acts, f))
    decreases |acts|
  {
    if acts == [] {
      assert oks + [] == oks;
    } else {
      TracksStep(s, acts[0], f, oks);
      var mine := if acts[0].Step? && acts[0].job == f then [acts[0].ok] else [];
      assert oks + mine == if acts[0].Step? && acts[0].job == f then oks + [acts[0].ok] else oks;
      assert oks + (mine + Outcomes(acts[1..], f)) == (oks + mine) + Outcomes(acts[1..], f);
      TracksRun(Next(s, acts[0]), acts[1..], f, oks + mine);
    }
  }

  /** In every run a job that is done has set its promise with an asset exactly if the registry knew
      the id, the loader gave a future and the future had an asset; and in the step that ends its
      entry in the in-flight table its id enters the cache exactly then. */
  lemma OutcomeIsKept(acts: seq<Action>, f: nat, ok: bool)
    requires Executable(Init(), acts) && f < |Final(Init(), acts).jobs|
    ensures var s, oks := Final(Init(), acts), Outcomes(acts, f);
      && (s.jobs[f].pc.Done? ==> s.jobs[f].built == AllWentWell(oks))
      && (Active(s.jobs[f].pc) ==> Enabled(s, Step(f, ok)))
      && (Active(s.jobs[f].pc) && !Active(Next(s, Step(f, ok)).jobs[f].pc) ==>
            Next(s, Step(f, ok)).strong == if AllWentWell(oks) then s.strong + {s.jobs[f].guid} else s.strong)
  {
    var s, oks := Final(Init(), acts), Outcomes(acts, f);
    assert Tracks(s.jobs[f], oks) by {
      TracksRun(Init(), acts, f, []);
      assert [] + oks == oks;
    }
    CachedIfWell(s, f, ok, oks);
  }

  lemma CachedIfWell(s: State, f: nat, ok: bool, oks: seq<bool>)
    requires f < |s.jobs| && Tracks(s.jobs[f], oks)
    ensures s.jobs[f].pc.Done? ==> s.jobs[f].built == AllWentWell(oks)
    ensures Active(s.jobs[f].pc) ==> Enabled(s, Step(f, ok))
    ensures Active(s.jobs[f].pc) && !Active(Next(s, Step(f, ok)).jobs[f].pc) ==>
      Next(s, Step(f, ok)).strong == if AllWentWell(oks) then s.strong + {s.jobs[f].guid} else s.strong
  {
  }

  /** Nothing else puts an id into the cache. */
  lemma OnlyPublishingCaches(s: State, a: Action, guid: Guid)
    requires Enabled(s, a) && guid in Next(s, a).strong && guid !in s.strong
    ensures a.Step? && s.jobs[a.job].guid == guid && s.jobs[a.job].pc == Publishing(true)
  {
  }

  /** How many steps a job has left. */
  function Left(pc: Pc): nat {
    match pc
    case Searching => 5
    case Parsing => 4
    case Building => 3
    case Publishing(_) => 2
    case GivingUp => 2
    case Setting(_) => 1
    case Done => 0
  }

  /** Every path of a job ends with its promise set: each step it takes brings it nearer, the last
      one sets the promise with the outcome, and publishing caches the asset in the same step that
      removes the in-flight entry. */
  lemma JobsFinish(s: State, f: nat, ok: bool)
    requires Inv(s) && f < |s.jobs| && !s.jobs[f].pc.Done?
    ensures Enabled(s, Step(f, ok))
    ensures var s', job := Next(s, Step(f, ok)), s.jobs[f];
      && |s'.jobs| == |s.jobs| && Left(s'.jobs[f].pc) < Left(job.pc)
      && (s'.jobs[f].pc.Done? <==> s'.jobs[f].sets == job.sets + 1)
      && (job.pc.Setting? ==> s'.jobs[f].built == job.pc.built)
      && (Active(job.pc) && !Active(s'.jobs[f].pc) ==> job.guid !in s'.inflight)
      && (job.pc == Publishing(true) ==> job.guid in s'.strong && job.guid !in s'.inflight)
  {
    assert JobOk(s, f);
  }
}
