/** Properties of the pod's phase over whole runs of observations. */
module PodLifecycle {
  import opened Wrappers
  import opened Conditions
  import opened ContainerStatus
  import opened PodStatus

  // ---------------------------------------------------------------- counting containers by class

  ghost predicate DistinctNames(ss: seq<Status>) {
    forall i, j | 0 <= i < j < |ss| :: ss[i].name != ss[j].name
  }

  lemma CountAppend(before: seq<Status>, s: Status, d: Class)
    requires forall t | t in before :: t.name != s.name
    ensures |NamesIn(before + [s], d)| == |NamesIn(before, d)| + if ClassOf(s.state) == d then 1 else 0
  {
    NamesInAppend(before, s, d);
    assert s.name !in NamesIn(before, d);
  }

  /** How many containers are in a class. */
  function CountIn(ss: seq<Status>, d: Class): nat {
    if ss == [] then 0
    else CountIn(ss[..|ss| - 1], d) + if ClassOf(ss[|ss| - 1].state) == d then 1 else 0
  }

  lemma {:induction false} CountNames(ss: seq<Status>, d: Class)
    requires DistinctNames(ss)
    ensures |NamesIn(ss, d)| == CountIn(ss, d)
  {
    if ss != [] {
      var before, s := ss[..|ss| - 1], ss[|ss| - 1];
      CountNames(before, d);
      CountAppend(before, s, d);
      assert ss == before + [s];
    }
  }

  lemma {:induction false} CountAll(ss: seq<Status>)
    ensures CountIn(ss, PendingJob) + CountIn(ss, RunningJob)
            + CountIn(ss, SuccessfulJob) + CountIn(ss, FailedJob) == |ss|
  {
    if ss != [] {
      CountAll(ss[..|ss| - 1]);
    }
  }

  /** The four classes partition the containers. */
  lemma ClassesPartition(ss: seq<Status>)
    requires DistinctNames(ss)
    ensures |NamesIn(ss, PendingJob)| + |NamesIn(ss, RunningJob)|
            + |NamesIn(ss, SuccessfulJob)| + |NamesIn(ss, FailedJob)| == |ss|
  {
    CountNames(ss, PendingJob);
    CountNames(ss, RunningJob);
    CountNames(ss, SuccessfulJob);
    CountNames(ss, FailedJob);
    CountAll(ss);
  }

  /** The phase the main containers call for, said without counting. */
  function MainPhase(classes: seq<Class>): Phase {
    if FailedJob in classes then Failed
    else if forall i | 0 <= i < |classes| :: classes[i].SuccessfulJob? then Succeeded
    else if forall i | 0 <= i < |classes| :: !classes[i].PendingJob? then Running
    else Pending
  }

  lemma InClass(ss: seq<Status>, c: Class)
    ensures NamesIn(ss, c) != {} <==> c in Classes(ss)
  {
    if NamesIn(ss, c) != {} {
      var n :| n in NamesIn(ss, c);
      var s :| s in ss && ClassOf(s.state) == c && s.name == n;
      var i :| 0 <= i < |ss| && ss[i] == s;
      assert Classes(ss)[i] == c;
    }
    if c in Classes(ss) {
      var i :| 0 <= i < |Classes(ss)| && Classes(ss)[i] == c;
      assert ss[i].name in NamesIn(ss, c);
    }
  }

  function TransitionOf(p: Phase): Transition
    requires !p.Unset?
  {
    match p
      case Failed => ToFailed
      case Succeeded => ToSucceeded
      case Running => ToRunning
      case Pending => ToPending
  }

  /** With one status per container and distinct names, counting names amounts to MainPhase, and the
      invalid transition is never taken. */
  lemma ChooseCounts(mains: seq<Status>)
    requires DistinctNames(mains)
    ensures Choose(mains, |mains|) == TransitionOf(MainPhase(Classes(mains)))
  {
    ClassesPartition(mains);
    InClass(mains, PendingJob);
    InClass(mains, RunningJob);
    InClass(mains, SuccessfulJob);
    InClass(mains, FailedJob);
    var cs := Classes(mains);
    if FailedJob !in cs {
      assert (forall i | 0 <= i < |cs| :: cs[i].SuccessfulJob?) <==> RunningJob !in cs && PendingJob !in cs;
      assert (forall i | 0 <= i < |cs| :: !cs[i].PendingJob?) <==> PendingJob !in cs;
    }
  }

  lemma StartedNames(ss: seq<Status>, f: ControlFiles)
    requires forall s | s in ss :: ClassOf(s.state) == ClassIn(s.name, f)
    requires NamesIn(ss, FailedJob) == {} && NamesIn(ss, PendingJob) == {}
    ensures NamesIn(ss, RunningJob) !! NamesIn(ss, SuccessfulJob)
    ensures NamesIn(ss, RunningJob) + NamesIn(ss, SuccessfulJob) == Names(ss)
  {
    forall n | n in Names(ss) ensures n in NamesIn(ss, RunningJob) + NamesIn(ss, SuccessfulJob) {
      var s :| s in ss && s.name == n;
      assert ClassOf(s.state) == FailedJob ==> n in NamesIn(ss, FailedJob);
      assert ClassOf(s.state) == PendingJob ==> n in NamesIn(ss, PendingJob);
    }
  }

  /** For any list of statuses, synced with the files: the pod is failed for an invalid transition
      exactly when every container listed has started, none failed, and the names listed, and those of
      them that succeeded, are not as many as the specification has containers. */
  lemma InvalidTransitionExactly(p: Pod, total: nat, f: ControlFiles)
    requires forall s | s in p.mains :: ClassOf(s.state) == ClassIn(s.name, f)
    ensures Choose(p.mains, total) == ToInvalid <==>
              && (forall s | s in p.mains :: ClassIn(s.name, f) in {RunningJob, SuccessfulJob})
              && |Names(p.mains)| != total
              && |NamesIn(p.mains, SuccessfulJob)| != total
  {
    var fails, pends := NamesIn(p.mains, FailedJob), NamesIn(p.mains, PendingJob);
    if fails == {} && pends == {} {
      StartedNames(p.mains, f);
      forall s | s in p.mains ensures ClassIn(s.name, f) in {RunningJob, SuccessfulJob} {
        assert s.name !in fails && s.name !in pends;
      }
    } else {
      var n :| n in fails + pends;
      var s :| s in p.mains && s.name == n && ClassOf(s.state) in {FailedJob, PendingJob};
    }
  }

  /** In particular a pod that was saved early, before it has any container status, is failed by the
      first observation it meets. */
  lemma EarlySavedPodFails(p: Pod, spec: Spec, f: ControlFiles, now: Time)
    requires p.inits == [] && p.mains == [] && spec.totalJobs > 0
    requires p.phase.Pending? || (p.phase.Unset? && !spec.unsupported)
    ensures Observe(p, spec, f, now).phase == Failed && Observe(p, spec, f, now).reason == PodFailure
  {
    var q := Initialised(Loaded(p, f, now), now);
    InvalidTransitionExactly(q, spec.totalJobs, f);
    assert Names(q.mains) == {} && NamesIn(q.mains, SuccessfulJob) == {};
  }

  // ---------------------------------------------------------------- the verdict of the files alone

  function NameList(ss: seq<Status>): seq<Name> {
    seq(|ss|, i requires 0 <= i < |ss| => ss[i].name)
  }

  function ClassesIn(names: seq<Name>, f: ControlFiles): seq<Class> {
    seq(|names|, i requires 0 <= i < |names| => ClassIn(names[i], f))
  }

  /** The phase that the control files call for, whatever was observed before. */
  function Verdict(refused: bool, inits: seq<Name>, mains: seq<Name>, f: ControlFiles): Phase {
    if refused then Failed
    else match InitsVerdict(ClassesIn(inits, f))
      case StillInitializing => Pending
      case InitFailed => Failed
      case InitDone => MainPhase(ClassesIn(mains, f))
  }

  /** How a container's class may move as control files appear. */
  predicate ClassMoves(c: Class, c': Class) {
    match c
      case PendingJob => true
      case RunningJob => !c'.PendingJob?
      case SuccessfulJob => c' == c
      case FailedJob => c' == c
  }

  lemma {:induction false} InitsVerdictMoves(cs: seq<Class>, cs': seq<Class>)
    requires |cs| == |cs'| && forall i | 0 <= i < |cs| :: ClassMoves(cs[i], cs'[i])
    ensures !InitsVerdict(cs).StillInitializing? ==> InitsVerdict(cs') == InitsVerdict(cs)
  {
    if cs != [] {
      InitsVerdictMoves(cs[1..], cs'[1..]);
    }
  }

  /** As files appear a failed pod stays failed, a succeeded one succeeded, and a running one never
      waits again. */
  lemma VerdictMoves(refused: bool, inits: seq<Name>, mains: seq<Name>, f: ControlFiles, f': ControlFiles)
    requires Extends(f, f')
    ensures var v, v' := Verdict(refused, inits, mains, f), Verdict(refused, inits, mains, f');
            && (Terminal(v) ==> v' == v)
            && (v.Running? ==> !v'.Pending?)
  {
    InitsVerdictMoves(ClassesIn(inits, f), ClassesIn(inits, f'));
    var cs, cs' := ClassesIn(mains, f), ClassesIn(mains, f');
    assert forall i | 0 <= i < |cs| :: ClassMoves(cs[i], cs'[i]);
    if FailedJob in cs {
      var i :| 0 <= i < |cs| && cs[i] == FailedJob;
      assert cs'[i] == FailedJob;
    }
    if FailedJob !in cs && forall i | 0 <= i < |cs| :: cs[i].SuccessfulJob? {
      assert forall i | 0 <= i < |cs'| :: cs'[i] == cs[i];
    }
  }

  /** Running and Succeeded mean that every init container exited with zero. */
  lemma {:induction false} InitsVerdictDone(cs: seq<Class>)
    ensures InitsVerdict(cs).InitDone? <==> forall i | 0 <= i < |cs| :: cs[i].SuccessfulJob?
  {
    if cs != [] {
      InitsVerdictDone(cs[1..]);
      assert forall i | 1 <= i < |cs| :: cs[i] == cs[1..][i - 1];
    }
  }

  // ---------------------------------------------------------------- runs of observations

  /** One status per container, with distinct names, none of them in two states at once. */
  ghost predicate Shaped(p: Pod, spec: Spec) {
    && |p.mains| == spec.totalJobs && DistinctNames(p.mains)
    && (forall s | s in p.mains :: Exclusive(s.state))
    && (forall s | s in p.inits :: Exclusive(s.state))
    && UniqueKinds(p.conditions)
  }

  /** A pod nothing was observed of yet. */
  ghost predicate FreshPod(p: Pod, spec: Spec) {
    && Shaped(p, spec)
    && (p.phase.Unset? || p.phase.Pending?)
    && !HasStatus(p.conditions, PodReady, true)
  }

  function Norm(p: Phase): Phase {
    if p.Unset? then Pending else p
  }

  /** The pod as stored says what the files `f` call for. */
  ghost predicate Tracks(p: Pod, spec: Spec, refused: bool, f: ControlFiles) {
    && Shaped(p, spec)
    && Norm(p.phase) == Verdict(refused, NameList(p.inits), NameList(p.mains), f)
    && (p.phase.Unset? ==> !spec.unsupported)
    && (HasStatus(p.conditions, PodReady, true) <==> p.phase.Running?)
  }

  /** The pod after the first `n` of a sequence of observations. */
  function Observed(p: Pod, spec: Spec, files: seq<ControlFiles>, times: seq<Time>, n: nat): Pod
    requires n <= |files| == |times|
  {
    if n == 0 then p else Observe(Observed(p, spec, files, times, n - 1), spec, files[n - 1], times[n - 1])
  }

  lemma LoadedShape(p: Pod, spec: Spec, f: ControlFiles, now: Time)
    requires Shaped(p, spec)
    ensures var q := Loaded(p, f, now);
            && Shaped(q, spec) && NameList(q.inits) == NameList(p.inits) && NameList(q.mains) == NameList(p.mains)
            && Classes(q.inits) == ClassesIn(NameList(p.inits), f)
            && Classes(q.mains) == ClassesIn(NameList(p.mains), f)
  {
    var q := Loaded(p, f, now);
    forall i | 0 <= i < |p.inits|
      ensures Exclusive(q.inits[i].state) && ClassOf(q.inits[i].state) == ClassIn(p.inits[i].name, f)
    {
      assert p.inits[i] in p.inits;
      HandledClass(p.inits[i], f, now);
    }
    forall i | 0 <= i < |p.mains|
      ensures Exclusive(q.mains[i].state) && ClassOf(q.mains[i].state) == ClassIn(p.mains[i].name, f)
    {
      assert p.mains[i] in p.mains;
      HandledClass(p.mains[i], f, now);
    }
  }

  /** What concluding does to the conditions: both kinds of readiness follow the phase. */
  lemma ConcludeConditions(p: Pod, spec: Spec, now: Time, kind: Kind)
    requires Shaped(p, spec) && (kind == PodReady || kind == ContainersReady)
    requires p.phase.Running? || !HasStatus(p.conditions, kind, true)
    requires p.phase.Running? ==> !MainPhase(Classes(p.mains)).Pending?
    ensures var q := Conclude(p, spec.totalJobs, now);
            && q.phase == MainPhase(Classes(p.mains))
            && UniqueKinds(q.conditions) && (HasStatus(q.conditions, kind, true) <==> q.phase.Running?)
            && q.mains == p.mains && q.inits == p.inits
  {
    ChooseCounts(p.mains);
    var phase := MainPhase(Classes(p.mains));
    if Terminal(phase) {
      TwoConditions(p, false, ReasonContainersUnready, ReasonPodUnready, now);
    } else if phase.Running? {
      TwoConditions(p, true, ReasonContainersReady, ReasonPodReady, now);
    }
  }

  lemma TwoConditions(p: Pod, status: bool, r1: Reason, r2: Reason, now: Time)
    requires UniqueKinds(p.conditions)
    ensures var q := SetCond(SetCond(p, ContainersReady, status, r1, now), PodReady, status, r2, now);
            && UniqueKinds(q.conditions)
            && HasStatus(q.conditions, PodReady, status) && HasStatus(q.conditions, ContainersReady, status)
  {
    var c1, c2 := Condition(ContainersReady, status, now, r1), Condition(PodReady, status, now, r2);
    var mid := SetCondition(p.conditions, c1, now);
    SetLookup(p.conditions, c1, now, ContainersReady);
    SetLookup(mid, c2, now, PodReady);
    SetLookup(mid, c2, now, ContainersReady);
  }

  lemma ErrorConditions(p: Pod, why: Reason, now: Time)
    requires UniqueKinds(p.conditions)
    ensures var q := PodError(p, why, now);
            && UniqueKinds(q.conditions) && HasStatus(q.conditions, PodReady, false)
            && Lookup(q.conditions, ContainersReady) == Lookup(p.conditions, ContainersReady)
  {
    SetLookup(p.conditions, Condition(PodReady, false, now, ReasonPodUnready), now, PodReady);
    SetLookup(p.conditions, Condition(PodReady, false, now, ReasonPodUnready), now, ContainersReady);
  }

  lemma InitialisedConditions(p: Pod, now: Time, kind: Kind)
    requires UniqueKinds(p.conditions) && kind != Initialized
    ensures var q := Initialised(p, now);
            UniqueKinds(q.conditions) && Lookup(q.conditions, kind) == Lookup(p.conditions, kind)
  {
    SetLookup(p.conditions, Condition(Initialized, true, now, ReasonInitialized), now, kind);
  }

  /** An observation makes both kinds of readiness follow the phase. */
  lemma ObserveReady(p: Pod, spec: Spec, f: ControlFiles, now: Time, kind: Kind)
    requires Shaped(p, spec) && (kind == PodReady || kind == ContainersReady)
    requires HasStatus(p.conditions, kind, true) <==> p.phase.Running?
    requires p.phase.Running? ==> !MainPhase(ClassesIn(NameList(p.mains), f)).Pending?
    ensures var q := Observe(p, spec, f, now);
            HasStatus(q.conditions, kind, true) <==> q.phase.Running?
  {
    var q := Loaded(p, f, now);
    LoadedShape(p, spec, f, now);
    ErrorConditions(p, UnsupportedFeatures, now);
    ErrorConditions(q, InitializationError, now);
    InitialisedConditions(q, now, kind);
    if p.phase.Running? {
      ConcludeConditions(q, spec, now, kind);
    } else if !Terminal(p.phase) {
      ConcludeConditions(Initialised(q, now), spec, now, kind);
    }
  }

  /** An observation of a pod that is not yet in a terminal phase puts it on the verdict of the files. */
  lemma ObserveWaiting(p: Pod, spec: Spec, f: ControlFiles, now: Time)
    requires FreshPod(p, spec)
    ensures Tracks(Observe(p, spec, f, now), spec, p.phase.Unset? && spec.unsupported, f)
  {
    if p.phase.Unset? && spec.unsupported {
      ErrorConditions(p, UnsupportedFeatures, now);
    } else {
      var q := Loaded(p, f, now);
      LoadedShape(p, spec, f, now);
      match InitsVerdict(Classes(q.inits)) {
        case StillInitializing =>
        case InitFailed =>
          ErrorConditions(q, InitializationError, now);
        case InitDone =>
          InitialisedConditions(q, now, PodReady);
          ConcludeConditions(Initialised(q, now), spec, now, PodReady);
      }
    }
  }

  /** Main containers that let a pod run do not let it wait later on. */
  lemma RunningStays(p: Pod, spec: Spec, refused: bool, f: ControlFiles, f': ControlFiles)
    requires Tracks(p, spec, refused, f) && Extends(f, f') && p.phase.Running?
    ensures !MainPhase(ClassesIn(NameList(p.mains), f')).Pending?
  {
    VerdictMoves(refused, NameList(p.inits), NameList(p.mains), f, f');
    InitsVerdictMoves(ClassesIn(NameList(p.inits), f), ClassesIn(NameList(p.inits), f'));
  }

  /** Every later observation, of the same or of more files, keeps it there. */
  lemma ObserveTracks(p: Pod, spec: Spec, refused: bool, f: ControlFiles, f': ControlFiles, now: Time)
    requires Tracks(p, spec, refused, f) && Extends(f, f')
    ensures Tracks(Observe(p, spec, f', now), spec, refused, f')
  {
    VerdictMoves(refused, NameList(p.inits), NameList(p.mains), f, f');
    if p.phase.Unset? || p.phase.Pending? {
      assert !refused;
      ObserveWaiting(p, spec, f', now);
    } else if p.phase.Running? {
      ObserveRunning(p, spec, refused, f, f', now);
    }
  }

  lemma ObserveRunning(p: Pod, spec: Spec, refused: bool, f: ControlFiles, f': ControlFiles, now: Time)
    requires Tracks(p, spec, refused, f) && Extends(f, f') && p.phase.Running?
    ensures Tracks(Observe(p, spec, f', now), spec, refused, f')
  {
    var q := Loaded(p, f', now);
    RunningStays(p, spec, refused, f, f');
    LoadedShape(p, spec, f', now);
    InitsVerdictMoves(ClassesIn(NameList(p.inits), f), ClassesIn(NameList(p.inits), f'));
    ConcludeConditions(q, spec, now, PodReady);
  }

  /** Confluence: after any run of observations of growing files, however many and whenever they were
      made, the phase is the verdict of the last files alone; the pod is Ready exactly while it runs. */
  lemma {:induction false} PhaseConfluence(p: Pod, spec: Spec, files: seq<ControlFiles>, times: seq<Time>, n: nat)
    requires FreshPod(p, spec) && 0 < n <= |files| == |times| && Growing(files)
    ensures var q := Observed(p, spec, files, times, n);
            && Tracks(q, spec, p.phase.Unset? && spec.unsupported, files[n - 1])
            && NameList(q.inits) == NameList(p.inits) && NameList(q.mains) == NameList(p.mains)
  {
    var before := Observed(p, spec, files, times, n - 1);
    if n == 1 {
      ObserveWaiting(p, spec, files[0], times[0]);
    } else {
      PhaseConfluence(p, spec, files, times, n - 1);
      assert Extends(files[n - 2], files[n - 1]);
      ObserveTracks(before, spec, p.phase.Unset? && spec.unsupported, files[n - 2], files[n - 1], times[n - 1]);
    }
    ObserveNames(before, spec, files[n - 1], times[n - 1]);
  }

  lemma SyncNames(ss: seq<Status>, f: ControlFiles, now: Time)
    ensures NameList(SyncAll(ss, f, now)) == NameList(ss)
  {
  }

  lemma ObserveNames(p: Pod, spec: Spec, f: ControlFiles, now: Time)
    ensures var q := Observe(p, spec, f, now);
            NameList(q.inits) == NameList(p.inits) && NameList(q.mains) == NameList(p.mains)
  {
    SyncNames(p.inits, f, now);
    SyncNames(p.mains, f, now);
  }

  /** Over such a run the phase never goes from Running back to waiting, never leaves Succeeded or
      Failed, and while it is Running or Succeeded every init container has exited with zero. */
  lemma PhaseOrder(p: Pod, spec: Spec, files: seq<ControlFiles>, times: seq<Time>, i: nat, n: nat)
    requires FreshPod(p, spec) && 0 < i <= n <= |files| == |times| && Growing(files)
    ensures var q, r := Observed(p, spec, files, times, i).phase, Observed(p, spec, files, times, n).phase;
            && (Terminal(q) ==> r == q)
            && (q.Running? ==> r.Running? || Terminal(r))
            && (q.Running? || q.Succeeded? ==> forall s | s in p.inits :: ExitedZero(s.name, files[i - 1]))
  {
    PhaseConfluence(p, spec, files, times, i);
    PhaseConfluence(p, spec, files, times, n);
    var refused := p.phase.Unset? && spec.unsupported;
    assert Extends(files[i - 1], files[n - 1]);
    VerdictMoves(refused, NameList(p.inits), NameList(p.mains), files[i - 1], files[n - 1]);
    if InitsVerdict(ClassesIn(NameList(p.inits), files[i - 1])).InitDone? {
      InitsExitedZero(p.inits, files[i - 1]);
    }
  }

  predicate ExitedZero(n: Name, f: ControlFiles) {
    n in f.exitCodes && ToInt32(f.exitCodes[n]) == 0
  }

  lemma InitsExitedZero(ss: seq<Status>, f: ControlFiles)
    requires InitsVerdict(ClassesIn(NameList(ss), f)).InitDone?
    ensures forall s | s in ss :: ExitedZero(s.name, f)
  {
    var cs := ClassesIn(NameList(ss), f);
    InitsVerdictDone(cs);
    forall s | s in ss ensures ExitedZero(s.name, f) {
      var k :| 0 <= k < |ss| && ss[k] == s;
      assert cs[k].SuccessfulJob?;
    }
  }

  /** The reason given fits the phase; in particular it is never that of the fall-through. */
  predicate ReasonFits(p: Pod) {
    match p.phase
      case Failed => p.reason == ContainerFailed || p.reason == InitializationError || p.reason == UnsupportedFeatures
      case Succeeded => p.reason == Completed
      case Running => p.reason == RunningReason
      case _ => true
  }

  /** A pod with one status per container whose reason fits. */
  ghost predicate Sane(p: Pod, spec: Spec) {
    Shaped(p, spec) && ReasonFits(p)
  }

  lemma ConcludeSane(p: Pod, spec: Spec, now: Time)
    requires Shaped(p, spec)
    ensures Sane(Conclude(p, spec.totalJobs, now), spec)
  {
    ChooseCounts(p.mains);
    TwoConditions(p, false, ReasonContainersUnready, ReasonPodUnready, now);
    TwoConditions(p, true, ReasonContainersReady, ReasonPodReady, now);
  }

  lemma ObserveSane(p: Pod, spec: Spec, f: ControlFiles, now: Time)
    requires Sane(p, spec)
    ensures Sane(Observe(p, spec, f, now), spec)
  {
    if p.phase.Unset? && spec.unsupported {
      ErrorConditions(p, UnsupportedFeatures, now);
    } else if !Terminal(p.phase) {
      var q := Loaded(p, f, now);
      LoadedShape(p, spec, f, now);
      if q.phase.Running? {
        ConcludeSane(q, spec, now);
      } else {
        ErrorConditions(q, InitializationError, now);
        InitialisedConditions(q, now, PodReady);
        ConcludeSane(Initialised(q, now), spec, now);
      }
    }
  }

  /** Over any run of observations, of any files, the invalid transition is never taken: a pod with one
      status per container that fails names a container, an init container or an unsupported feature as
      the reason. */
  lemma {:induction false} NeverInvalid(p: Pod, spec: Spec, files: seq<ControlFiles>, times: seq<Time>, n: nat)
    requires Sane(p, spec) && n <= |files| == |times|
    ensures Sane(Observed(p, spec, files, times, n), spec)
  {
    if n > 0 {
      NeverInvalid(p, spec, files, times, n - 1);
      ObserveSane(Observed(p, spec, files, times, n - 1), spec, files[n - 1], times[n - 1]);
    }
  }
}
