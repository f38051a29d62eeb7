/** How file events and the periodic reconciler move a pod. */
module PodEvents {
  import opened Wrappers
  import opened Conditions
  import opened ContainerStatus
  import opened PodStatus
  import opened PodLifecycle
  import opened PauseProtocol

  datatype FileKind = SysErrorFile | IpFile | PauseJobId | JobIdFile | ExitCodeFile | OtherFile

  /** The pod that is stored and announced after an event, or None when the event is ignored. */
  function ProcessEvent(p: Pod, kind: FileKind, spec: Spec, f: ControlFiles, now: Time): Option<Pod> {
    match kind
      case SysErrorFile => Some(PodError(p, SysErr, now))
      case PauseJobId => None
      case OtherFile => None
      case _ => if Terminal(p.phase) then None else Some(Observe(p, spec, f, now))
  }

  /** The pod as it is stored after an event. */
  function Stored(p: Pod, kind: FileKind, spec: Spec, f: ControlFiles, now: Time): Pod {
    match ProcessEvent(p, kind, spec, f, now)
      case Some(q) => q
      case None => p
  }

  lemma TerminalLook(p: Pod, spec: Spec, f: ControlFiles, now: Time)
    requires Terminal(p.phase)
    ensures Observe(p, spec, f, now) == p
  {
  }

  /** Handling an event is a step of the joint system or none: a system error, a look, or nothing. */
  lemma EventIsStep(cfg: Config, s: System, kind: FileKind, now: Time)
    requires kind.SysErrorFile? ==> s.files.sysError
    ensures Stored(s.pod, kind, cfg.spec, s.files, now) ==
              (if kind.PauseJobId? || kind.OtherFile? then s.pod
               else Next(cfg, s, if kind.SysErrorFile? then SysErrorEvent(now) else Look(now)).pod)
  {
    if Terminal(s.pod.phase) {
      TerminalLook(s.pod, cfg.spec, s.files, now);
    }
  }

  // ---------------------------------------------------------------- conditions

  /** No observation moves the transition time of a condition whose status it leaves alone. */
  lemma ObserveKeepsTimes(p: Pod, spec: Spec, f: ControlFiles, now: Time, kind: Kind)
    requires UniqueKinds(p.conditions)
    ensures TimesKept(p.conditions, Observe(p, spec, f, now).conditions, kind)
  {
    if p.phase.Unset? && spec.unsupported {
      ErrorKeepsTimes(p, UnsupportedFeatures, now, kind);
    } else if !Terminal(p.phase) {
      var q := Loaded(p, f, now);
      if p.phase.Running? {
        ConcludeKeepsTimes(q, spec.totalJobs, now, kind);
      } else {
        match InitsVerdict(Classes(q.inits)) {
          case StillInitializing =>
          case InitFailed => ErrorKeepsTimes(q, InitializationError, now, kind);
          case InitDone => InitialisedKeepsTimes(q, spec.totalJobs, now, kind);
        }
      }
    }
  }

  lemma InitialisedKeepsTimes(q: Pod, total: nat, now: Time, kind: Kind)
    requires UniqueKinds(q.conditions)
    ensures TimesKept(q.conditions, Conclude(Initialised(q, now), total, now).conditions, kind)
  {
    var r := Initialised(q, now);
    SetLookup(q.conditions, Condition(Initialized, true, now, ReasonInitialized), now, kind);
    ConcludeKeepsTimes(r, total, now, kind);
    ConcludeTouches(r, total, now);
  }

  lemma ErrorKeepsTimes(p: Pod, why: Reason, now: Time, kind: Kind)
    requires UniqueKinds(p.conditions)
    ensures TimesKept(p.conditions, PodError(p, why, now).conditions, kind)
    ensures UniqueKinds(PodError(p, why, now).conditions)
  {
    SetLookup(p.conditions, Condition(PodReady, false, now, ReasonPodUnready), now, kind);
  }

  lemma PairKeepsTimes(p: Pod, status: bool, r1: Reason, r2: Reason, now: Time, kind: Kind)
    requires UniqueKinds(p.conditions)
    ensures var q := SetCond(SetCond(p, ContainersReady, status, r1, now), PodReady, status, r2, now);
            && TimesKept(p.conditions, q.conditions, kind)
            && (kind != ContainersReady && kind != PodReady ==>
                  Lookup(q.conditions, kind) == Lookup(p.conditions, kind))
  {
    var c1, c2 := Condition(ContainersReady, status, now, r1), Condition(PodReady, status, now, r2);
    SetLookup(p.conditions, c1, now, kind);
    SetLookup(SetCondition(p.conditions, c1, now), c2, now, kind);
  }

  lemma ConcludeKeepsTimes(p: Pod, total: nat, now: Time, kind: Kind)
    requires UniqueKinds(p.conditions)
    ensures TimesKept(p.conditions, Conclude(p, total, now).conditions, kind)
  {
    match Choose(p.mains, total) {
      case ToFailed => PairKeepsTimes(p, false, ReasonContainersUnready, ReasonPodUnready, now, kind);
      case ToSucceeded => PairKeepsTimes(p, false, ReasonContainersUnready, ReasonPodUnready, now, kind);
      case ToRunning => PairKeepsTimes(p, true, ReasonContainersReady, ReasonPodReady, now, kind);
      case ToPending =>
      case ToInvalid =>
    }
  }

  lemma ConcludeTouches(p: Pod, total: nat, now: Time)
    requires UniqueKinds(p.conditions)
    ensures Lookup(Conclude(p, total, now).conditions, Initialized) == Lookup(p.conditions, Initialized)
  {
    match Choose(p.mains, total) {
      case ToFailed => PairKeepsTimes(p, false, ReasonContainersUnready, ReasonPodUnready, now, Initialized);
      case ToSucceeded => PairKeepsTimes(p, false, ReasonContainersUnready, ReasonPodUnready, now, Initialized);
      case ToRunning => PairKeepsTimes(p, true, ReasonContainersReady, ReasonPodReady, now, Initialized);
      case ToPending =>
      case ToInvalid =>
    }
  }

  /** A system error fails any pod and withdraws PodReady, and leaves ContainersReady as it is. */
  lemma SysErrorKeepsContainersReady(p: Pod, now: Time)
    requires UniqueKinds(p.conditions)
    ensures var q := PodError(p, SysErr, now);
            && q.phase.Failed? && HasStatus(q.conditions, PodReady, false)
            && (HasStatus(q.conditions, ContainersReady, true) <==> HasStatus(p.conditions, ContainersReady, true))
  {
    ErrorConditions(p, SysErr, now);
  }

  // ---------------------------------------------------------------- the reconciler

  method Reconcile(p: Pod, spec: Spec, f: ControlFiles, now: Time) returns (saved: Option<Pod>)
    ensures var q := Observe(p, spec, f, now);
            saved == if !Terminal(p.phase) && Changed(p, q) then Some(q) else None
  {
    if p.phase == Succeeded || p.phase == Failed {
      return None;
    }
    var pod := new ManagedPod(p);
    pod.UpdateStatusFromRuntime(spec, f, now);
    if pod.phase != p.phase || pod.mains != p.mains || pod.inits != p.inits {
      saved := Some(Pod(pod.phase, pod.reason, pod.ip, pod.inits, pod.mains, pod.conditions.items));
    } else {
      saved := None;
    }
  }

  /** A pass of the reconciler is a step of the joint system: a look whose result is saved, or one whose
      result is not. */
  lemma PassIsStep(cfg: Config, s: System, now: Time)
    ensures var q := Observe(s.pod, cfg.spec, s.files, now);
            var saved := if !Terminal(s.pod.phase) && Changed(s.pod, q) then q else s.pod;
            var a := if Changed(s.pod, q) then Look(now) else Glance(now);
            Enabled(cfg, s, a) && Next(cfg, s, a).pod == saved
  {
  }

  predicate HasExited(p: Pod) {
    (exists s :: s in p.inits && s.state.terminated.Some?) || (exists s :: s in p.mains && s.state.terminated.Some?)
  }

  /** Syncing again with the same files, at a later time, changes a list of statuses exactly when some
      container in it has exited: its finish time is the time of the last look. */
  lemma SyncAgain(ss: seq<Status>, f: ControlFiles, t1: Time, t2: Time)
    requires t1 != t2 && forall s | s in ss :: Exclusive(s.state)
    ensures var once := SyncAll(ss, f, t1);
            SyncAll(once, f, t2) == once <==> forall s :: s in once ==> s.state.terminated.None?
  {
    var once := SyncAll(ss, f, t1);
    forall i | 0 <= i < |ss| ensures Handled(once[i], f, t2) == once[i] <==> once[i].state.terminated.None? {
      assert ss[i] in ss;
      HandledTwice(ss[i], f, t1, t2);
    }
    if forall s :: s in once ==> s.state.terminated.None? {
      assert SyncAll(once, f, t2) == once;
    } else {
      var s :| s in once && s.state.terminated.Some?;
      var i :| 0 <= i < |once| && once[i] == s;
      assert SyncAll(once, f, t2)[i] != once[i];
    }
  }

  lemma ObserveSyncs(p: Pod, spec: Spec, f: ControlFiles, now: Time)
    requires !Terminal(p.phase) && !Terminal(Observe(p, spec, f, now).phase)
    ensures var q := Observe(p, spec, f, now);
            q.inits == SyncAll(p.inits, f, now) && q.mains == SyncAll(p.mains, f, now)
  {
  }

  lemma LookAgain(p: Pod, spec: Spec, refused: bool, f: ControlFiles, t1: Time, t2: Time)
    requires Shaped(p, spec) && t1 != t2 && !Terminal(Observe(p, spec, f, t1).phase)
    requires Tracks(Observe(p, spec, f, t1), spec, refused, f)
    ensures var q := Observe(p, spec, f, t1);
            Changed(q, Observe(q, spec, f, t2)) <==> HasExited(q)
  {
    var q := Observe(p, spec, f, t1);
    var r := Observe(q, spec, f, t2);
    SamePhase(p, spec, refused, f, t1, t2);
    ObserveSyncs(p, spec, f, t1);
    ObserveSyncs(q, spec, f, t2);
    SyncAgain(p.inits, f, t1, t2);
    SyncAgain(p.mains, f, t1, t2);
  }

  lemma SamePhase(p: Pod, spec: Spec, refused: bool, f: ControlFiles, t1: Time, t2: Time)
    requires Shaped(p, spec) && Tracks(Observe(p, spec, f, t1), spec, refused, f)
    ensures var q := Observe(p, spec, f, t1);
            Observe(q, spec, f, t2).phase == q.phase
  {
    var q := Observe(p, spec, f, t1);
    ObserveTracks(q, spec, refused, f, f, t2);
    ObserveNames(p, spec, f, t1);
    ObserveNames(q, spec, f, t2);
    UnsetExactly(p, spec, f, t1);
    UnsetExactly(q, spec, f, t2);
  }

  /** One more look, after any run of observations, at the files the last one saw.  The pod is saved and
      announced again, though nothing happened, exactly when one of its containers has exited: an exited
      init container is enough. */
  lemma SecondReconcile(p: Pod, spec: Spec, files: seq<ControlFiles>, times: seq<Time>, n: nat, now: Time)
    requires FreshPod(p, spec) && 0 < n <= |files| == |times| && Growing(files)
    requires now != times[n - 1] && !Terminal(Observed(p, spec, files, times, n).phase)
    ensures var q := Observed(p, spec, files, times, n);
            Changed(q, Observe(q, spec, files[n - 1], now)) <==> HasExited(q)
  {
    var before := Observed(p, spec, files, times, n - 1);
    PhaseConfluence(p, spec, files, times, n);
    if n > 1 {
      PhaseConfluence(p, spec, files, times, n - 1);
    }
    LookAgain(before, spec, p.phase.Unset? && spec.unsupported, files[n - 1], times[n - 1], now);
  }

  /** A phase stays unset only while a supported pod is still initializing. */
  lemma UnsetExactly(p: Pod, spec: Spec, f: ControlFiles, now: Time)
    requires Shaped(p, spec)
    ensures Observe(p, spec, f, now).phase.Unset? <==>
              p.phase.Unset? && !spec.unsupported && InitsVerdict(ClassesIn(NameList(p.inits), f)).StillInitializing?
  {
    LoadedShape(p, spec, f, now);
  }
}
