/** What a run of observations leaves on record besides the phase: the pod's address, the reason, and
    the conditions with the times at which they changed, told by the files and the times of the looks. */
module PodRecords {
  import opened Wrappers
  import opened Conditions
  import opened ContainerStatus
  import opened PodStatus
  import opened PodLifecycle
  import opened PauseProtocol
  import PodEvents

  // ---------------------------------------------------------------- the address

  predicate HasAddress(f: ControlFiles) {
    f.ip.Some? && f.ip.value != ""
  }

  /** The first of `n` looks that found an address, or `n`. */
  function FirstAddress(files: seq<ControlFiles>, n: nat): (k: nat)
    requires n <= |files|
    ensures k <= n && (k < n ==> HasAddress(files[k]))
    ensures forall i | 0 <= i < k :: !HasAddress(files[i])
  {
    if n == 0 then 0
    else
      var k := FirstAddress(files, n - 1);
      if k < n - 1 || HasAddress(files[n - 1]) then k else n
  }

  /** One observation takes an address over exactly if none is known and the pod is looked at. */
  lemma ObserveAddress(p: Pod, spec: Spec, f: ControlFiles, now: Time)
    ensures Observe(p, spec, f, now).ip ==
              if p.ip == "" && HasAddress(f) && !Terminal(p.phase) && !(p.phase.Unset? && spec.unsupported)
              then f.ip.value
              else p.ip
  {
  }

  /** The pods that a run of observations goes through. */
  function History(p: Pod, spec: Spec, files: seq<ControlFiles>, times: seq<Time>): (pods: seq<Pod>)
    requires |files| == |times|
    ensures |pods| == |files| + 1
    ensures forall i | 0 <= i <= |files| :: pods[i] == Observed(p, spec, files, times, i)
  {
    seq(|files| + 1, i requires 0 <= i <= |files| => Observed(p, spec, files, times, i))
  }

  /** How the address moves in one look. */
  ghost predicate AddressMoves(p: Pod, q: Pod, f: ControlFiles) {
    && q.ip == (if p.ip == "" && HasAddress(f) && !Terminal(p.phase) then f.ip.value else p.ip)
    && (Terminal(p.phase) ==> q.phase == p.phase)
  }

  lemma {:induction false} AddressDecides(pods: seq<Pod>, files: seq<ControlFiles>, n: nat)
    requires n <= |files| && |pods| == |files| + 1
    requires forall i | 0 <= i < |files| :: AddressMoves(pods[i], pods[i + 1], files[i])
    ensures var k := FirstAddress(files, n);
            pods[n].ip ==
              if pods[0].ip == "" && k < n && !Terminal(pods[k].phase) then files[k].ip.value else pods[0].ip
    ensures forall i | 0 <= i <= n && Terminal(pods[i].phase) :: Terminal(pods[n].phase)
  {
    if n > 0 {
      AddressDecides(pods, files, n - 1);
      assert AddressMoves(pods[n - 1], pods[n - 1 + 1], files[n - 1]);
    }
  }

  /** An address, once known, stays; a pod without one has that of the first look that found one, if the
      pod was not in a terminal phase by then.  This holds for every pod that is not refused on sight,
      and any files, growing or not. */
  lemma AddressExactly(p: Pod, spec: Spec, files: seq<ControlFiles>, times: seq<Time>, n: nat)
    requires n <= |files| == |times| && !(p.phase.Unset? && spec.unsupported)
    ensures var k := FirstAddress(files, n);
            Observed(p, spec, files, times, n).ip ==
              if p.ip == "" && k < n && !Terminal(Observed(p, spec, files, times, k).phase) then files[k].ip.value
              else p.ip
  {
    var pods := History(p, spec, files, times);
    forall i | 0 <= i < |files| ensures AddressMoves(pods[i], pods[i + 1], files[i]) {
      SupportStays(p, spec, files, times, i);
      ObserveAddress(Observed(p, spec, files, times, i), spec, files[i], times[i]);
    }
    AddressDecides(pods, files, n);
  }

  /** A pod refused on sight is given no address. */
  lemma {:induction false} RefusedAddress(p: Pod, spec: Spec, files: seq<ControlFiles>, times: seq<Time>, n: nat)
    requires n <= |files| == |times| && p.phase.Unset? && spec.unsupported
    ensures Observed(p, spec, files, times, n).ip == p.ip
    ensures n > 0 ==> Observed(p, spec, files, times, n).phase.Failed?
  {
    if n > 0 {
      RefusedAddress(p, spec, files, times, n - 1);
      ObserveAddress(Observed(p, spec, files, times, n - 1), spec, files[n - 1], times[n - 1]);
    }
  }

  /** A pod that was not refused at first is not refused later. */
  lemma {:induction false} SupportStays(p: Pod, spec: Spec, files: seq<ControlFiles>, times: seq<Time>, n: nat)
    requires n <= |files| == |times| && !(p.phase.Unset? && spec.unsupported)
    ensures !(Observed(p, spec, files, times, n).phase.Unset? && spec.unsupported)
  {
    if n > 0 {
      SupportStays(p, spec, files, times, n - 1);
      SupportKept(Observed(p, spec, files, times, n - 1), spec, files[n - 1], times[n - 1]);
    }
  }

  lemma SupportKept(p: Pod, spec: Spec, f: ControlFiles, now: Time)
    ensures Observe(p, spec, f, now).phase.Unset? ==> p.phase.Unset?
  {
  }

  // ---------------------------------------------------------------- the address in the joint run

  /** The address that hpk-pause has announced in the first `n` steps. */
  function Announced(actions: seq<Action>, n: nat): Option<string>
    requires n <= |actions|
  {
    if n == 0 then None
    else match actions[n - 1]
      case PrepareOk(ip) => ip
      case PrepareFails(ip, _) => ip
      case _ => Announced(actions, n - 1)
  }

  lemma {:induction false} AnnouncedExactly(cfg: Config, states: seq<System>, actions: seq<Action>, n: nat)
    requires Run(cfg, states, actions) && n <= |actions|
    ensures states[n].files.ip == Announced(actions, n)
  {
    if n > 0 {
      AnnouncedExactly(cfg, states, actions, n - 1);
      assert states[n] == Next(cfg, states[n - 1], actions[n - 1]);
    }
  }

  /** A look that is stored finds an announced address while the pod is not in a terminal phase. */
  predicate FindsAddress(s: System, a: Action) {
    a.Look? && HasAddress(s.files) && !Terminal(s.pod.phase)
  }

  /** The first of `n` steps that is such a look, or `n`. */
  function FirstFound(states: seq<System>, actions: seq<Action>, n: nat): (k: nat)
    requires n <= |actions| < |states|
    ensures k <= n && (k < n ==> FindsAddress(states[k], actions[k]))
    ensures forall i | 0 <= i < k :: !FindsAddress(states[i], actions[i])
  {
    if n == 0 then 0
    else
      var k := FirstFound(states, actions, n - 1);
      if k < n - 1 || FindsAddress(states[n - 1], actions[n - 1]) then k else n
  }

  lemma {:induction false} NeverRefused(cfg: Config, states: seq<System>, actions: seq<Action>, n: nat)
    requires Run(cfg, states, actions) && n <= |actions|
    requires !(states[0].pod.phase.Unset? && cfg.spec.unsupported)
    ensures !(states[n].pod.phase.Unset? && cfg.spec.unsupported)
  {
    if n > 0 {
      NeverRefused(cfg, states, actions, n - 1);
      var s, a := states[n - 1], actions[n - 1];
      assert states[n] == Next(cfg, s, a);
      if a.Look? {
        SupportKept(s.pod, cfg.spec, s.files, a.now);
      }
    }
  }

  /** In every joint run the pod is given the address that was announced by the first look which was stored,
      found one and was not made at a terminal pod, and none before. */
  lemma {:induction false} JointAddress(cfg: Config, states: seq<System>, actions: seq<Action>, n: nat)
    requires Run(cfg, states, actions) && n <= |actions|
    requires states[0].pod.ip == "" && !(states[0].pod.phase.Unset? && cfg.spec.unsupported)
    ensures var k := FirstFound(states, actions, n);
            if k == n then states[n].pod.ip == ""
            else Announced(actions, k) == Some(states[n].pod.ip) && states[n].pod.ip != ""
  {
    if n > 0 {
      JointAddress(cfg, states, actions, n - 1);
      var s, a := states[n - 1], actions[n - 1];
      AnnouncedExactly(cfg, states, actions, n - 1);
      NeverRefused(cfg, states, actions, n - 1);
      AddressStep(cfg, s, a);
      assert states[n] == Next(cfg, s, a);
    }
  }

  lemma AddressStep(cfg: Config, s: System, a: Action)
    requires Enabled(cfg, s, a) && !(s.pod.phase.Unset? && cfg.spec.unsupported)
    ensures Next(cfg, s, a).pod.ip == if s.pod.ip == "" && FindsAddress(s, a) then s.files.ip.value else s.pod.ip
  {
    if a.Look? {
      ObserveAddress(s.pod, cfg.spec, s.files, a.now);
    }
  }

  // ---------------------------------------------------------------- the init containers

  /** Every one of the containers has exited with zero. */
  predicate AllZero(names: seq<Name>, f: ControlFiles) {
    forall n | n in names :: ExitedZero(n, f)
  }

  lemma {:induction false} DoneAllZero(names: seq<Name>, f: ControlFiles)
    ensures InitsVerdict(ClassesIn(names, f)).InitDone? <==> AllZero(names, f)
  {
    var cs := ClassesIn(names, f);
    InitsVerdictDone(cs);
    forall i | 0 <= i < |cs| ensures cs[i].SuccessfulJob? <==> ExitedZero(names[i], f) {
    }
  }

  /** The first of `n` looks that found every one of the containers exited with zero, or `n`. */
  function DoneAt(names: seq<Name>, files: seq<ControlFiles>, n: nat): (k: nat)
    requires n <= |files|
    ensures k <= n && (k < n ==> AllZero(names, files[k]))
    ensures forall i | 0 <= i < k :: !AllZero(names, files[i])
  {
    if n == 0 then 0
    else
      var k := DoneAt(names, files, n - 1);
      if k < n - 1 || AllZero(names, files[n - 1]) then k else n
  }

  lemma DoneStays(names: seq<Name>, files: seq<ControlFiles>, n: nat)
    requires 0 < n <= |files| && Growing(files)
    ensures DoneAt(names, files, n) < n <==> AllZero(names, files[n - 1])
  {
    var k := DoneAt(names, files, n);
    if k < n {
      assert Extends(files[k], files[n - 1]);
    }
  }

  /** How one observation moves the condition Initialized. */
  lemma ObserveInitialized(p: Pod, spec: Spec, f: ControlFiles, now: Time)
    requires Shaped(p, spec)
    ensures var q, was := Observe(p, spec, f, now), Lookup(p.conditions, Initialized);
            Lookup(q.conditions, Initialized) ==
              if (p.phase.Pending? || (p.phase.Unset? && !spec.unsupported)) && AllZero(NameList(p.inits), f) then
                Some(if was.Some? && was.value.status then was.value.(reason := ReasonInitialized)
                     else Condition(Initialized, true, now, ReasonInitialized))
              else was
  {
    if p.phase.Unset? && spec.unsupported {
      ErrorTouches(p, UnsupportedFeatures, now);
    } else if !Terminal(p.phase) {
      var q := Loaded(p, f, now);
      LoadedShape(p, spec, f, now);
      if p.phase.Running? {
        PodEvents.ConcludeTouches(q, spec.totalJobs, now);
      } else {
        DoneAllZero(NameList(p.inits), f);
        match InitsVerdict(Classes(q.inits)) {
          case StillInitializing =>
          case InitFailed => ErrorTouches(q, InitializationError, now);
          case InitDone =>
            SetLookup(p.conditions, Condition(Initialized, true, now, ReasonInitialized), now, Initialized);
            PodEvents.ConcludeTouches(Initialised(q, now), spec.totalJobs, now);
        }
      }
    }
  }

  lemma ErrorTouches(p: Pod, why: Reason, now: Time)
    requires UniqueKinds(p.conditions)
    ensures Lookup(PodError(p, why, now).conditions, Initialized) == Lookup(p.conditions, Initialized)
  {
    SetLookup(p.conditions, Condition(PodReady, false, now, ReasonPodUnready), now, Initialized);
  }

  /** A look that is not made at a waiting pod finds the init containers through only if the look before
      did. */
  lemma DoneWhileWaiting(p: Pod, spec: Spec, f: ControlFiles, f': ControlFiles)
    requires Tracks(p, spec, false, f) && Extends(f, f') && AllZero(NameList(p.inits), f')
    requires p.phase.Running? || Terminal(p.phase)
    ensures AllZero(NameList(p.inits), f)
  {
    var names := NameList(p.inits);
    DoneAllZero(names, f);
    DoneAllZero(names, f');
    InitsVerdictMoves(ClassesIn(names, f), ClassesIn(names, f'));
  }

  /** What a look does to the record of Initialized, with the record `c` before and `d` after: `done` and
      `done'` are whether the init containers were through at the look before and are at this one. */
  ghost predicate InitializedMoves(c: Option<Condition>, d: Option<Condition>, done: bool, done': bool, now: Time) {
    var set_ := Some(Condition(Initialized, true, now, ReasonInitialized));
    && (done' && !done && !(c.Some? && c.value.status) ==> d == set_)
    && (!done' ==> d == c)
    && (done && c.Some? && c.value.status && c.value.reason == ReasonInitialized ==> d == c)
  }

  lemma InitializedStep(p: Pod, spec: Spec, files: seq<ControlFiles>, times: seq<Time>, n: nat)
    requires FreshPod(p, spec) && n < |files| == |times| && Growing(files) && !(p.phase.Unset? && spec.unsupported)
    ensures var names := NameList(p.inits);
            InitializedMoves(Lookup(Observed(p, spec, files, times, n).conditions, Initialized),
                             Lookup(Observed(p, spec, files, times, n + 1).conditions, Initialized),
                             n > 0 && AllZero(names, files[n - 1]), AllZero(names, files[n]), times[n])
  {
    var before := Observed(p, spec, files, times, n);
    if n > 0 {
      PhaseConfluence(p, spec, files, times, n);
      assert Extends(files[n - 1], files[n]);
      if (before.phase.Running? || Terminal(before.phase)) && AllZero(NameList(p.inits), files[n]) {
        DoneWhileWaiting(before, spec, files[n - 1], files[n]);
      }
    }
    ObserveInitialized(before, spec, files[n], times[n]);
  }

  ghost predicate InitializedMovesAt(cs: seq<Option<Condition>>, names: seq<Name>, files: seq<ControlFiles>,
                                     times: seq<Time>, i: nat)
    requires i < |files| == |times| && |cs| == |files| + 1
  {
    InitializedMoves(cs[i], cs[i + 1], i > 0 && AllZero(names, files[i - 1]), AllZero(names, files[i]), times[i])
  }

  lemma {:induction false} InitializedDecides(cs: seq<Option<Condition>>, names: seq<Name>, files: seq<ControlFiles>,
                                              times: seq<Time>, n: nat)
    requires n <= |files| == |times| && |cs| == |files| + 1 && Growing(files)
    requires cs[0].Some? ==> !cs[0].value.status
    requires forall i | 0 <= i < |files| :: InitializedMovesAt(cs, names, files, times, i)
    ensures var k := DoneAt(names, files, n);
            cs[n] == if k < n then Some(Condition(Initialized, true, times[k], ReasonInitialized)) else cs[0]
  {
    if n > 0 {
      InitializedDecides(cs, names, files, times, n - 1);
      DoneStays(names, files, n);
      if n > 1 {
        DoneStays(names, files, n - 1);
      }
      assert InitializedMovesAt(cs, names, files, times, n - 1);
    }
  }

  /** Initialized is recorded true exactly once every init container has exited with zero, with the time
      of the first look that found them so; before that, and for a refused pod, it is left alone. */
  lemma InitializedExactly(p: Pod, spec: Spec, files: seq<ControlFiles>, times: seq<Time>, n: nat)
    requires FreshPod(p, spec) && n <= |files| == |times| && Growing(files)
    requires !HasStatus(p.conditions, Initialized, true) && !(p.phase.Unset? && spec.unsupported)
    ensures var k := DoneAt(NameList(p.inits), files, n);
            Lookup(Observed(p, spec, files, times, n).conditions, Initialized) ==
              if k < n then Some(Condition(Initialized, true, times[k], ReasonInitialized))
              else Lookup(p.conditions, Initialized)
  {
    var pods := History(p, spec, files, times);
    var cs := seq(|pods|, i requires 0 <= i < |pods| => Lookup(pods[i].conditions, Initialized));
    forall i | 0 <= i < |files| ensures InitializedMovesAt(cs, NameList(p.inits), files, times, i) {
      InitializedStep(p, spec, files, times, i);
    }
    InitializedDecides(cs, NameList(p.inits), files, times, n);
  }

  // ---------------------------------------------------------------- the reason

  /** The reason that the control files call for; `first` is the one the pod had to begin with. */
  function ReasonIn(refused: bool, inits: seq<Name>, mains: seq<Name>, f: ControlFiles, first: Reason): Reason {
    if refused then UnsupportedFeatures
    else match InitsVerdict(ClassesIn(inits, f))
      case StillInitializing => first
      case InitFailed => InitializationError
      case InitDone =>
        match MainPhase(ClassesIn(mains, f))
          case Failed => ContainerFailed
          case Succeeded => Completed
          case Running => RunningReason
          case _ => InQueue
  }

  lemma ConcludeReason(p: Pod, total: nat, now: Time)
    requires |p.mains| == total && DistinctNames(p.mains)
    ensures Conclude(p, total, now).reason ==
              match MainPhase(Classes(p.mains))
                case Failed => ContainerFailed
                case Succeeded => Completed
                case Running => RunningReason
                case _ => InQueue
  {
    ChooseCounts(p.mains);
  }

  lemma ObserveReason(p: Pod, spec: Spec, f: ControlFiles, now: Time)
    requires Shaped(p, spec) && !Terminal(p.phase)
    requires p.phase.Running? ==> InitsVerdict(ClassesIn(NameList(p.inits), f)).InitDone?
    ensures Observe(p, spec, f, now).reason ==
              ReasonIn(p.phase.Unset? && spec.unsupported, NameList(p.inits), NameList(p.mains), f, p.reason)
  {
    if !(p.phase.Unset? && spec.unsupported) {
      var q := Loaded(p, f, now);
      LoadedShape(p, spec, f, now);
      ConcludeReason(q, spec.totalJobs, now);
      ConcludeReason(Initialised(q, now), spec.totalJobs, now);
    }
  }

  /** A look at more files puts the pod on the reason they call for. */
  lemma ReasonTracks(p: Pod, spec: Spec, refused: bool, f: ControlFiles, f': ControlFiles, now: Time, first: Reason)
    requires Tracks(p, spec, refused, f) && Extends(f, f')
    requires p.reason == ReasonIn(refused, NameList(p.inits), NameList(p.mains), f, first)
    ensures Observe(p, spec, f', now).reason == ReasonIn(refused, NameList(p.inits), NameList(p.mains), f', first)
  {
    var inits, mains := NameList(p.inits), NameList(p.mains);
    VerdictMoves(refused, inits, mains, f, f');
    InitsVerdictMoves(ClassesIn(inits, f), ClassesIn(inits, f'));
    if !Terminal(p.phase) {
      ObserveReason(p, spec, f', now);
    }
  }

  /** After any run of observations of growing files the reason is told by the last files alone: which
      kind of failure it was, whether the pod is queued, and until the init containers are through the
      reason it came with. */
  lemma {:induction false} ReasonExactly(p: Pod, spec: Spec, files: seq<ControlFiles>, times: seq<Time>, n: nat)
    requires FreshPod(p, spec) && 0 < n <= |files| == |times| && Growing(files)
    ensures Observed(p, spec, files, times, n).reason ==
              ReasonIn(p.phase.Unset? && spec.unsupported, NameList(p.inits), NameList(p.mains), files[n - 1], p.reason)
  {
    var before := Observed(p, spec, files, times, n - 1);
    if n == 1 {
      ObserveReason(p, spec, files[0], times[0]);
    } else {
      ReasonExactly(p, spec, files, times, n - 1);
      PhaseConfluence(p, spec, files, times, n - 1);
      assert Extends(files[n - 2], files[n - 1]);
      var refused := p.phase.Unset? && spec.unsupported;
      ReasonTracks(before, spec, refused, files[n - 2], files[n - 1], times[n - 1], p.reason);
    }
  }

  /** Once a system-error event was handled, in any joint run, that is the reason, whatever it was before. */
  lemma {:induction false} SysErrorReason(cfg: Config, states: seq<System>, actions: seq<Action>, n: nat)
    requires Run(cfg, states, actions) && n <= |actions| && SysErrorBetween(actions, 0, n)
    ensures states[n].pod.phase == Failed && states[n].pod.reason == SysErr
  {
    var s, a := states[n - 1], actions[n - 1];
    assert states[n] == Next(cfg, s, a);
    if !a.SysErrorEvent? {
      assert SysErrorBetween(actions, 0, n - 1);
      SysErrorReason(cfg, states, actions, n - 1);
      if a.Look? {
        PodEvents.TerminalLook(s.pod, cfg.spec, s.files, a.now);
      }
    }
  }

  // ---------------------------------------------------------------- the phase, file by file

  /** The first init container that has not exited with zero decides: the pod fails if it has exited, and
      waits for it if it has not. */
  lemma {:induction false} InitsByFiles(names: seq<Name>, f: ControlFiles, i: nat)
    requires i <= |names| && (forall j | 0 <= j < i :: ExitedZero(names[j], f))
    requires i < |names| ==> !ExitedZero(names[i], f)
    ensures InitsVerdict(ClassesIn(names, f)) ==
              if i == |names| then InitDone
              else if names[i] in f.exitCodes then InitFailed
              else StillInitializing
  {
    var cs := ClassesIn(names, f);
    if i > 0 {
      assert ClassesIn(names[1..], f) == cs[1..];
      InitsByFiles(names[1..], f, i - 1);
    }
  }

  /** The main containers decide once these are through: one that failed fails the pod, and it runs when all
      of them have started and succeeds when all have exited with zero. */
  lemma MainsByFiles(names: seq<Name>, f: ControlFiles)
    ensures MainPhase(ClassesIn(names, f)) ==
              if exists n | n in names :: n in f.exitCodes && !ExitedZero(n, f) then Failed
              else if forall n | n in names :: n in f.exitCodes then Succeeded
              else if forall n | n in names :: n in f.exitCodes || n in f.jobIds then Running
              else Pending
  {
    var cs := ClassesIn(names, f);
    assert forall i | 0 <= i < |names| :: names[i] in names;
    if FailedJob in cs {
      var i :| 0 <= i < |cs| && cs[i] == FailedJob;
      assert names[i] in names && names[i] in f.exitCodes && !ExitedZero(names[i], f);
    }
    forall n | n in names ensures ClassIn(n, f) in cs {
      var i :| 0 <= i < |names| && names[i] == n;
      assert cs[i] == ClassIn(n, f);
    }
  }

  // ---------------------------------------------------------------- readiness

  predicate Readiness(kind: Kind) {
    kind == PodReady || kind == ContainersReady
  }

  function ReadyReason(kind: Kind, ready: bool): Reason {
    if kind == PodReady then (if ready then ReasonPodReady else ReasonPodUnready)
    else (if ready then ReasonContainersReady else ReasonContainersUnready)
  }

  /** What one look at a pod whose readiness follows its phase leaves on record: a new entry exactly when
      the phase enters or leaves Running. */
  ghost predicate ReadinessMoves(p: Pod, q: Pod, now: Time, kind: Kind) {
    var was, after := Lookup(p.conditions, kind), Lookup(q.conditions, kind);
    && (was.Some? && was.value.status <==> p.phase.Running?)
    && (after.Some? && after.value.status <==> q.phase.Running?)
    && (q.phase.Running? ==>
          after == Some(if p.phase.Running? then was.value.(reason := ReadyReason(kind, true))
                        else Condition(kind, true, now, ReadyReason(kind, true))))
    && (p.phase.Running? && !q.phase.Running? ==> after == Some(Condition(kind, false, now, ReadyReason(kind, false))))
    && (Terminal(p.phase) ==> q == p)
  }

  lemma ConcludeReadiness(p: Pod, spec: Spec, now: Time, kind: Kind)
    requires Shaped(p, spec) && Readiness(kind)
    requires HasStatus(p.conditions, kind, true) <==> p.phase.Running?
    requires p.phase.Running? ==> !MainPhase(Classes(p.mains)).Pending?
    requires !Terminal(p.phase)
    ensures ReadinessMoves(p, Conclude(p, spec.totalJobs, now), now, kind)
  {
    ChooseCounts(p.mains);
    ApplyReadiness(p, TransitionOf(MainPhase(Classes(p.mains))), now, kind);
  }

  lemma ApplyReadiness(p: Pod, t: Transition, now: Time, kind: Kind)
    requires UniqueKinds(p.conditions) && Readiness(kind) && !Terminal(p.phase)
    requires HasStatus(p.conditions, kind, true) <==> p.phase.Running?
    requires !t.ToInvalid? && (p.phase.Running? ==> !t.ToPending?)
    ensures ReadinessMoves(p, Apply(p, t, now), now, kind)
  {
    if t.ToFailed? || t.ToSucceeded? {
      PairLookup(p, false, ReasonContainersUnready, ReasonPodUnready, now, kind);
    } else if t.ToRunning? {
      PairLookup(p, true, ReasonContainersReady, ReasonPodReady, now, kind);
    }
  }

  lemma PairLookup(p: Pod, status: bool, r1: Reason, r2: Reason, now: Time, kind: Kind)
    requires UniqueKinds(p.conditions) && Readiness(kind)
    ensures var q, r := SetCond(SetCond(p, ContainersReady, status, r1, now), PodReady, status, r2, now),
                        if kind == PodReady then r2 else r1;
            Lookup(q.conditions, kind) == Some(Merged(Lookup(p.conditions, kind), Condition(kind, status, now, r), now))
  {
    var c1, c2 := Condition(ContainersReady, status, now, r1), Condition(PodReady, status, now, r2);
    SetLookup(p.conditions, c1, now, kind);
    SetLookup(SetCondition(p.conditions, c1, now), c2, now, kind);
  }

  lemma ErrorReadiness(p: Pod, why: Reason, now: Time, kind: Kind)
    requires UniqueKinds(p.conditions) && Readiness(kind) && !p.phase.Running? && !Terminal(p.phase)
    requires !HasStatus(p.conditions, kind, true)
    ensures ReadinessMoves(p, PodError(p, why, now), now, kind)
  {
    SetLookup(p.conditions, Condition(PodReady, false, now, ReasonPodUnready), now, kind);
  }

  lemma ObserveReadiness(p: Pod, spec: Spec, f: ControlFiles, now: Time, kind: Kind)
    requires Shaped(p, spec) && Readiness(kind) && (HasStatus(p.conditions, kind, true) <==> p.phase.Running?)
    requires p.phase.Running? ==> !MainPhase(ClassesIn(NameList(p.mains), f)).Pending?
    ensures ReadinessMoves(p, Observe(p, spec, f, now), now, kind)
  {
    if p.phase.Unset? && spec.unsupported {
      ErrorReadiness(p, UnsupportedFeatures, now, kind);
    } else if !Terminal(p.phase) {
      var q := Loaded(p, f, now);
      LoadedShape(p, spec, f, now);
      if p.phase.Running? {
        ConcludeReadiness(q, spec, now, kind);
      } else {
        match InitsVerdict(Classes(q.inits)) {
          case StillInitializing =>
          case InitFailed => ErrorReadiness(q, InitializationError, now, kind);
          case InitDone =>
            InitialisedConditions(q, now, kind);
            ConcludeReadiness(Initialised(q, now), spec, now, kind);
        }
      }
    }
  }

  /** In a run of observations every look moves the record of readiness so. */
  lemma {:induction false} ReadinessSteps(p: Pod, spec: Spec, files: seq<ControlFiles>, times: seq<Time>, n: nat,
                                          kind: Kind)
    requires FreshPod(p, spec) && n < |files| == |times| && Growing(files)
    requires Readiness(kind) && !HasStatus(p.conditions, kind, true)
    ensures ReadinessMoves(Observed(p, spec, files, times, n), Observed(p, spec, files, times, n + 1), times[n], kind)
  {
    var before := Observed(p, spec, files, times, n);
    if n > 0 {
      ReadinessSteps(p, spec, files, times, n - 1, kind);
      PhaseConfluence(p, spec, files, times, n);
      assert Extends(files[n - 1], files[n]);
      if before.phase.Running? {
        RunningStays(before, spec, p.phase.Unset? && spec.unsupported, files[n - 1], files[n]);
      }
    }
    ObserveReadiness(before, spec, files[n], times[n], kind);
  }

  /** The pod has been running since look `k`. */
  ghost predicate RunningSince(pods: seq<Pod>, k: nat, n: nat)
    requires k < n < |pods|
  {
    !pods[k].phase.Running? && forall i | k < i <= n :: pods[i].phase.Running?
  }

  lemma {:induction false} ReadinessDecides(pods: seq<Pod>, times: seq<Time>, k: nat, n: nat, kind: Kind)
    requires k < n <= |times| && |pods| == |times| + 1 && RunningSince(pods, k, n)
    requires forall i | 0 <= i < |times| :: ReadinessMoves(pods[i], pods[i + 1], times[i], kind)
    ensures Lookup(pods[n].conditions, kind) == Some(Condition(kind, true, times[k], ReadyReason(kind, true)))
    decreases n
  {
    assert ReadinessMoves(pods[n - 1], pods[n - 1 + 1], times[n - 1], kind);
    if k < n - 1 {
      ReadinessDecides(pods, times, k, n - 1, kind);
    }
  }

  /** While a pod runs both kinds of readiness carry the time of the look that first found it running,
      however often it is looked at since. */
  lemma ReadySince(p: Pod, spec: Spec, files: seq<ControlFiles>, times: seq<Time>, k: nat, n: nat, kind: Kind)
    requires FreshPod(p, spec) && k < n <= |files| == |times| && Growing(files)
    requires Readiness(kind) && !HasStatus(p.conditions, kind, true)
    requires RunningSince(History(p, spec, files, times), k, n)
    ensures Lookup(Observed(p, spec, files, times, n).conditions, kind) ==
              Some(Condition(kind, true, times[k], ReadyReason(kind, true)))
  {
    var pods := History(p, spec, files, times);
    forall i | 0 <= i < |times| ensures ReadinessMoves(pods[i], pods[i + 1], times[i], kind) {
      ReadinessSteps(p, spec, files, times, i, kind);
    }
    ReadinessDecides(pods, times, k, n, kind);
  }

  lemma {:induction false} WithdrawnDecides(pods: seq<Pod>, times: seq<Time>, k: nat, n: nat, kind: Kind)
    requires k < n <= |times| && |pods| == |times| + 1
    requires pods[k].phase.Running? && Terminal(pods[k + 1].phase)
    requires forall i | 0 <= i < |times| :: ReadinessMoves(pods[i], pods[i + 1], times[i], kind)
    ensures Terminal(pods[n].phase)
    ensures Lookup(pods[n].conditions, kind) == Some(Condition(kind, false, times[k], ReadyReason(kind, false)))
    decreases n
  {
    assert ReadinessMoves(pods[n - 1], pods[n - 1 + 1], times[n - 1], kind);
    if k < n - 1 {
      WithdrawnDecides(pods, times, k, n - 1, kind);
    }
  }

  /** Once a pod has run and come to its end, both kinds of readiness are withdrawn, with the time of the
      look that found the end, and stay so. */
  lemma ReadyUntil(p: Pod, spec: Spec, files: seq<ControlFiles>, times: seq<Time>, k: nat, n: nat, kind: Kind)
    requires FreshPod(p, spec) && k < n <= |files| == |times| && Growing(files)
    requires Readiness(kind) && !HasStatus(p.conditions, kind, true)
    requires var pods := History(p, spec, files, times); pods[k].phase.Running? && !pods[k + 1].phase.Running?
    ensures Lookup(Observed(p, spec, files, times, n).conditions, kind) ==
              Some(Condition(kind, false, times[k], ReadyReason(kind, false)))
  {
    var pods := History(p, spec, files, times);
    forall i | 0 <= i < |times| ensures ReadinessMoves(pods[i], pods[i + 1], times[i], kind) {
      ReadinessSteps(p, spec, files, times, i, kind);
    }
    EndIsTerminal(p, spec, files, times, k);
    WithdrawnDecides(pods, times, k, n, kind);
  }

  lemma EndIsTerminal(p: Pod, spec: Spec, files: seq<ControlFiles>, times: seq<Time>, k: nat)
    requires FreshPod(p, spec) && k < |files| == |times| && Growing(files)
    requires Observed(p, spec, files, times, k).phase.Running?
    ensures var q := Observed(p, spec, files, times, k + 1); q.phase.Running? || Terminal(q.phase)
  {
    PhaseOrder(p, spec, files, times, k, k + 1);
  }
}
