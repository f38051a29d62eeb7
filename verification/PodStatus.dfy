/** The pod's phase as it is derived from the runtime, and what changes it. */
module PodStatus {
  import opened Wrappers
  import opened Conditions
  import opened ContainerStatus

  datatype Phase = Unset | Pending | Running | Succeeded | Failed

  /** The address is the empty text until it is known. */
  datatype Pod = Pod(
    phase: Phase,
    reason: Reason,
    ip: string,
    inits: seq<Status>,
    mains: seq<Status>,
    conditions: seq<Condition>)

  /** What of the pod's specification matters: how many main containers it has, and whether it uses
      features that are refused on first sight. */
  datatype Spec = Spec(totalJobs: nat, unsupported: bool)

  predicate Terminal(p: Phase) {
    p.Succeeded? || p.Failed?
  }

  // ---------------------------------------------------------------- the specification

  function SetCond(p: Pod, kind: Kind, status: bool, reason: Reason, now: Time): Pod {
    p.(conditions := SetCondition(p.conditions, Condition(kind, status, now, reason), now))
  }

  function PodError(p: Pod, reason: Reason, now: Time): Pod {
    SetCond(p.(phase := Failed, reason := reason), PodReady, false, ReasonPodUnready, now)
  }

  function TerminationConditions(p: Pod, now: Time): Pod {
    SetCond(SetCond(p, ContainersReady, false, ReasonContainersUnready, now), PodReady, false, ReasonPodUnready, now)
  }

  datatype InitVerdict = StillInitializing | InitFailed | InitDone

  /** The first init container that has not exited with zero decides. */
  function InitsVerdict(classes: seq<Class>): InitVerdict {
    if classes == [] then InitDone
    else match classes[0]
      case SuccessfulJob => InitsVerdict(classes[1..])
      case FailedJob => InitFailed
      case _ => StillInitializing
  }

  function Classes(ss: seq<Status>): seq<Class> {
    seq(|ss|, i requires 0 <= i < |ss| => ClassOf(ss[i].state))
  }

  /** The names of the statuses in one class. */
  function NamesIn(ss: seq<Status>, c: Class): set<Name> {
    set s | s in ss && ClassOf(s.state) == c :: s.name
  }

  function Names(ss: seq<Status>): set<Name> {
    set s | s in ss :: s.name
  }

  datatype Transition = ToFailed | ToSucceeded | ToRunning | ToPending | ToInvalid

  /** The transition that follows from the main containers, once the init containers are done. */
  function Choose(mains: seq<Status>, total: nat): Transition {
    var succeeded, running := NamesIn(mains, SuccessfulJob), NamesIn(mains, RunningJob);
    if NamesIn(mains, FailedJob) != {} then ToFailed
    else if |succeeded| == total then ToSucceeded
    else if |running| + |succeeded| == total then ToRunning
    else if NamesIn(mains, PendingJob) != {} then ToPending
    else ToInvalid
  }

  function Apply(p: Pod, t: Transition, now: Time): Pod {
    match t
      case ToFailed => TerminationConditions(p.(phase := Failed, reason := ContainerFailed), now)
      case ToSucceeded => TerminationConditions(p.(phase := Succeeded, reason := Completed), now)
      case ToRunning =>
        var q := p.(phase := Running, reason := RunningReason);
        SetCond(SetCond(q, ContainersReady, true, ReasonContainersReady, now), PodReady, true, ReasonPodReady, now)
      case ToPending => p.(phase := Pending, reason := InQueue)
      case ToInvalid => p.(phase := Failed, reason := PodFailure)
  }

  function Conclude(p: Pod, total: nat, now: Time): Pod {
    Apply(p, Choose(p.mains, total), now)
  }

  /** The pod with its address and its container statuses brought up to date. */
  function Loaded(p: Pod, f: ControlFiles, now: Time): Pod {
    p.(ip := if p.ip == "" && f.ip.Some? then f.ip.value else p.ip,
       inits := SyncAll(p.inits, f, now),
       mains := SyncAll(p.mains, f, now))
  }

  function Initialised(p: Pod, now: Time): Pod {
    SetCond(p, Initialized, true, ReasonInitialized, now).(reason := ContainerCreating)
  }

  /** One observation of the runtime. */
  function Observe(p: Pod, spec: Spec, f: ControlFiles, now: Time): Pod {
    if Terminal(p.phase) then p
    else if p.phase.Unset? && spec.unsupported then PodError(p, UnsupportedFeatures, now)
    else
      var q := Loaded(p, f, now);
      if q.phase.Running? then Conclude(q, spec.totalJobs, now)
      else match InitsVerdict(Classes(q.inits))
        case StillInitializing => q
        case InitFailed => PodError(q, InitializationError, now)
        case InitDone => Conclude(Initialised(q, now), spec.totalJobs, now)
  }

  /** Whether an observation is saved and announced by the reconciler. */
  predicate Changed(before: Pod, after: Pod) {
    before.phase != after.phase || before.mains != after.mains || before.inits != after.inits
  }

  // ---------------------------------------------------------------- the code

  class Classifier {
    var pendingJobs: map<Name, Status>
    var runningJobs: map<Name, Status>
    var successfulJobs: map<Name, Status>
    var failedJobs: map<Name, Status>

    ghost predicate Holds(ss: seq<Status>)
      reads this
    {
      && pendingJobs.Keys == NamesIn(ss, PendingJob)
      && runningJobs.Keys == NamesIn(ss, RunningJob)
      && successfulJobs.Keys == NamesIn(ss, SuccessfulJob)
      && failedJobs.Keys == NamesIn(ss, FailedJob)
    }

    constructor ()
      ensures Holds([])
    {
      pendingJobs, runningJobs, successfulJobs, failedJobs := map[], map[], map[], map[];
    }

    method Classify(s: Status, ghost seen: seq<Status>)
      requires Holds(seen)
      modifies this
      ensures Holds(seen + [s])
    {
      var c := ClassOf(s.state);
      forall d: Class ensures NamesIn(seen + [s], d) == NamesIn(seen, d) + (if d == c then {s.name} else {}) {
        NamesInAppend(seen, s, d);
      }
      if s.state.terminated.Some? {
        if s.state.terminated.value.exitCode == 0 {
          successfulJobs := successfulJobs[s.name := s];
        } else {
          failedJobs := failedJobs[s.name := s];
        }
      } else if s.state.running.Some? {
        runningJobs := runningJobs[s.name := s];
      } else {
        pendingJobs := pendingJobs[s.name := s];
      }
    }
  }

  method ClassifyAll(ss: seq<Status>) returns (jobs: Classifier)
    ensures fresh(jobs) && jobs.Holds(ss)
  {
    jobs := new Classifier();
    var i := 0;
    while i < |ss|
      invariant 0 <= i <= |ss|
      invariant jobs.Holds(ss[..i])
    {
      jobs.Classify(ss[i], ss[..i]);
      assert ss[..i] + [ss[i]] == ss[..i + 1];
      i := i + 1;
    }
    assert ss[..i] == ss;
  }

  lemma NamesInAppend(ss: seq<Status>, s: Status, d: Class)
    ensures NamesIn(ss + [s], d) == NamesIn(ss, d) + if ClassOf(s.state) == d then {s.name} else {}
  {
    forall n ensures n in NamesIn(ss + [s], d) <==> n in NamesIn(ss, d) || (ClassOf(s.state) == d && n == s.name) {
      if n in NamesIn(ss, d) {
        var t :| t in ss && ClassOf(t.state) == d && t.name == n;
        assert t in ss + [s];
      }
      if ClassOf(s.state) == d && n == s.name {
        assert s in ss + [s];
      }
    }
  }

  /** A pod under management, changed in place. */
  class ManagedPod {
    var phase: Phase
    var reason: Reason
    var ip: string
    var inits: seq<Status>
    var mains: seq<Status>
    const conditions: ConditionList

    constructor (p: Pod)
      ensures View() == p && fresh(conditions)
    {
      phase, reason, ip, inits, mains := p.phase, p.reason, p.ip, p.inits, p.mains;
      conditions := new ConditionList(p.conditions);
    }

    ghost function View(): Pod
      reads this, conditions
    {
      Pod(phase, reason, ip, inits, mains, conditions.items)
    }

    method SetStatusCondition(kind: Kind, status: bool, reason: Reason, now: Time)
      modifies conditions
      ensures View() == SetCond(old(View()), kind, status, reason, now)
    {
      conditions.SetPodStatusCondition(Condition(kind, status, now, reason), now);
    }

    method SetError(why: Reason, now: Time)
      modifies this, conditions
      ensures View() == PodError(old(View()), why, now)
    {
      phase := Failed;
      reason := why;
      SetStatusCondition(PodReady, false, ReasonPodUnready, now);
    }

    method SetTerminationConditions(now: Time)
      modifies conditions
      ensures View() == TerminationConditions(old(View()), now)
    {
      SetStatusCondition(ContainersReady, false, ReasonContainersUnready, now);
      SetStatusCondition(PodReady, false, ReasonPodUnready, now);
    }

    method SyncContainerStatuses(f: ControlFiles, now: Time)
      modifies this
      ensures View() == old(View()).(inits := SyncAll(old(inits), f, now), mains := SyncAll(old(mains), f, now))
    {
      var i := 0;
      while i < |inits|
        invariant 0 <= i <= |inits| == |old(inits)|
        invariant inits[..i] == SyncAll(old(inits), f, now)[..i] && inits[i..] == old(inits)[i..]
        invariant View() == old(View()).(inits := inits)
      {
        var s := HandleStatus(inits[i], f, now);
        inits := inits[i := s];
        i := i + 1;
      }
      assert inits == SyncAll(old(inits), f, now);
      i := 0;
      while i < |mains|
        invariant 0 <= i <= |mains| == |old(mains)|
        invariant mains[..i] == SyncAll(old(mains), f, now)[..i] && mains[i..] == old(mains)[i..]
        invariant View() == old(View()).(inits := inits, mains := mains)
        invariant inits == SyncAll(old(inits), f, now)
      {
        var s := HandleStatus(mains[i], f, now);
        mains := mains[i := s];
        i := i + 1;
      }
      assert mains == SyncAll(old(mains), f, now);
    }

    /** The walk over the init containers. */
    method CheckInits() returns (v: InitVerdict)
      ensures v == InitsVerdict(Classes(inits))
    {
      var i := 0;
      while i < |inits|
        invariant 0 <= i <= |inits|
        invariant InitsVerdict(Classes(inits)) == InitsVerdict(Classes(inits)[i..])
      {
        assert Classes(inits)[i..][1..] == Classes(inits)[i + 1..];
        if inits[i].state.terminated.None? {
          return StillInitializing;
        }
        if inits[i].state.terminated.value.exitCode != 0 {
          return InitFailed;
        }
        i := i + 1;
      }
      return InitDone;
    }

    method UpdateStatusFromRuntime(spec: Spec, f: ControlFiles, now: Time)
      modifies this, conditions
      ensures View() == Observe(old(View()), spec, f, now)
    {
      match phase {
        case Unset =>
          if spec.unsupported {
            SetError(UnsupportedFeatures, now);
            return;
          }
        case Succeeded =>
          return;
        case Failed =>
          return;
        case _ =>
      }
      if ip == "" {
        if f.ip.Some? {
          ip := f.ip.value;
        }
      }
      SyncContainerStatuses(f, now);
      if phase == Pending || phase == Unset {
        var v := CheckInits();
        if v == StillInitializing {
          return;
        }
        if v == InitFailed {
          SetError(InitializationError, now);
          return;
        }
        SetStatusCondition(Initialized, true, ReasonInitialized, now);
        reason := ContainerCreating;
      }
      var t := ChooseTransition(spec.totalJobs);
      Change(t, now);
    }

    /** The first transition whose test holds for the classified containers is chosen. */
    method ChooseTransition(totalJobs: nat) returns (t: Transition)
      ensures t == Choose(mains, totalJobs)
    {
      var jobs := ClassifyAll(mains);
      if |jobs.failedJobs| > 0 {
        t := ToFailed;
      } else if |jobs.successfulJobs| == totalJobs {
        t := ToSucceeded;
      } else if |jobs.runningJobs| + |jobs.successfulJobs| == totalJobs {
        t := ToRunning;
      } else if |jobs.pendingJobs| > 0 {
        t := ToPending;
      } else {
        t := ToInvalid;
      }
    }

    method Change(t: Transition, now: Time)
      modifies this, conditions
      ensures View() == Apply(old(View()), t, now)
    {
      match t {
        case ToFailed =>
          phase := Failed;
          reason := ContainerFailed;
          SetTerminationConditions(now);
        case ToSucceeded =>
          phase := Succeeded;
          reason := Completed;
          SetTerminationConditions(now);
        case ToRunning =>
          phase := Running;
          reason := RunningReason;
          SetStatusCondition(ContainersReady, true, ReasonContainersReady, now);
          SetStatusCondition(PodReady, true, ReasonPodReady, now);
        case ToPending =>
          phase := Pending;
          reason := InQueue;
        case ToInvalid =>
          phase := Failed;
          reason := PodFailure;
      }
    }
  }
}
