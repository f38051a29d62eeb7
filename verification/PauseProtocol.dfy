/** The joint run of a pod: the pause process executes its containers and writes control files, while
    the kubelet looks at those files whenever it likes and handles system-error events. */
module PauseProtocol {
  import opened Wrappers
  import opened Conditions
  import opened ContainerStatus
  import opened PodStatus
  import opened PodLifecycle

  // ---------------------------------------------------------------- one container, as executed

  /** The code recorded when a container could not be run, or died without an exit code. */
  const FALLBACK_CODE := 128

  /** What the wait for a process reports: its exit status, or -1 if a signal ended it. */
  type WaitStatus = status: int | -1 <= status < 256

  /** What befalls one container: which of the steps before the wait fail, the identifier and the status
      of its process if there is one, and whether its exit code can be written, on whichever path. */
  datatype Fate = Fate(
    setupFails: bool,
    startFails: bool,
    jobId: string,
    jobIdFails: bool,
    status: WaitStatus,
    exitFails: bool)
  {
    /** The process is waited for. */
    predicate Ran() {
      !setupFails && !startFails && !jobIdFails
    }

    function Code(): int {
      if Ran() && status >= 0 then status else FALLBACK_CODE
    }

    predicate Well() {
      Ran() && status == 0 && !exitFails
    }
  }

  function WithExit(f: ControlFiles, n: Name, code: int, fails: bool): ControlFiles {
    if fails then f else f.(exitCodes := f.exitCodes[n := code])
  }

  function WithJob(f: ControlFiles, n: Name, id: string, fails: bool): ControlFiles {
    if fails then f else f.(jobIds := f.jobIds[n := id])
  }

  function Executed(f: ControlFiles, n: Name, fate: Fate): ControlFiles {
    WithExit(WithJob(f, n, fate.jobId, !fate.Ran()), n, fate.Code(), fate.exitFails)
  }

  function ExecutedInTurn(f: ControlFiles, names: seq<Name>, fates: seq<Fate>): ControlFiles
    requires |names| == |fates|
  {
    if names == [] then f
    else
      var k := |names| - 1;
      Executed(ExecutedInTurn(f, names[..k], fates[..k]), names[k], fates[k])
  }

  /** Containers that went well leave their identifiers and zeros. */
  lemma {:induction false} WellInTurn(f: ControlFiles, names: seq<Name>, fates: seq<Fate>, i: nat)
    requires i < |names| == |fates| && fates[i].Well()
    requires forall k | i < k < |names| :: names[i] != names[k]
    ensures var g, n := ExecutedInTurn(f, names, fates), names[i];
            n in g.jobIds && g.jobIds[n] == fates[i].jobId && n in g.exitCodes && g.exitCodes[n] == 0
  {
    var last := |names| - 1;
    if i < last {
      WellInTurn(f, names[..last], fates[..last], i);
      assert names[..last][i] == names[i] && fates[..last][i] == fates[i];
    }
  }

  /** Names whose turn does not come keep what they had. */
  lemma {:induction false} OthersInTurn(f: ControlFiles, names: seq<Name>, fates: seq<Fate>, n: Name)
    requires |names| == |fates| && n !in names
    ensures var g := ExecutedInTurn(f, names, fates); SameFor(f, g, n) && g.ip == f.ip && g.sysError == f.sysError
  {
    if names != [] {
      var last := |names| - 1;
      assert names[last] in names;
      OthersInTurn(f, names[..last], fates[..last], n);
    }
  }

  predicate SameFor(f: ControlFiles, g: ControlFiles, n: Name) {
    && (if n in f.jobIds then n in g.jobIds && g.jobIds[n] == f.jobIds[n] else n !in g.jobIds)
    && (if n in f.exitCodes then n in g.exitCodes && g.exitCodes[n] == f.exitCodes[n] else n !in g.exitCodes)
  }

  class ControlDir {
    var files: ControlFiles

    constructor (f: ControlFiles)
      ensures files == f
    {
      files := f;
    }

    method WriteExitCode(n: Name, code: int, fails: bool) returns (ok: bool)
      modifies this
      ensures ok == !fails && files == WithExit(old(files), n, code, fails)
    {
      ok := !fails;
      if ok {
        files := files.(exitCodes := files.exitCodes[n := code]);
      }
    }

    method WriteJobId(n: Name, id: string, fails: bool) returns (ok: bool)
      modifies this
      ensures ok == !fails && files == WithJob(old(files), n, id, fails)
    {
      ok := !fails;
      if ok {
        files := files.(jobIds := files.jobIds[n := id]);
      }
    }

    /** Runs one container to its end.  The code recorded is the status of the process if it was waited
        for and ended by itself, and the fallback code on every other path; there is no error exactly
        when no step failed and the status is zero. */
    method ExecuteContainer(n: Name, fate: Fate) returns (err: bool)
      modifies this
      ensures var ran := !fate.setupFails && !fate.startFails && !fate.jobIdFails;
              && files.ip == old(files).ip && files.sysError == old(files).sysError
              && files.jobIds == (if ran then old(files).jobIds[n := fate.jobId] else old(files).jobIds)
              && files.exitCodes ==
                   (if fate.exitFails then old(files).exitCodes
                    else old(files).exitCodes[n := if ran && fate.status >= 0 then fate.status else 128])
              && (err <==> !ran || fate.exitFails || fate.status != 0)
      ensures files == Executed(old(files), n, fate) && (err <==> !fate.Well())
    {
      if fate.setupFails || fate.startFails {
        var _ := WriteExitCode(n, FALLBACK_CODE, fate.exitFails);
        return true;
      }
      var ok := WriteJobId(n, fate.jobId, fate.jobIdFails);
      if !ok {
        var _ := WriteExitCode(n, FALLBACK_CODE, fate.exitFails);
        return true;
      }
      var exitCode := FALLBACK_CODE;
      if fate.status >= 0 {
        exitCode := fate.status;
      }
      ok := WriteExitCode(n, exitCode, fate.exitFails);
      err := !ok || fate.status != 0;
    }

    /** Init containers run in order, and the first one with an error stops them all: those before it
        are recorded with their identifiers and zero, and nothing is written for those after it. */
    method HandleInitContainers(names: seq<Name>, fates: seq<Fate>) returns (err: bool, ghost turns: nat)
      requires |names| == |fates|
      requires forall i, j | 0 <= i < j < |names| :: names[i] != names[j]
      modifies this
      ensures turns <= |names| && files == ExecutedInTurn(old(files), names[..turns], fates[..turns])
      ensures if err then 0 < turns && !fates[turns - 1].Well() else turns == |names|
      ensures forall i | 0 <= i < (if err then turns - 1 else turns) :: fates[i].Well()
      ensures Left(old(files), files, names[..turns], fates[..turns], if err then turns - 1 else turns)
    {
      turns := 0;
      var i := 0;
      while i < |names|
        invariant turns == i <= |names|
        invariant files == ExecutedInTurn(old(files), names[..i], fates[..i])
        invariant forall k | 0 <= k < i :: fates[k].Well()
      {
        err := ExecuteContainer(names[i], fates[i]);
        turns := i + 1;
        assert names[..turns][..i] == names[..i] && fates[..turns][..i] == fates[..i];
        if err {
          InTurn(old(files), names[..turns], fates[..turns], i);
          return;
        }
        i := i + 1;
      }
      InTurn(old(files), names[..i], fates[..i], i);
      err := false;
    }
  }

  /** The first `well` containers left their identifiers and zeros, and no name that is not listed has
      changed. */
  ghost predicate Left(f: ControlFiles, g: ControlFiles, names: seq<Name>, fates: seq<Fate>, well: nat)
    requires well <= |names| == |fates|
  {
    && (forall i | 0 <= i < well ::
          && names[i] in g.jobIds && g.jobIds[names[i]] == fates[i].jobId
          && names[i] in g.exitCodes && g.exitCodes[names[i]] == 0)
    && (forall n | n !in names :: SameFor(f, g, n))
  }

  lemma InTurn(f: ControlFiles, names: seq<Name>, fates: seq<Fate>, well: nat)
    requires well <= |names| == |fates| && forall i, j | 0 <= i < j < |names| :: names[i] != names[j]
    requires forall i | 0 <= i < well :: fates[i].Well()
    ensures Left(f, ExecutedInTurn(f, names, fates), names, fates, well)
  {
    var g := ExecutedInTurn(f, names, fates);
    forall i | 0 <= i < well
      ensures && names[i] in g.jobIds && g.jobIds[names[i]] == fates[i].jobId
              && names[i] in g.exitCodes && g.exitCodes[names[i]] == 0
    {
      WellInTurn(f, names, fates, i);
    }
    forall n | n !in names ensures SameFor(f, g, n) {
      OthersInTurn(f, names, fates, n);
    }
  }

  // ---------------------------------------------------------------- the joint system

  /** The containers of the pod, init containers first. */
  datatype Config = Config(names: seq<Name>, inits: nat, spec: Spec)

  datatype Proc = Idle | Spawned | Ended(code: int)
  datatype Stage = Preparing | RunningInits | RunningMains | Stopped

  /** `lost` records that some control-file write failed; `seen` is what the last observation read, whether
      or not it had to be saved. */
  datatype System = System(
    pod: Pod,
    files: ControlFiles,
    stage: Stage,
    procs: seq<Proc>,
    lost: bool,
    seen: Option<ControlFiles>,
    sysSeen: bool)

  datatype Action =
    | PrepareOk(ip: Option<string>)
    | PrepareFails(ip: Option<string>, sysWritten: bool)
    | Refuse(c: nat, written: bool, sysWritten: bool)
    | Spawn(c: nat, id: string)
    | Exit(c: nat, code: int, written: bool, sysWritten: bool)
    | InitsDone
    | HostFails(pauseDies: bool, written: bool)
    | Look(now: Time)
    | Glance(now: Time)
    | SysErrorEvent(now: Time)

  ghost predicate ValidConfig(cfg: Config) {
    && cfg.inits < |cfg.names| && cfg.spec.totalJobs == |cfg.names| - cfg.inits
    && forall i, j | 0 <= i < j < |cfg.names| :: cfg.names[i] != cfg.names[j]
  }

  /** A container may be acted upon: in its turn if it is an init container, at any time otherwise. */
  predicate Due(cfg: Config, s: System, c: nat) {
    && c < |s.procs| && c < |cfg.names|
    && if c < cfg.inits then s.stage.RunningInits? && forall d | 0 <= d < c :: s.procs[d] == Ended(0)
       else s.stage.RunningMains?
  }

  predicate Enabled(cfg: Config, s: System, a: Action) {
    match a
      case PrepareOk(_) => s.stage.Preparing?
      case PrepareFails(_, _) => s.stage.Preparing?
      case Refuse(c, _, _) => Due(cfg, s, c) && s.procs[c].Idle?
      case Spawn(c, _) => Due(cfg, s, c) && s.procs[c].Idle?
      case Exit(c, code, _, _) => Due(cfg, s, c) && s.procs[c].Spawned? && 0 <= code < 256
      case InitsDone =>
        s.stage.RunningInits? && cfg.inits <= |s.procs| && forall d | 0 <= d < cfg.inits :: s.procs[d] == Ended(0)
      case HostFails(_, _) => true
      case Look(_) => true
      case Glance(now) => !Changed(s.pod, Observe(s.pod, cfg.spec, s.files, now))
      case SysErrorEvent(_) => s.files.sysError
  }

  /** A container has ended; if it is an init container and did not end well, the pause process writes
      the system-error file and stops. */
  function End(cfg: Config, s: System, c: nat, code: int, written: bool, sysWritten: bool): System
    requires c < |s.procs| && c < |cfg.names|
  {
    var stops := c < cfg.inits && (code != 0 || !written);
    var f := if written then s.files.(exitCodes := s.files.exitCodes[cfg.names[c] := code]) else s.files;
    s.(procs := s.procs[c := Ended(code)],
       files := if stops && sysWritten then f.(sysError := true) else f,
       stage := if stops then Stopped else s.stage,
       lost := s.lost || !written || (stops && !sysWritten))
  }

  /** The script on the host saw hpk-pause end with an error, which may happen at any time, and writes
      the system-error file itself; containers that have been started may or may not go on. */
  function HostFailure(s: System, pauseDies: bool, written: bool): System {
    s.(files := s.files.(sysError := s.files.sysError || written),
       stage := if pauseDies then Stopped else s.stage,
       lost := s.lost || !written)
  }

  function Next(cfg: Config, s: System, a: Action): System
    requires Enabled(cfg, s, a)
  {
    match a
      case PrepareOk(ip) => s.(stage := RunningInits, files := s.files.(ip := ip))
      case PrepareFails(ip, w) => HostFailure(s.(files := s.files.(ip := ip)), true, w)
      case Refuse(c, w, sw) => End(cfg, s, c, FALLBACK_CODE, w, sw)
      case Spawn(c, id) =>
        s.(procs := s.procs[c := Spawned], files := s.files.(jobIds := s.files.jobIds[cfg.names[c] := id]))
      case Exit(c, code, w, sw) => End(cfg, s, c, code, w, sw)
      case InitsDone => s.(stage := RunningMains)
      case HostFails(dies, w) => HostFailure(s, dies, w)
      case Look(now) => s.(pod := Observe(s.pod, cfg.spec, s.files, now), seen := Some(s.files))
      case Glance(_) => s.(seen := Some(s.files))
      case SysErrorEvent(now) => s.(pod := PodError(s.pod, SysErr, now), sysSeen := true)
  }

  /** The steps a container takes in the joint run leave the files that executing it alone leaves,
      but for the system-error file: it is refused if it is not waited for, and otherwise started and
      ended with the code recorded for it. */
  lemma StepsMatchExecution(cfg: Config, s: System, c: nat, fate: Fate, sw: bool)
    requires Enabled(cfg, s, Spawn(c, fate.jobId))
    ensures var alone := Executed(s.files, cfg.names[c], fate);
            if fate.setupFails || fate.startFails || fate.jobIdFails then
              Next(cfg, s, Refuse(c, !fate.exitFails, sw)).files.(sysError := s.files.sysError) == alone
            else
              var spawned := Next(cfg, s, Spawn(c, fate.jobId));
              var exit := Exit(c, if fate.status >= 0 then fate.status else 128, !fate.exitFails, sw);
              && Enabled(cfg, spawned, exit)
              && Next(cfg, spawned, exit).files.(sysError := s.files.sysError) == alone
  {
    var spawned := Next(cfg, s, Spawn(c, fate.jobId));
    assert c < cfg.inits ==> forall d | 0 <= d < c :: spawned.procs[d] == s.procs[d];
  }

  ghost predicate Start(cfg: Config, s: System)
    requires ValidConfig(cfg)
  {
    && FreshPod(s.pod, cfg.spec)
    && NameList(s.pod.inits) == cfg.names[..cfg.inits] && NameList(s.pod.mains) == cfg.names[cfg.inits..]
    && s.files == NO_FILES && s.stage.Preparing? && !s.lost && s.seen.None? && !s.sysSeen
    && |s.procs| == |cfg.names| && forall c | 0 <= c < |s.procs| :: s.procs[c].Idle?
  }

  ghost predicate Run(cfg: Config, states: seq<System>, actions: seq<Action>) {
    && ValidConfig(cfg) && |states| == |actions| + 1 && Start(cfg, states[0])
    && forall i | 0 <= i < |actions| ::
         Enabled(cfg, states[i], actions[i]) && states[i + 1] == Next(cfg, states[i], actions[i])
  }

  // ---------------------------------------------------------------- the invariant

  ghost predicate Coherent(p: Proc, n: Name, f: ControlFiles, lost: bool) {
    match p
      case Idle => n !in f.exitCodes && n !in f.jobIds
      case Spawned => n !in f.exitCodes && n in f.jobIds
      case Ended(code) =>
        && 0 <= code < 256
        && (n in f.exitCodes ==> f.exitCodes[n] == code)
        && (n !in f.exitCodes ==> lost)
  }

  ghost predicate ProcsOk(cfg: Config, s: System) {
    && |s.procs| == |cfg.names|
    && forall c | 0 <= c < |s.procs| :: Coherent(s.procs[c], cfg.names[c], s.files, s.lost)
  }

  /** Every init container has ended with zero and is recorded. */
  ghost predicate InitsPassed(cfg: Config, s: System)
    requires ValidConfig(cfg) && |s.procs| == |cfg.names|
  {
    forall c | 0 <= c < cfg.inits :: s.procs[c] == Ended(0) && cfg.names[c] in s.files.exitCodes
  }

  ghost predicate StageOk(cfg: Config, s: System)
    requires ValidConfig(cfg)
  {
    && |s.procs| == |cfg.names|
    && (s.stage.Stopped? && !s.lost ==> s.files.sysError)
    && (s.stage.Preparing? ==> s.files.ip.None? && forall c | 0 <= c < |s.procs| :: s.procs[c].Idle?)
    && (s.stage.RunningInits? ==>
          forall c | 0 <= c < cfg.inits && s.procs[c].Ended? ::
            s.procs[c] == Ended(0) && cfg.names[c] in s.files.exitCodes)
    && (s.stage.RunningMains? ==> InitsPassed(cfg, s))
    && (InitsPassed(cfg, s) || forall c | cfg.inits <= c < |s.procs| :: s.procs[c].Idle?)
  }

  /** `refused` is whether the pod uses unsupported features, which fails it on sight. */
  ghost predicate PodOk(cfg: Config, s: System, refused: bool)
    requires ValidConfig(cfg)
  {
    && NameList(s.pod.inits) == cfg.names[..cfg.inits] && NameList(s.pod.mains) == cfg.names[cfg.inits..]
    && (s.sysSeen ==> s.pod.phase.Failed? && s.files.sysError
                      && UniqueKinds(s.pod.conditions) && HasStatus(s.pod.conditions, PodReady, false))
    && (s.seen.Some? ==> Extends(s.seen.value, s.files))
    && (!s.sysSeen && s.seen.None? ==>
          FreshPod(s.pod, cfg.spec) && refused == (s.pod.phase.Unset? && cfg.spec.unsupported))
    && (!s.sysSeen && s.seen.Some? ==> Tracks(s.pod, cfg.spec, refused, s.seen.value))
  }

  ghost predicate Inv(cfg: Config, s: System, refused: bool) {
    ValidConfig(cfg) && ProcsOk(cfg, s) && StageOk(cfg, s) && PodOk(cfg, s, refused)
  }

  lemma StartInv(cfg: Config, s: System)
    requires ValidConfig(cfg) && Start(cfg, s)
    ensures Inv(cfg, s, s.pod.phase.Unset? && cfg.spec.unsupported)
  {
  }

  lemma EndInv(cfg: Config, s: System, refused: bool, c: nat, code: int, written: bool, sysWritten: bool)
    requires Inv(cfg, s, refused) && Due(cfg, s, c) && !s.procs[c].Ended? && 0 <= code < 256
    ensures Inv(cfg, End(cfg, s, c, code, written, sysWritten), refused)
    ensures Extends(s.files, End(cfg, s, c, code, written, sysWritten).files)
  {
    var t := End(cfg, s, c, code, written, sysWritten);
    assert Coherent(s.procs[c], cfg.names[c], s.files, s.lost);
    assert Extends(s.files, t.files);
    forall d | 0 <= d < |t.procs| ensures Coherent(t.procs[d], cfg.names[d], t.files, t.lost) {
      assert Coherent(s.procs[d], cfg.names[d], s.files, s.lost);
      assert d != c ==> cfg.names[d] != cfg.names[c];
    }
    PodFrame(cfg, s, t, refused);
  }

  /** The pause process never touches the pod as the kubelet stores it. */
  lemma PodFrame(cfg: Config, s: System, t: System, refused: bool)
    requires ValidConfig(cfg) && PodOk(cfg, s, refused) && t.pod == s.pod && t.seen == s.seen && t.sysSeen == s.sysSeen
    requires Extends(s.files, t.files)
    ensures PodOk(cfg, t, refused)
  {
  }

  lemma SpawnInv(cfg: Config, s: System, refused: bool, c: nat, id: string)
    requires Inv(cfg, s, refused) && Enabled(cfg, s, Spawn(c, id))
    ensures Inv(cfg, Next(cfg, s, Spawn(c, id)), refused)
  {
    var t := Next(cfg, s, Spawn(c, id));
    SpawnProcs(cfg, s, refused, c, id);
    PodFrame(cfg, s, t, refused);
  }

  lemma SpawnProcs(cfg: Config, s: System, refused: bool, c: nat, id: string)
    requires Inv(cfg, s, refused) && Enabled(cfg, s, Spawn(c, id))
    ensures var t := Next(cfg, s, Spawn(c, id)); ProcsOk(cfg, t) && Extends(s.files, t.files)
  {
    var t := Next(cfg, s, Spawn(c, id));
    assert Coherent(s.procs[c], cfg.names[c], s.files, s.lost);
    forall d | 0 <= d < |t.procs| ensures Coherent(t.procs[d], cfg.names[d], t.files, t.lost) {
      assert Coherent(s.procs[d], cfg.names[d], s.files, s.lost);
      assert d != c ==> cfg.names[d] != cfg.names[c];
    }
  }

  lemma PrepareInv(cfg: Config, s: System, refused: bool, a: Action)
    requires Inv(cfg, s, refused) && Enabled(cfg, s, a)
    requires a.PrepareOk? || a.PrepareFails? || a.InitsDone? || a.HostFails?
    ensures Inv(cfg, Next(cfg, s, a), refused)
  {
    var t := Next(cfg, s, a);
    forall d | 0 <= d < |t.procs| ensures Coherent(t.procs[d], cfg.names[d], t.files, t.lost) {
      assert Coherent(s.procs[d], cfg.names[d], s.files, s.lost);
    }
    PodFrame(cfg, s, t, refused);
  }

  /** An observation puts the pod on the verdict of the files. */
  lemma LookTracks(cfg: Config, s: System, refused: bool, now: Time)
    requires ValidConfig(cfg) && PodOk(cfg, s, refused) && !s.sysSeen
    ensures Tracks(Observe(s.pod, cfg.spec, s.files, now), cfg.spec, refused, s.files)
  {
    if s.seen.Some? {
      ObserveTracks(s.pod, cfg.spec, refused, s.seen.value, s.files, now);
    } else {
      ObserveWaiting(s.pod, cfg.spec, s.files, now);
    }
  }

  lemma LookInv(cfg: Config, s: System, refused: bool, now: Time)
    requires Inv(cfg, s, refused)
    ensures Inv(cfg, Next(cfg, s, Look(now)), refused)
  {
    ObserveNames(s.pod, cfg.spec, s.files, now);
    if !s.sysSeen {
      LookTracks(cfg, s, refused, now);
    }
    OnlyPod(cfg, s, Next(cfg, s, Look(now)), refused);
  }

  lemma OnlyPod(cfg: Config, s: System, t: System, refused: bool)
    requires Inv(cfg, s, refused) && PodOk(cfg, t, refused)
    requires t.files == s.files && t.stage == s.stage && t.procs == s.procs && t.lost == s.lost
    ensures Inv(cfg, t, refused)
  {
  }

  /** A look that finds nothing to save leaves the stored pod as good as one that saves. */
  lemma GlanceInv(cfg: Config, s: System, refused: bool, now: Time)
    requires Inv(cfg, s, refused) && Enabled(cfg, s, Glance(now))
    ensures Inv(cfg, Next(cfg, s, Glance(now)), refused)
  {
    var t := Next(cfg, s, Glance(now));
    if !s.sysSeen {
      LookTracks(cfg, s, refused, now);
      ReadyAsStored(cfg, s, refused);
      UnchangedTracks(s.pod, Observe(s.pod, cfg.spec, s.files, now), cfg.spec, refused, s.files);
    }
    GlancePod(cfg, s, t, refused);
    OnlyPod(cfg, s, t, refused);
  }

  lemma ReadyAsStored(cfg: Config, s: System, refused: bool)
    requires ValidConfig(cfg) && PodOk(cfg, s, refused) && !s.sysSeen
    ensures UniqueKinds(s.pod.conditions) && (HasStatus(s.pod.conditions, PodReady, true) <==> s.pod.phase.Running?)
  {
  }

  lemma GlancePod(cfg: Config, s: System, t: System, refused: bool)
    requires ValidConfig(cfg) && PodOk(cfg, s, refused) && t == s.(seen := Some(s.files))
    requires !s.sysSeen ==> Tracks(s.pod, cfg.spec, refused, s.files)
    ensures PodOk(cfg, t, refused)
  {
  }

  lemma UnchangedTracks(p: Pod, q: Pod, spec: Spec, refused: bool, f: ControlFiles)
    requires Tracks(q, spec, refused, f) && !Changed(p, q) && UniqueKinds(p.conditions)
    requires HasStatus(p.conditions, PodReady, true) <==> p.phase.Running?
    ensures Tracks(p, spec, refused, f)
  {
  }

  lemma NextInv(cfg: Config, s: System, refused: bool, a: Action)
    requires Inv(cfg, s, refused) && Enabled(cfg, s, a)
    ensures Inv(cfg, Next(cfg, s, a), refused)
  {
    match a {
      case Refuse(c, w, sw) => EndInv(cfg, s, refused, c, FALLBACK_CODE, w, sw);
      case Exit(c, code, w, sw) => EndInv(cfg, s, refused, c, code, w, sw);
      case Spawn(c, id) => SpawnInv(cfg, s, refused, c, id);
      case Look(now) => LookInv(cfg, s, refused, now);
      case Glance(now) => GlanceInv(cfg, s, refused, now);
      case SysErrorEvent(now) => ErrorConditions(s.pod, SysErr, now);
      case _ => PrepareInv(cfg, s, refused, a);
    }
  }

  lemma {:induction false} RunInv(cfg: Config, states: seq<System>, actions: seq<Action>, n: nat)
    requires Run(cfg, states, actions) && n <= |actions|
    ensures Inv(cfg, states[n], states[0].pod.phase.Unset? && cfg.spec.unsupported)
  {
    if n == 0 {
      StartInv(cfg, states[0]);
    } else {
      RunInv(cfg, states, actions, n - 1);
      NextInv(cfg, states[n - 1], states[0].pod.phase.Unset? && cfg.spec.unsupported, actions[n - 1]);
    }
  }

  // ---------------------------------------------------------------- main results

  /** The pause process has nothing more to execute. */
  ghost predicate Finished(s: System) {
    s.stage.Stopped? || (s.stage.RunningMains? && forall c | 0 <= c < |s.procs| :: s.procs[c].Ended?)
  }

  /** The kubelet has looked at the files as they are, and handled the system-error event if there is one. */
  ghost predicate CaughtUp(s: System) {
    s.seen == Some(s.files) && (s.files.sysError ==> s.sysSeen)
  }

  ghost predicate AllZero(s: System) {
    forall c | 0 <= c < |s.procs| :: s.procs[c] == Ended(0)
  }

  lemma InitsRecorded(cfg: Config, s: System, refused: bool)
    requires Inv(cfg, s, refused) && InitsPassed(cfg, s)
    ensures forall d | 0 <= d < cfg.inits :: ExitedZero(cfg.names[d], s.files)
    ensures InitsVerdict(ClassesIn(cfg.names[..cfg.inits], s.files)).InitDone?
  {
    var ics := ClassesIn(cfg.names[..cfg.inits], s.files);
    forall d | 0 <= d < cfg.inits ensures ExitedZero(cfg.names[d], s.files) {
      assert Coherent(s.procs[d], cfg.names[d], s.files, s.lost);
    }
    assert forall i | 0 <= i < |ics| :: ics[i] == ClassIn(cfg.names[i], s.files);
    InitsVerdictDone(ics);
  }

  lemma MainsRecorded(cfg: Config, s: System, refused: bool)
    requires Inv(cfg, s, refused) && s.stage.RunningMains? && !s.lost
    requires forall c | 0 <= c < |s.procs| :: s.procs[c].Ended?
    ensures MainPhase(ClassesIn(cfg.names[cfg.inits..], s.files)) == if AllZero(s) then Succeeded else Failed
  {
    var mcs := ClassesIn(cfg.names[cfg.inits..], s.files);
    forall i | 0 <= i < |mcs|
      ensures mcs[i] == if s.procs[cfg.inits + i] == Ended(0) then SuccessfulJob else FailedJob
    {
      assert Coherent(s.procs[cfg.inits + i], cfg.names[cfg.inits + i], s.files, s.lost);
    }
    if !AllZero(s) {
      var c :| 0 <= c < |s.procs| && s.procs[c] != Ended(0);
      assert c >= cfg.inits && mcs[c - cfg.inits] == FailedJob;
    }
  }

  /** Confluence of the joint run.  Whatever the interleaving of container steps, failures of the host
      script, observations and system-error events, once nothing more is executed and the kubelet has
      caught up, the pod is Succeeded if every init and main container exited with zero and no system
      error was written, and Failed otherwise. */
  lemma JointOutcome(cfg: Config, states: seq<System>, actions: seq<Action>, n: nat)
    requires Run(cfg, states, actions) && n <= |actions|
    requires var s := states[n]; Finished(s) && CaughtUp(s) && !s.lost
    ensures var s, refused := states[n], states[0].pod.phase.Unset? && cfg.spec.unsupported;
            s.pod.phase == if !refused && AllZero(s) && !s.files.sysError then Succeeded else Failed
  {
    var s, refused := states[n], states[0].pod.phase.Unset? && cfg.spec.unsupported;
    RunInv(cfg, states, actions, n);
    if !s.files.sysError {
      InitsRecorded(cfg, s, refused);
      MainsRecorded(cfg, s, refused);
    }
  }

  /** Some main container's exit code is not on the disk, and those that are there are zero. */
  ghost predicate Unrecorded(cfg: Config, f: ControlFiles) {
    && (exists c :: cfg.inits <= c < |cfg.names| && cfg.names[c] !in f.exitCodes)
    && (forall c :: cfg.inits <= c < |cfg.names| && cfg.names[c] in f.exitCodes ==>
          ToInt32(f.exitCodes[cfg.names[c]]) == 0)
  }

  /** With writes lost, the phase is still the verdict of the files that made it to the disk, unless a
      system error was handled.  The pod waits, for ever if no file is added, exactly if no system error
      was handled, it was not refused, and the init containers are not through or the exit code of some
      main container was never recorded while those recorded are zero. */
  lemma JointOutcomeWithLosses(cfg: Config, states: seq<System>, actions: seq<Action>, n: nat)
    requires Run(cfg, states, actions) && n <= |actions| && states[n].seen == Some(states[n].files)
    ensures var s, refused := states[n], states[0].pod.phase.Unset? && cfg.spec.unsupported;
            var inits := InitsVerdict(ClassesIn(cfg.names[..cfg.inits], s.files));
            && Norm(s.pod.phase) == (if s.sysSeen then Failed
                                     else Verdict(refused, cfg.names[..cfg.inits], cfg.names[cfg.inits..], s.files))
            && (!Terminal(s.pod.phase) <==>
                  !s.sysSeen && !refused && (inits.StillInitializing? || (inits.InitDone? && Unrecorded(cfg, s.files))))
            && (s.stage.RunningMains? ==> inits.InitDone?)
  {
    var s, refused := states[n], states[0].pod.phase.Unset? && cfg.spec.unsupported;
    RunInv(cfg, states, actions, n);
    UnrecordedWaits(cfg, s.files);
    if s.stage.RunningMains? {
      InitsRecorded(cfg, s, refused);
    }
  }

  /** The main containers leave a pod waiting exactly if an exit code is missing and none there is a
      failure. */
  lemma UnrecordedWaits(cfg: Config, f: ControlFiles)
    requires ValidConfig(cfg)
    ensures !Terminal(MainPhase(ClassesIn(cfg.names[cfg.inits..], f))) <==> Unrecorded(cfg, f)
  {
    var mcs := ClassesIn(cfg.names[cfg.inits..], f);
    forall c | cfg.inits <= c < |cfg.names| ensures mcs[c - cfg.inits] == ClassIn(cfg.names[c], f) {
    }
    if FailedJob in mcs {
      var i :| 0 <= i < |mcs| && mcs[i] == FailedJob;
      assert ToInt32(f.exitCodes[cfg.names[cfg.inits + i]]) != 0;
    } else if forall i | 0 <= i < |mcs| :: mcs[i].SuccessfulJob? {
      forall c | cfg.inits <= c < |cfg.names| ensures cfg.names[c] in f.exitCodes {
        assert mcs[c - cfg.inits].SuccessfulJob?;
      }
    } else {
      var i :| 0 <= i < |mcs| && !mcs[i].SuccessfulJob?;
      assert cfg.names[cfg.inits + i] !in f.exitCodes;
      forall c | cfg.inits <= c < |cfg.names| && cfg.names[c] in f.exitCodes
        ensures ToInt32(f.exitCodes[cfg.names[c]]) == 0
      {
        assert !mcs[c - cfg.inits].FailedJob?;
      }
    }
  }

  /** A system-error event was handled between the two states. */
  ghost predicate SysErrorBetween(actions: seq<Action>, m: nat, n: nat) {
    exists k :: m <= k < n && k < |actions| && actions[k].SysErrorEvent?
  }

  /** A terminal phase is left by system-error events only, which do not look at the phase: the first
      one turns it into Failed, and nothing else moves it. */
  lemma {:induction false} TerminalPhases(cfg: Config, states: seq<System>, actions: seq<Action>, m: nat, n: nat)
    requires Run(cfg, states, actions) && m <= n <= |actions| && Terminal(states[m].pod.phase)
    ensures states[n].pod.phase == if SysErrorBetween(actions, m, n) then Failed else states[m].pod.phase
    decreases n
  {
    if m < n {
      TerminalPhases(cfg, states, actions, m, n - 1);
      assert SysErrorBetween(actions, m, n) <==> SysErrorBetween(actions, m, n - 1) || actions[n - 1].SysErrorEvent?;
      assert states[n] == Next(cfg, states[n - 1], actions[n - 1]);
    }
  }

  lemma RunExtends(cfg: Config, states: seq<System>, actions: seq<Action>, a: Action)
    requires Run(cfg, states, actions) && Enabled(cfg, states[|actions|], a)
    ensures Run(cfg, states + [Next(cfg, states[|actions|], a)], actions + [a])
  {
    var states', actions' := states + [Next(cfg, states[|actions|], a)], actions + [a];
    assert states'[0] == states[0];
    forall i | 0 <= i < |actions'|
      ensures Enabled(cfg, states'[i], actions'[i]) && states'[i + 1] == Next(cfg, states'[i], actions'[i])
    {
      assert states'[i] == states[i];
    }
  }

  /** Succeeded is not final: any run that has reached it goes on, by a failure of the host script and
      its event, to one in which the pod is Failed. */
  lemma SuccessUndone(cfg: Config, states: seq<System>, actions: seq<Action>, now: Time)
      returns (states': seq<System>, actions': seq<Action>)
    requires Run(cfg, states, actions) && states[|actions|].pod.phase.Succeeded?
    ensures actions' == actions + [HostFails(true, true), SysErrorEvent(now)]
    ensures Run(cfg, states', actions') && states <= states' && states'[|actions'|].pod.phase.Failed?
  {
    var s := states[|actions|];
    var t := Next(cfg, s, HostFails(true, true));
    RunExtends(cfg, states, actions, HostFails(true, true));
    var failed := states + [t];
    assert failed[|actions| + 1] == t;
    RunExtends(cfg, failed, actions + [HostFails(true, true)], SysErrorEvent(now));
    states' := failed + [Next(cfg, t, SysErrorEvent(now))];
    actions' := actions + [HostFails(true, true)] + [SysErrorEvent(now)];
  }

  /** The run in which a single main container exits with zero and is seen to. */
  const ONE_SUCCESS := [PrepareOk(None), InitsDone, Spawn(0, "1"), Exit(0, 0, true, true), Look(1)]

  ghost predicate OnTheWay(s: System, k: nat) {
    && s.stage == (if k == 0 then Preparing else if k == 1 then RunningInits else RunningMains)
    && s.procs == [if k <= 2 then Idle else if k == 3 then Spawned else Ended(0)]
    && !s.lost && !s.files.sysError && (k == 5 ==> s.seen == Some(s.files))
  }

  lemma SuccessReached(cfg: Config, s: System) returns (states: seq<System>)
    requires ValidConfig(cfg) && Start(cfg, s) && |cfg.names| == 1
    requires !(s.pod.phase.Unset? && cfg.spec.unsupported)
    ensures Run(cfg, states, ONE_SUCCESS) && states[0] == s && states[|ONE_SUCCESS|].pod.phase.Succeeded?
  {
    states := [s];
    var k := 0;
    assert ONE_SUCCESS[..0] == [];
    while k < |ONE_SUCCESS|
      invariant k <= |ONE_SUCCESS| && Run(cfg, states, ONE_SUCCESS[..k]) && states[0] == s
      invariant OnTheWay(states[k], k)
    {
      var a := ONE_SUCCESS[k];
      assert Enabled(cfg, states[k], a);
      RunExtends(cfg, states, ONE_SUCCESS[..k], a);
      assert ONE_SUCCESS[..k + 1] == ONE_SUCCESS[..k] + [a];
      states := states + [Next(cfg, states[k], a)];
      k := k + 1;
    }
    assert ONE_SUCCESS[..k] == ONE_SUCCESS;
    JointOutcome(cfg, states, ONE_SUCCESS, k);
  }

  /** The first state a system-error event is handled in, or `n` if there is none before. */
  function FirstSysError(actions: seq<Action>, n: nat): (k: nat)
    requires n <= |actions|
    ensures k <= n && !SysErrorBetween(actions, 0, k) && (k < n ==> actions[k].SysErrorEvent?)
  {
    if n == 0 then 0
    else
      var k := FirstSysError(actions, n - 1);
      if k < n - 1 || actions[n - 1].SysErrorEvent? then k else n
  }

  /** Whether the containers are recorded as ready. */
  predicate Ready(p: Pod) {
    HasStatus(p.conditions, ContainersReady, true)
  }

  /** How one step moves that record: it follows the phase until the first system error, and then stays. */
  predicate ReadyMoves(p: Pod, q: Pod, failed: bool) {
    if failed then Ready(q) <==> Ready(p) else (Ready(p) <==> p.phase.Running?) ==> (Ready(q) <==> q.phase.Running?)
  }

  /** ContainersReady does not follow the phase through a system error.  It is recorded true exactly if
      the pod was running when the first system error was handled, or, without one, is running now: a
      failed pod may have ready containers. */
  lemma ContainersReadyExactly(cfg: Config, states: seq<System>, actions: seq<Action>, n: nat)
    requires Run(cfg, states, actions) && n <= |actions| && !Ready(states[0].pod)
    ensures Ready(states[n].pod) <==> states[FirstSysError(actions, n)].pod.phase.Running?
  {
    var pods := seq(|states|, i requires 0 <= i < |states| => states[i].pod);
    forall i | 0 <= i < |actions| ensures ReadyMoves(pods[i], pods[i + 1], SysErrorBetween(actions, 0, i + 1)) {
      ReadyStep(cfg, states, actions, i);
    }
    FirstErrorDecides(actions, pods, n);
  }

  lemma {:induction false} FirstErrorDecides(actions: seq<Action>, pods: seq<Pod>, n: nat)
    requires n <= |actions| && |pods| == |actions| + 1 && !Ready(pods[0]) && !pods[0].phase.Running?
    requires forall i | 0 <= i < |actions| :: ReadyMoves(pods[i], pods[i + 1], SysErrorBetween(actions, 0, i + 1))
    ensures Ready(pods[n]) <==> pods[FirstSysError(actions, n)].phase.Running?
  {
    if n > 0 {
      FirstErrorDecides(actions, pods, n - 1);
      assert SysErrorBetween(actions, 0, n) <==> FirstSysError(actions, n) < n;
      assert ReadyMoves(pods[n - 1], pods[n - 1 + 1], SysErrorBetween(actions, 0, n));
    }
  }

  lemma {:induction false} SysSeenExactly(cfg: Config, states: seq<System>, actions: seq<Action>, n: nat)
    requires Run(cfg, states, actions) && n <= |actions|
    ensures states[n].sysSeen <==> SysErrorBetween(actions, 0, n)
  {
    if n > 0 {
      SysSeenExactly(cfg, states, actions, n - 1);
      assert SysErrorBetween(actions, 0, n) <==> SysErrorBetween(actions, 0, n - 1) || actions[n - 1].SysErrorEvent?;
      assert states[n] == Next(cfg, states[n - 1], actions[n - 1]);
    }
  }

  lemma ReadyStep(cfg: Config, states: seq<System>, actions: seq<Action>, n: nat)
    requires Run(cfg, states, actions) && n < |actions|
    ensures ReadyMoves(states[n].pod, states[n + 1].pod, SysErrorBetween(actions, 0, n + 1))
  {
    var s, a, refused := states[n], actions[n], states[0].pod.phase.Unset? && cfg.spec.unsupported;
    RunInv(cfg, states, actions, n);
    SysSeenExactly(cfg, states, actions, n);
    assert states[n + 1] == Next(cfg, s, a);
    assert SysErrorBetween(actions, 0, n + 1) <==> SysErrorBetween(actions, 0, n) || a.SysErrorEvent?;
    if s.sysSeen || a.SysErrorEvent? {
      SeenKeepsReady(cfg, s, refused, a);
    } else if Ready(s.pod) <==> s.pod.phase.Running? {
      UnseenReady(cfg, s, refused, a);
    }
  }

  lemma SeenKeepsReady(cfg: Config, s: System, refused: bool, a: Action)
    requires Inv(cfg, s, refused) && Enabled(cfg, s, a) && (s.sysSeen || a.SysErrorEvent?)
    ensures Ready(Next(cfg, s, a).pod) <==> Ready(s.pod)
  {
    if a.SysErrorEvent? {
      assert UniqueKinds(s.pod.conditions);
      ErrorConditions(s.pod, SysErr, a.now);
    }
  }

  lemma UnseenReady(cfg: Config, s: System, refused: bool, a: Action)
    requires Inv(cfg, s, refused) && Enabled(cfg, s, a) && !s.sysSeen && !a.SysErrorEvent?
    requires Ready(s.pod) <==> s.pod.phase.Running?
    ensures Ready(Next(cfg, s, a).pod) <==> Next(cfg, s, a).pod.phase.Running?
  {
    if a.Look? {
      if s.pod.phase.Running? {
        RunningStays(s.pod, cfg.spec, refused, s.seen.value, s.files);
      }
      ObserveReady(s.pod, cfg.spec, s.files, a.now, ContainersReady);
    }
  }

  /** No main container starts before every init container has exited with zero. */
  lemma MainsAfterInits(cfg: Config, states: seq<System>, actions: seq<Action>, n: nat, c: nat)
    requires Run(cfg, states, actions) && n <= |actions| && cfg.inits <= c < |cfg.names|
    requires cfg.names[c] in states[n].files.jobIds || cfg.names[c] in states[n].files.exitCodes
    ensures forall d | 0 <= d < cfg.inits :: ExitedZero(cfg.names[d], states[n].files)
  {
    RunInv(cfg, states, actions, n);
    var s := states[n];
    assert Coherent(s.procs[c], cfg.names[c], s.files, s.lost);
    InitsRecorded(cfg, s, states[0].pod.phase.Unset? && cfg.spec.unsupported);
  }
}
