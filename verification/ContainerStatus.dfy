/** Container statuses as they are derived from a pod's control files. */
module ContainerStatus {
  import opened Wrappers
  import opened Conditions

  type Name = string

  /** What is readable in the pod's control-file directory: for each container its exit code and job
      id, once written, the pod's address, and the system-error file. */
  datatype ControlFiles = ControlFiles(
    exitCodes: map<Name, int>,
    jobIds: map<Name, string>,
    ip: Option<string>,
    sysError: bool)

  const NO_FILES := ControlFiles(map[], map[], None, false)

  /** Control files only ever appear, and what is in them stays. */
  ghost predicate Extends(f: ControlFiles, f': ControlFiles) {
    && (forall n :: n in f.exitCodes ==> n in f'.exitCodes && f'.exitCodes[n] == f.exitCodes[n])
    && (forall n :: n in f.jobIds ==> n in f'.jobIds && f'.jobIds[n] == f.jobIds[n])
    && (f.ip.Some? ==> f'.ip == f.ip)
    && (f.sysError ==> f'.sysError)
  }

  datatype Termination = Termination(exitCode: int, startedAt: Time, finishedAt: Time)

  /** Three optional parts, as in the API type; that exactly one is set has to be proved. */
  datatype State = State(waiting: bool, running: Option<Time>, terminated: Option<Termination>)

  datatype Status = Status(
    name: Name,
    containerID: string,
    state: State,
    lastTermination: State,
    restartCount: int,
    ready: bool)

  const BLANK := State(false, None, None)

  /** Conversion of a decoded exit code to a 32-bit field. */
  function ToInt32(x: int): int {
    (x + 0x8000_0000) % 0x1_0000_0000 - 0x8000_0000
  }

  /** Codes that fit are kept, all others wrap around. */
  lemma ToInt32Exactly(x: int)
    ensures -0x8000_0000 <= ToInt32(x) < 0x8000_0000
    ensures exists k :: ToInt32(x) == x + k * 0x1_0000_0000
    ensures -0x8000_0000 <= x < 0x8000_0000 <==> ToInt32(x) == x
  {
    var k := (x + 0x8000_0000) / 0x1_0000_0000;
    assert ToInt32(x) == x + (-k) * 0x1_0000_0000;
  }

  /** When the container was started, as far as its state tells. */
  function StartOf(s: State): Time {
    if s.running.Some? then s.running.value
    else if s.terminated.Some? then s.terminated.value.startedAt
    else NO_TIME
  }

  /** The status after one synchronisation. */
  function Handled(s: Status, f: ControlFiles, now: Time): Status {
    if s.name in f.exitCodes then
      var first := s.state.terminated.None?;
      s.(state := State(false, None, Some(Termination(ToInt32(f.exitCodes[s.name]), StartOf(s.state), now))),
         lastTermination := if first then s.state else s.lastTermination,
         restartCount := if first && f.exitCodes[s.name] != 0 then s.restartCount + 1 else s.restartCount)
    else if s.name in f.jobIds then
      if s.state.running.Some? then s
      else s.(containerID := f.jobIds[s.name], state := State(false, Some(now), None), ready := true)
    else
      s.(state := State(true, None, None))
  }

  function SyncAll(ss: seq<Status>, f: ControlFiles, now: Time): seq<Status> {
    seq(|ss|, i requires 0 <= i < |ss| => Handled(ss[i], f, now))
  }

  /** The generic handler: the status is overwritten field by field. */
  method HandleStatus(status: Status, f: ControlFiles, now: Time) returns (s: Status)
    ensures s == Handled(status, f, now)
  {
    s := status;
    var prevState := s.state;
    if s.name in f.exitCodes {
      var exitCode := f.exitCodes[s.name];
      var startedAt := NO_TIME;
      if prevState.running.Some? {
        startedAt := prevState.running.value;
      } else if prevState.terminated.Some? {
        startedAt := prevState.terminated.value.startedAt;
      }
      if prevState.terminated.None? {
        s := s.(lastTermination := prevState);
        if exitCode != 0 {
          s := s.(restartCount := s.restartCount + 1);
        }
      }
      s := s.(state := s.state.(waiting := false));
      s := s.(state := s.state.(running := None));
      s := s.(state := s.state.(terminated := Some(Termination(ToInt32(exitCode), startedAt, now))));
      return;
    }
    if s.name in f.jobIds {
      if s.state.running.None? {
        s := s.(containerID := f.jobIds[s.name]);
        s := s.(state := s.state.(waiting := false));
        s := s.(state := s.state.(running := Some(now)));
        s := s.(state := s.state.(terminated := None));
        s := s.(ready := true);
      }
      return;
    }
    s := s.(state := s.state.(waiting := true));
    s := s.(state := s.state.(running := None));
    s := s.(state := s.state.(terminated := None));
  }

  // ---------------------------------------------------------------- classes of containers

  datatype Class = PendingJob | RunningJob | SuccessfulJob | FailedJob

  function ClassOf(s: State): Class {
    if s.terminated.Some? then (if s.terminated.value.exitCode == 0 then SuccessfulJob else FailedJob)
    else if s.running.Some? then RunningJob
    else PendingJob
  }

  /** What the control files alone say about a container. */
  function ClassIn(n: Name, f: ControlFiles): Class {
    if n in f.exitCodes then (if ToInt32(f.exitCodes[n]) == 0 then SuccessfulJob else FailedJob)
    else if n in f.jobIds then RunningJob
    else PendingJob
  }

  /** At most one part of the state is set. */
  predicate Exclusive(s: State) {
    && !(s.waiting && s.running.Some?)
    && !(s.waiting && s.terminated.Some?)
    && !(s.running.Some? && s.terminated.Some?)
  }

  /** Exactly one part of the state is set. */
  predicate ExactlyOne(s: State) {
    Exclusive(s) && (s.waiting || s.running.Some? || s.terminated.Some?)
  }

  /** A status no run has touched, or one left by an earlier sync against some of today's files. */
  ghost predicate Consistent(s: Status, f: ControlFiles) {
    && Exclusive(s.state)
    && (s.state.running.Some? ==> s.name in f.jobIds)
    && (s.state.terminated.Some? ==>
          s.name in f.exitCodes && s.state.terminated.value.exitCode == ToInt32(f.exitCodes[s.name]))
  }

  /** Whatever the status was before, one sync makes it say what the files say. */
  lemma HandledClass(s: Status, f: ControlFiles, now: Time)
    requires Exclusive(s.state)
    ensures ClassOf(Handled(s, f, now).state) == ClassIn(s.name, f)
    ensures ExactlyOne(Handled(s, f, now).state)
    ensures Handled(s, f, now).name == s.name
    ensures Consistent(Handled(s, f, now), f)
  {
  }

  /** A second sync against the same files changes the finish time, if there is one, and nothing else. */
  lemma HandledTwice(s: Status, f: ControlFiles, t1: Time, t2: Time)
    requires Exclusive(s.state)
    ensures var once := Handled(s, f, t1);
            Handled(once, f, t2) ==
              if once.state.terminated.None? then once
              else once.(state := State(false, None, Some(once.state.terminated.value.(finishedAt := t2))))
  {
  }

  // ---------------------------------------------------------------- runs of syncs

  /** A container's status after the first `n` of a sequence of syncs. */
  function Synced(s: Status, files: seq<ControlFiles>, times: seq<Time>, n: nat): Status
    requires n <= |files| == |times|
  {
    if n == 0 then s else Handled(Synced(s, files, times, n - 1), files[n - 1], times[n - 1])
  }

  ghost predicate Growing(files: seq<ControlFiles>) {
    forall i, j {:trigger Extends(files[i], files[j])} | 0 <= i <= j < |files| :: Extends(files[i], files[j])
  }

  lemma {:induction false} SyncedShape(s: Status, files: seq<ControlFiles>, times: seq<Time>, n: nat)
    requires n <= |files| == |times| && s.state == BLANK
    ensures var r := Synced(s, files, times, n);
            && r.name == s.name && Exclusive(r.state)
            && (n > 0 ==> ExactlyOne(r.state) && Consistent(r, files[n - 1]))
            && (n > 0 ==> ClassOf(r.state) == ClassIn(s.name, files[n - 1]))
            && (n == 0 ==> r.state == BLANK)
  {
    if n > 0 {
      SyncedShape(s, files, times, n - 1);
      HandledClass(Synced(s, files, times, n - 1), files[n - 1], times[n - 1]);
    }
  }

  /** Over any run of syncs the restart count grows by one if the container exited with a non-zero code,
      once, and not at all otherwise. */
  lemma {:induction false} RestartsOnce(s: Status, files: seq<ControlFiles>, times: seq<Time>, n: nat)
    requires 0 < n <= |files| == |times| && Growing(files) && s.state == BLANK
    ensures var last := files[n - 1];
            Synced(s, files, times, n).restartCount ==
              s.restartCount + if s.name in last.exitCodes && last.exitCodes[s.name] != 0 then 1 else 0
  {
    SyncedShape(s, files, times, n - 1);
    if n > 1 {
      RestartsOnce(s, files, times, n - 1);
      assert Extends(files[n - 2], files[n - 1]);
    }
  }

  ghost predicate StartedAt(s: State, start: Time) {
    s.running == Some(start) || (s.terminated.Some? && s.terminated.value.startedAt == start)
  }

  lemma StartKept(s: Status, f: ControlFiles, f': ControlFiles, now: Time, start: Time)
    requires Consistent(s, f) && Extends(f, f') && s.name in f'.jobIds && StartedAt(s.state, start)
    ensures StartedAt(Handled(s, f', now).state, start)
  {
  }

  /** The start time a run has recorded stays the start time, through termination and after. */
  lemma {:induction false} StartSurvives(s: Status, files: seq<ControlFiles>, times: seq<Time>, i: nat, n: nat,
                                         start: Time)
    requires i <= n <= |files| == |times| && Growing(files) && s.state == BLANK
    requires Synced(s, files, times, i).state.running == Some(start)
    ensures StartedAt(Synced(s, files, times, n).state, start)
    decreases n
  {
    if i < n {
      StartSurvives(s, files, times, i, n - 1, start);
      SyncedShape(s, files, times, i);
      assert i > 0 && s.name in files[i - 1].jobIds && Extends(files[i - 1], files[n - 1]);
      SyncedShape(s, files, times, n - 1);
      assert Extends(files[n - 2], files[n - 1]);
      StartKept(Synced(s, files, times, n - 1), files[n - 2], files[n - 1], times[n - 1], start);
    }
  }

  /** A container that was never seen running has no start time, however often it is synced. */
  lemma {:induction false} NoStartUnseen(s: Status, files: seq<ControlFiles>, times: seq<Time>, n: nat)
    requires n <= |files| == |times| && s.state == BLANK
    requires forall i | 0 <= i < n :: s.name in files[i].jobIds ==> s.name in files[i].exitCodes
    ensures StartOf(Synced(s, files, times, n).state) == NO_TIME
  {
    if n > 0 {
      NoStartUnseen(s, files, times, n - 1);
      SyncedShape(s, files, times, n - 1);
    }
  }

  // ---------------------------------------------------------------- the status in closed form

  /** The first of `n` syncs that found an exit code, or `n`. */
  function ExitAt(c: Name, files: seq<ControlFiles>, n: nat): (e: nat)
    requires n <= |files|
    ensures e <= n && (e < n ==> c in files[e].exitCodes)
    ensures forall i | 0 <= i < e :: c !in files[i].exitCodes
  {
    if n == 0 then 0
    else
      var e := ExitAt(c, files, n - 1);
      if e < n - 1 || c in files[n - 1].exitCodes then e else n
  }

  /** The first of `n` syncs that found a job id and no exit code, or `n`. */
  function RunAt(c: Name, files: seq<ControlFiles>, n: nat): (j: nat)
    requires n <= |files|
    ensures j <= n && (j < n ==> c in files[j].jobIds && c !in files[j].exitCodes)
    ensures forall i | 0 <= i < j :: c in files[i].jobIds ==> c in files[i].exitCodes
  {
    if n == 0 then 0
    else
      var j := RunAt(c, files, n - 1);
      if j < n - 1 || (c in files[n - 1].jobIds && c !in files[n - 1].exitCodes) then j else n
  }

  /** The state as long as no exit code was found: running since the first sync that saw it, or waiting. */
  function AliveState(c: Name, files: seq<ControlFiles>, times: seq<Time>, n: nat): State
    requires n <= |files| == |times|
  {
    var j := RunAt(c, files, n);
    if j < n then State(false, Some(times[j]), None)
    else if ExitAt(c, files, n) > 0 then State(true, None, None)
    else BLANK
  }

  /** The status after `n` syncs, told by the moments alone at which the files were first seen. */
  function Summary(s: Status, files: seq<ControlFiles>, times: seq<Time>, n: nat): Status
    requires n <= |files| == |times|
  {
    var e, j, alive := ExitAt(s.name, files, n), RunAt(s.name, files, n), AliveState(s.name, files, times, n);
    Status(
      s.name,
      if j < n then files[j].jobIds[s.name] else s.containerID,
      if e < n then
        State(false, None,
          Some(Termination(ToInt32(files[e].exitCodes[s.name]), if j < n then times[j] else NO_TIME, times[n - 1])))
      else alive,
      if e < n then alive else s.lastTermination,
      if e < n && files[e].exitCodes[s.name] != 0 then s.restartCount + 1 else s.restartCount,
      s.ready || j < n)
  }

  /** Once an exit code was found the container is not seen starting to run any more. */
  lemma RunsBeforeExit(c: Name, files: seq<ControlFiles>, n: nat)
    requires n <= |files| && Growing(files)
    ensures RunAt(c, files, n) < n && ExitAt(c, files, n) < n ==> RunAt(c, files, n) < ExitAt(c, files, n)
  {
    var e := ExitAt(c, files, n);
    assert e < n ==> forall i | e <= i < n :: Extends(files[e], files[i]);
  }

  /** One more sync that finds an exit code. */
  lemma SummaryEnded(s: Status, files: seq<ControlFiles>, times: seq<Time>, n: nat)
    requires 0 < n <= |files| == |times| && Growing(files) && s.name in files[n - 1].exitCodes
    ensures Handled(Summary(s, files, times, n - 1), files[n - 1], times[n - 1]) == Summary(s, files, times, n)
  {
    if ExitAt(s.name, files, n - 1) < n - 1 {
      SummaryEndedAgain(s, files, times, n);
    } else {
      SummaryEndedFirst(s, files, times, n);
    }
  }

  lemma SummaryEndedFirst(s: Status, files: seq<ControlFiles>, times: seq<Time>, n: nat)
    requires 0 < n <= |files| == |times| && s.name in files[n - 1].exitCodes
    requires ExitAt(s.name, files, n - 1) == n - 1
    ensures Handled(Summary(s, files, times, n - 1), files[n - 1], times[n - 1]) == Summary(s, files, times, n)
  {
    var j := RunAt(s.name, files, n - 1);
    assert ExitAt(s.name, files, n) == n - 1 && RunAt(s.name, files, n) == if j < n - 1 then j else n;
  }

  lemma SummaryEndedAgain(s: Status, files: seq<ControlFiles>, times: seq<Time>, n: nat)
    requires 0 < n <= |files| == |times| && Growing(files) && s.name in files[n - 1].exitCodes
    requires ExitAt(s.name, files, n - 1) < n - 1
    ensures Handled(Summary(s, files, times, n - 1), files[n - 1], times[n - 1]) == Summary(s, files, times, n)
  {
    var e, j := ExitAt(s.name, files, n - 1), RunAt(s.name, files, n - 1);
    RunsBeforeExit(s.name, files, n - 1);
    assert ExitAt(s.name, files, n) == e && RunAt(s.name, files, n) == if j < n - 1 then j else n;
    assert Extends(files[e], files[n - 1]);
  }

  /** One more sync that finds a job id and no exit code. */
  lemma SummaryRunning(s: Status, files: seq<ControlFiles>, times: seq<Time>, n: nat)
    requires 0 < n <= |files| == |times| && Growing(files)
    requires s.name !in files[n - 1].exitCodes && s.name in files[n - 1].jobIds
    ensures Handled(Summary(s, files, times, n - 1), files[n - 1], times[n - 1]) == Summary(s, files, times, n)
  {
    var c := s.name;
    var e, j := ExitAt(c, files, n - 1), RunAt(c, files, n - 1);
    assert e < n - 1 ==> Extends(files[e], files[n - 1]);
    assert ExitAt(c, files, n) == n && RunAt(c, files, n) == j;
  }

  /** One more sync that finds neither. */
  lemma SummaryWaiting(s: Status, files: seq<ControlFiles>, times: seq<Time>, n: nat)
    requires 0 < n <= |files| == |times| && Growing(files)
    requires s.name !in files[n - 1].exitCodes && s.name !in files[n - 1].jobIds
    ensures Handled(Summary(s, files, times, n - 1), files[n - 1], times[n - 1]) == Summary(s, files, times, n)
  {
    var c := s.name;
    var e, j := ExitAt(c, files, n - 1), RunAt(c, files, n - 1);
    assert e < n - 1 ==> Extends(files[e], files[n - 1]);
    assert j < n - 1 ==> Extends(files[j], files[n - 1]);
    assert ExitAt(c, files, n) == n && RunAt(c, files, n) == n;
  }

  /** Every field of the status after any run of syncs: identity, start and readiness come from the first
      sync that saw the container run, exit code, restart and last state from the first that saw it
      ended, and only the finishing time from the latest. */
  lemma {:induction false} SyncedExactly(s: Status, files: seq<ControlFiles>, times: seq<Time>, n: nat)
    requires n <= |files| == |times| && Growing(files) && s.state == BLANK
    ensures Synced(s, files, times, n) == Summary(s, files, times, n)
  {
    if n > 0 {
      SyncedExactly(s, files, times, n - 1);
      if s.name in files[n - 1].exitCodes {
        SummaryEnded(s, files, times, n);
      } else if s.name in files[n - 1].jobIds {
        SummaryRunning(s, files, times, n);
      } else {
        SummaryWaiting(s, files, times, n);
      }
    }
  }
}
