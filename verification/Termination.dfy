/** Terminating the processes of a pod: a polite signal, a wait, and a signal that cannot be ignored. */
module Termination {
  import opened Wrappers
  import opened JobId

  // ---------------------------------------------------------------- what is observed

  /** What the process table says when an identity is checked: it may not exist on this system, have no
      readable entry for the process, or tell when the process was started. */
  datatype Answer = NoTable | NoEntry | StartedAt(time: nat)

  /** The recorded identity is that of the process that now has the number. */
  predicate Matches(recorded: nat, answer: Answer) {
    match answer
      case NoTable => true
      case NoEntry => false
      case StartedAt(t) => recorded > 0 ==> t == recorded
  }

  datatype Signal = TERM | KILL

  /** A signal to a negative number goes to the whole process group. */
  datatype Deed =
    | Check(id: Id, answer: Answer)
    | Send(target: int, signal: Signal)
    | Poll(pid: int, dead: bool)
    | Sleep(ms: nat)

  /** A deed and when it was done, in milliseconds. */
  datatype Event = Event(at: int, deed: Deed)

  type Log = seq<Event>

  datatype Reply = Delivered | NoSuchProcess | Refused

  datatype Outcome = Ended | InvalidJob | CouldNotTerminate | CouldNotKill | StillAlive

  // ---------------------------------------------------------------- what a call may log

  /** The secondary processes whose identity is to be checked. */
  function Asked(parsed: seq<Option<Id>>): seq<Id> {
    if parsed == [] then []
    else
      var id := parsed[|parsed| - 1];
      var before := Asked(parsed[..|parsed| - 1]);
      if id.Some? && id.value.pid > 1 then before + [id.value] else before
  }

  function ParseAll(secondary: seq<string>): seq<Option<Id>> {
    seq(|secondary|, i requires 0 <= i < |secondary| => ParseProcessJobID(secondary[i]))
  }

  function Checks(ids: seq<Id>, answers: seq<Answer>, at: int): Log
    requires |ids| == |answers|
  {
    seq(|ids|, i requires 0 <= i < |ids| => Event(at, Check(ids[i], answers[i])))
  }

  /** Those that passed the check. */
  function Passed(ids: seq<Id>, answers: seq<Answer>): seq<int>
    requires |ids| == |answers|
  {
    if ids == [] then []
    else
      var k := |ids| - 1;
      var before := Passed(ids[..k], answers[..k]);
      if Matches(ids[k].startTime, answers[k]) then before + [ids[k].pid] else before
  }

  /** The group first, then the process itself. */
  function SendEach(pids: seq<int>, signal: Signal, at: int): Log {
    if pids == [] then []
    else
      var p := pids[|pids| - 1];
      var before := SendEach(pids[..|pids| - 1], signal, at);
      if p > 1 then before + [Event(at, Send(-p, signal)), Event(at, Send(p, signal))] else before
  }

  const SWEEP_WAIT := 200

  function Sweep(pids: seq<int>, at: int): Log {
    if pids == [] then []
    else SendEach(pids, TERM, at) + [Event(at, Sleep(SWEEP_WAIT))] + SendEach(pids, KILL, at + SWEEP_WAIT)
  }

  function Interval(t: int, fastUntil: int): nat {
    if t > fastUntil then 250 else 50
  }

  /** The time of the poll that follows `k` polls and sleeps. */
  function PollTime(start: int, fastUntil: int, k: nat): int {
    if k == 0 then start else var t := PollTime(start, fastUntil, k - 1); t + Interval(t, fastUntil)
  }

  /** `k` polls that found the process alive, each followed by a sleep. */
  function Waits(pid: int, start: int, fastUntil: int, k: nat): Log {
    if k == 0 then []
    else
      var t := PollTime(start, fastUntil, k - 1);
      Waits(pid, start, fastUntil, k - 1) + [Event(t, Poll(pid, false)), Event(t, Sleep(Interval(t, fastUntil)))]
  }

  /** A wait that ended after `k` sleeps, because the process was dead or time was up. */
  function Awaited(pid: int, start: int, fastUntil: int, k: nat, dead: bool): Log {
    Waits(pid, start, fastUntil, k) + [Event(PollTime(start, fastUntil, k), Poll(pid, dead))]
  }

  /** The sleeps began no later than the deadline; the last look, if it still found life, came after it. */
  predicate WaitOk(start: int, fastUntil: int, deadline: int, k: nat, dead: bool) {
    && (k > 0 ==> PollTime(start, fastUntil, k - 1) <= deadline)
    && (!dead ==> PollTime(start, fastUntil, k) > deadline)
  }

  /** How a call went on once the secondary processes were checked. */
  datatype Course =
    | NoPrimary
    | Mismatch(answer: Answer)
    | TermFails(answer: Answer, reply: Reply)
    | Graceful(answer: Answer, polls: nat)
    | KillFails(answer: Answer, polls: nat)
    | Killed(answer: Answer, polls: nat, more: nat, dead: bool)

  /** What was asked for: the primary process, if its identifier can be parsed, the secondary ones, and
      the time to wait. */
  datatype Request = Request(primary: Option<Id>, secondary: seq<Id>, timeout: nat)

  const FAST := 1000
  const KILL_WAIT := 5000

  predicate Possible(q: Request, c: Course, start: int) {
    var fast, deadline := start + FAST, start + q.timeout;
    match c
      case NoPrimary => q.primary.None?
      case Mismatch(a) => q.primary.Some? && !Matches(q.primary.value.startTime, a)
      case TermFails(a, reply) => q.primary.Some? && Matches(q.primary.value.startTime, a) && !reply.Delivered?
      case Graceful(a, k) =>
        q.primary.Some? && Matches(q.primary.value.startTime, a) && WaitOk(start, fast, deadline, k, true)
      case KillFails(a, k) =>
        q.primary.Some? && Matches(q.primary.value.startTime, a) && WaitOk(start, fast, deadline, k, false)
      case Killed(a, k, m, dead) =>
        && q.primary.Some? && Matches(q.primary.value.startTime, a) && WaitOk(start, fast, deadline, k, false)
        && var t := PollTime(start, fast, k);
           WaitOk(t, t - 1, t + KILL_WAIT, m, dead)
  }

  /** The signal sent first, and the wait after it. */
  function FirstWait(id: Id, a: Answer, start: int, k: nat, dead: bool): Log {
    [Event(start, Check(id, a)), Event(start, Send(id.pid, TERM))] + Awaited(id.pid, start, start + FAST, k, dead)
  }

  /** The second signal, also to the secondary processes, and the wait after it. */
  function Escalation(pid: int, passed: seq<int>, t: int, more: nat, dead: bool): Log {
    [Event(t, Send(pid, KILL))] + SendEach(passed, KILL, t) + Awaited(pid, t, t - 1, more, dead)
  }

  function Rest(q: Request, c: Course, passed: seq<int>, start: int): Log
    requires Possible(q, c, start)
  {
    match c
      case NoPrimary => Sweep(passed, start)
      case Mismatch(a) => [Event(start, Check(q.primary.value, a))] + Sweep(passed, start)
      case TermFails(a, _) =>
        [Event(start, Check(q.primary.value, a)), Event(start, Send(q.primary.value.pid, TERM))] + Sweep(passed, start)
      case Graceful(a, k) => FirstWait(q.primary.value, a, start, k, true)
      case KillFails(a, k) =>
        FirstWait(q.primary.value, a, start, k, false)
        + [Event(PollTime(start, start + FAST, k), Send(q.primary.value.pid, KILL))]
      case Killed(a, k, m, dead) =>
        var t := PollTime(start, start + FAST, k);
        FirstWait(q.primary.value, a, start, k, false) + Escalation(q.primary.value.pid, passed, t, m, dead)
  }

  function OutcomeOf(c: Course): Outcome {
    match c
      case NoPrimary => InvalidJob
      case Mismatch(_) => InvalidJob
      case TermFails(_, reply) => if reply.NoSuchProcess? then InvalidJob else CouldNotTerminate
      case Graceful(_, _) => Ended
      case KillFails(_, _) => CouldNotKill
      case Killed(_, _, _, dead) => if dead then Ended else StillAlive
  }

  /** When a call ends, given when it began. */
  function EndTime(q: Request, c: Course, passed: seq<int>, start: int): int
    requires Possible(q, c, start)
  {
    match c
      case Graceful(_, k) => PollTime(start, start + FAST, k)
      case KillFails(_, k) => PollTime(start, start + FAST, k)
      case Killed(_, k, m, _) => var t := PollTime(start, start + FAST, k); PollTime(t, t - 1, m)
      case _ => if passed == [] then start else start + SWEEP_WAIT
  }

  /** The replies to a call's signals, in order, put it on this course: the first is the one to the polite
      signal, and the second the one to the signal that cannot be ignored. */
  predicate Replied(c: Course, replies: seq<Reply>) {
    match c
      case NoPrimary => true
      case Mismatch(_) => true
      case TermFails(_, reply) => |replies| > 0 && replies[0] == reply && reply != Delivered
      case Graceful(_, _) => |replies| == 1 && replies[0] == Delivered
      case KillFails(_, _) => |replies| == 2 && replies[0] == Delivered && replies[1] == Refused
      case Killed(_, _, _, _) => |replies| > 1 && replies[0] == Delivered && replies[1] != Refused
  }

  // ---------------------------------------------------------------- the code

  /** The host: its clock, which only sleeping advances, the log of what was done, and what was replied to
      each signal. */
  class Host {
    var now: int
    var log: Log
    ghost var replies: seq<Reply>

    constructor (now: int)
      ensures this.now == now && log == [] && replies == []
    {
      this.now, log, replies := now, [], [];
    }

    method VerifyProcessIdentity(id: Id) returns (ok: bool, ghost answer: Answer)
      modifies this`log
      ensures log == old(log) + [Event(now, Check(id, answer))] && ok == Matches(id.startTime, answer)
    {
      var read: Answer := *;
      answer := read;
      ok := Matches(id.startTime, read);
      log := log + [Event(now, Check(id, read))];
    }

    method Kill(target: int, signal: Signal) returns (reply: Reply)
      modifies this`log, this`replies
      ensures log == old(log) + [Event(now, Send(target, signal))] && replies == old(replies) + [reply]
    {
      reply := *;
      log := log + [Event(now, Send(target, signal))];
      replies := replies + [reply];
    }

    method IsProcessDead(pid: int) returns (dead: bool)
      modifies this`log
      ensures log == old(log) + [Event(now, Poll(pid, dead))]
    {
      dead := *;
      log := log + [Event(now, Poll(pid, dead))];
    }

    method SleepFor(ms: nat)
      modifies this`log, this`now
      ensures log == old(log) + [Event(old(now), Sleep(ms))] && now == old(now) + ms
    {
      log := log + [Event(now, Sleep(ms))];
      now := now + ms;
    }

    method SignalEach(pids: seq<int>, signal: Signal)
      modifies this`log, this`replies
      ensures log == old(log) + SendEach(pids, signal, now) && old(replies) <= replies
    {
      var i := 0;
      while i < |pids|
        invariant 0 <= i <= |pids| && old(replies) <= replies
        invariant log == old(log) + SendEach(pids[..i], signal, now)
      {
        assert pids[..i + 1][..i] == pids[..i];
        if pids[i] > 1 {
          var toGroup := Kill(-pids[i], signal);
          var toProcess := Kill(pids[i], signal);
        }
        i := i + 1;
      }
      assert pids[..i] == pids;
    }

    method SweepSecondaryPIDs(pids: seq<int>)
      modifies this
      ensures log == old(log) + Sweep(pids, old(now)) && now == if pids == [] then old(now) else old(now) + SWEEP_WAIT
      ensures old(replies) <= replies
    {
      if |pids| > 0 {
        SignalEach(pids, TERM);
        SleepFor(SWEEP_WAIT);
        SignalEach(pids, KILL);
      }
    }

    method VerifySecondaries(parsed: seq<Option<Id>>) returns (pids: seq<int>, ghost answers: seq<Answer>)
      modifies this`log
      ensures |answers| == |Asked(parsed)|
      ensures log == old(log) + Checks(Asked(parsed), answers, now) && pids == Passed(Asked(parsed), answers)
    {
      pids, answers := [], [];
      var i := 0;
      while i < |parsed|
        invariant 0 <= i <= |parsed| && |answers| == |Asked(parsed[..i])|
        invariant log == old(log) + Checks(Asked(parsed[..i]), answers, now)
        invariant pids == Passed(Asked(parsed[..i]), answers)
      {
        ghost var ids := Asked(parsed[..i]);
        assert parsed[..i + 1][..i] == parsed[..i];
        var id := parsed[i];
        if id.Some? && id.value.pid > 1 {
          var ok, answer := VerifyProcessIdentity(id.value);
          OneCheck(ids, answers, id.value, answer, now);
          answers := answers + [answer];
          if ok {
            pids := pids + [id.value.pid];
          }
        }
        i := i + 1;
      }
      assert parsed[..i] == parsed;
    }

    /** Polls until the process is dead or the deadline has passed. */
    method AwaitExit(pid: int, fastUntil: int, deadline: int) returns (dead: bool, ghost polls: nat)
      modifies this`log, this`now
      ensures log == old(log) + Awaited(pid, old(now), fastUntil, polls, dead)
      ensures now == PollTime(old(now), fastUntil, polls) && WaitOk(old(now), fastUntil, deadline, polls, dead)
    {
      polls := 0;
      dead := IsProcessDead(pid);
      while !dead && !(now > deadline)
        invariant log == old(log) + Awaited(pid, old(now), fastUntil, polls, dead)
        invariant now == PollTime(old(now), fastUntil, polls)
        invariant polls > 0 ==> PollTime(old(now), fastUntil, polls - 1) <= deadline
        decreases deadline - now + 1, if dead then 0 else 1
      {
        SleepFor(if now > fastUntil then 250 else 50);
        polls := polls + 1;
        dead := IsProcessDead(pid);
      }
    }

    /** What follows a wait that was in vain. */
    method Escalate(pid: int, pids: seq<int>) returns (refused: bool, dead: bool, ghost more: nat)
      modifies this
      ensures refused ==> log == old(log) + [Event(old(now), Send(pid, KILL))] && now == old(now)
      ensures !refused ==> log == old(log) + Escalation(pid, pids, old(now), more, dead)
      ensures !refused ==> WaitOk(old(now), old(now) - 1, old(now) + KILL_WAIT, more, dead)
      ensures !refused ==> now == PollTime(old(now), old(now) - 1, more)
      ensures old(replies) <= replies && |old(replies)| < |replies|
      ensures if refused then replies == old(replies) + [Refused] else replies[|old(replies)|] != Refused
    {
      dead, more := false, 0;
      var reply := Kill(pid, KILL);
      refused := reply == Refused;
      if !refused {
        SignalEach(pids, KILL);
        dead, more := AwaitExit(pid, now - 1, now + KILL_WAIT);
      }
    }

    /** From the polite signal on. */
    method AwaitOrEscalate(id: Id, pids: seq<int>, timeout: nat, ghost answer: Answer, ghost q: Request,
                           ghost sofar: Log, ghost before: seq<Reply>)
        returns (r: Outcome, ghost c: Course)
      requires q.primary == Some(id) && q.timeout == timeout && Matches(id.startTime, answer)
      requires log == sofar + [Event(now, Check(id, answer)), Event(now, Send(id.pid, TERM))]
      requires replies == before + [Delivered]
      modifies this
      ensures before <= replies && Replied(c, replies[|before|..])
      ensures Possible(q, c, old(now)) && r == OutcomeOf(c) && log == sofar + Rest(q, c, pids, old(now))
      ensures now == EndTime(q, c, pids, old(now))
    {
      var dead, polls := AwaitExit(id.pid, now + FAST, now + timeout);
      assert log == sofar + FirstWait(id, answer, old(now), polls, dead);
      if dead {
        r, c := Ended, Graceful(answer, polls);
      } else {
        var refused;
        ghost var more;
        refused, dead, more := Escalate(id.pid, pids);
        if refused {
          r, c := CouldNotKill, KillFails(answer, polls);
        } else {
          r, c := if dead then Ended else StillAlive, Killed(answer, polls, more, dead);
        }
      }
    }

    /** From the identity check of the primary process on. */
    method Terminate(id: Id, pids: seq<int>, timeout: nat, ghost q: Request) returns (r: Outcome, ghost c: Course)
      requires q.primary == Some(id) && q.timeout == timeout
      modifies this
      ensures old(replies) <= replies && Replied(c, replies[|old(replies)|..])
      ensures Possible(q, c, old(now)) && r == OutcomeOf(c) && log == old(log) + Rest(q, c, pids, old(now))
      ensures now == EndTime(q, c, pids, old(now))
    {
      var ok, answer := VerifyProcessIdentity(id);
      if !ok {
        SweepSecondaryPIDs(pids);
        r, c := InvalidJob, Mismatch(answer);
      } else {
        var reply := Kill(id.pid, TERM);
        if reply != Delivered {
          SweepSecondaryPIDs(pids);
          r, c := if reply == NoSuchProcess then InvalidJob else CouldNotTerminate, TermFails(answer, reply);
        } else {
          r, c := AwaitOrEscalate(id, pids, timeout, answer, q, old(log), old(replies));
        }
      }
    }

    method KillPodProcessesWithTimeout(primary: string, secondary: seq<string>, timeout: nat)
        returns (r: Outcome, ghost answers: seq<Answer>, ghost c: Course)
      modifies this
      ensures |answers| == |Asked(ParseAll(secondary))|
      ensures old(replies) <= replies && Replied(c, replies[|old(replies)|..])
      ensures var q := Request(ParseProcessJobID(primary), Asked(ParseAll(secondary)), timeout);
              && Possible(q, c, old(now)) && r == OutcomeOf(c)
              && log == old(log) + LogOf(q, c, answers, old(now))
              && now == EndTime(q, c, Passed(q.secondary, answers), old(now))
    {
      var pids;
      pids, answers := VerifySecondaries(ParseAll(secondary));
      ghost var checks := log;
      var id := ParseProcessJobID(primary);
      ghost var q := Request(id, Asked(ParseAll(secondary)), timeout);
      if id.None? {
        SweepSecondaryPIDs(pids);
        r, c := InvalidJob, NoPrimary;
      } else {
        r, c := Terminate(id.value, pids, timeout, q);
      }
      assert log == checks + Rest(q, c, pids, old(now));
      Associate(old(log), Checks(q.secondary, answers, old(now)), Rest(q, c, pids, old(now)));
    }
  }

  lemma Associate(a: Log, b: Log, c: Log)
    ensures (a + b) + c == a + (b + c)
  {
  }

  lemma OneCheck(ids: seq<Id>, answers: seq<Answer>, id: Id, answer: Answer, at: int)
    requires |ids| == |answers|
    ensures Checks(ids + [id], answers + [answer], at) == Checks(ids, answers, at) + [Event(at, Check(id, answer))]
    ensures Passed(ids + [id], answers + [answer]) ==
            if Matches(id.startTime, answer) then Passed(ids, answers) + [id.pid] else Passed(ids, answers)
  {
    assert (ids + [id])[..|ids|] == ids && (answers + [answer])[..|ids|] == answers;
  }

  function LogOf(q: Request, c: Course, answers: seq<Answer>, start: int): Log
    requires Possible(q, c, start) && |answers| == |q.secondary|
  {
    Checks(q.secondary, answers, start) + Rest(q, c, Passed(q.secondary, answers), start)
  }

  // ---------------------------------------------------------------- what every such log satisfies

  /** Somewhere before position `n` the identity of this process was checked, and there was no process table,
      or it knew the process and, if a start time was recorded, told that one. */
  predicate Verified(log: Log, n: nat, pid: int) {
    exists j | 0 <= j < n && j < |log| && log[j].deed.Check? ::
      var id, a := log[j].deed.id, log[j].deed.answer;
      id.pid == pid && (a.NoTable? || (a.StartedAt? && (id.startTime == 0 || a.time == id.startTime)))
  }

  /** Signals only go to the given processes and, except for the primary one, to their groups. */
  predicate SignalsOnly(log: Log, pids: seq<int>, primary: Option<int>) {
    forall i | 0 <= i < |log| && log[i].deed.Send? ::
      || (log[i].deed.target > 1 && log[i].deed.target in pids)
      || (log[i].deed.target < -1 && -log[i].deed.target in pids)
      || (primary.Some? && log[i].deed.target == primary.value)
  }

  lemma OnlyBoth(a: Log, b: Log, pids: seq<int>, primary: Option<int>)
    requires SignalsOnly(a, pids, primary) && SignalsOnly(b, pids, primary)
    ensures SignalsOnly(a + b, pids, primary)
  {
  }

  lemma {:induction false} SendEachOnly(sent: seq<int>, signal: Signal, at: int, pids: seq<int>, primary: Option<int>)
    requires forall p | p in sent :: p in pids
    ensures SignalsOnly(SendEach(sent, signal, at), pids, primary)
    decreases |sent|
  {
    if sent != [] {
      SendEachOnly(sent[..|sent| - 1], signal, at, pids, primary);
    }
  }

  lemma SweepOnly(pids: seq<int>, at: int, primary: Option<int>)
    ensures SignalsOnly(Sweep(pids, at), pids, primary)
  {
    SendEachOnly(pids, TERM, at, pids, primary);
    SendEachOnly(pids, KILL, at + SWEEP_WAIT, pids, primary);
  }

  lemma {:induction false} WaitsOnly(pid: int, start: int, fastUntil: int, k: nat)
    ensures forall i | 0 <= i < |Waits(pid, start, fastUntil, k)| :: !Waits(pid, start, fastUntil, k)[i].deed.Send?
    decreases k
  {
    if k > 0 {
      WaitsOnly(pid, start, fastUntil, k - 1);
    }
  }

  /** A process that passed was checked, under the number it passed with. */
  lemma {:induction false} PassedChecked(ids: seq<Id>, answers: seq<Answer>, pid: int) returns (i: nat)
    requires |ids| == |answers| && pid in Passed(ids, answers)
    ensures i < |ids| && ids[i].pid == pid && Matches(ids[i].startTime, answers[i])
    decreases |ids|
  {
    var k := |ids| - 1;
    if Matches(ids[k].startTime, answers[k]) && ids[k].pid == pid {
      i := k;
    } else {
      i := PassedChecked(ids[..k], answers[..k], pid);
    }
  }

  function PrimaryPid(c: Course, q: Request): Option<int> {
    if c.NoPrimary? || c.Mismatch? || q.primary.None? then None else Some(q.primary.value.pid)
  }

  lemma RestOnly(q: Request, c: Course, passed: seq<int>, start: int)
    requires Possible(q, c, start)
    ensures SignalsOnly(Rest(q, c, passed, start), passed, PrimaryPid(c, q))
  {
    SweepOnly(passed, start, PrimaryPid(c, q));
    if c.Graceful? || c.KillFails? {
      WaitsOnly(q.primary.value.pid, start, start + FAST, c.polls);
    } else if c.Killed? {
      KilledOnly(q, c, passed, start);
    }
  }

  lemma KilledOnly(q: Request, c: Course, passed: seq<int>, start: int)
    requires Possible(q, c, start) && c.Killed?
    ensures SignalsOnly(Rest(q, c, passed, start), passed, PrimaryPid(c, q))
  {
    var id, t, p := q.primary.value, PollTime(start, start + FAST, c.polls), PrimaryPid(c, q);
    WaitsOnly(id.pid, start, start + FAST, c.polls);
    WaitsOnly(id.pid, t, t - 1, c.more);
    SendEachOnly(passed, KILL, t, passed, p);
    var first := FirstWait(id, c.answer, start, c.polls, false);
    var kill := [Event(t, Send(id.pid, KILL))];
    assert SignalsOnly(first, passed, p) && SignalsOnly(kill, passed, p);
    OnlyBoth(kill, SendEach(passed, KILL, t), passed, p);
    OnlyBoth(kill + SendEach(passed, KILL, t), Awaited(id.pid, t, t - 1, c.more, c.dead), passed, p);
    OnlyBoth(first, Escalation(id.pid, passed, t, c.more, c.dead), passed, p);
  }

  /** What a call does about the primary process is decided by its identifier and by what the process table
      says of it: nothing is sent to it exactly if there is none, or if the table does not know it or tells
      another start time than the one recorded. */
  lemma CourseExactly(q: Request, c: Course, answers: seq<Answer>, start: int)
    requires Possible(q, c, start) && |answers| == |q.secondary|
    ensures c.NoPrimary? <==> q.primary.None?
    ensures q.primary.Some? ==>
              var log, id, n := LogOf(q, c, answers, start), q.primary.value, |q.secondary|;
              && n < |log| && log[n] == Event(start, Check(id, c.answer))
              && (c.Mismatch? <==>
                    c.answer.NoEntry? || (c.answer.StartedAt? && id.startTime > 0 && c.answer.time != id.startTime))
              && (!c.Mismatch? ==> n + 1 < |log| && log[n + 1] == Event(start, Send(id.pid, TERM)))
  {
    var checks, rest := Checks(q.secondary, answers, start), Rest(q, c, Passed(q.secondary, answers), start);
    if q.primary.Some? {
      assert rest[0] == Event(start, Check(q.primary.value, c.answer));
      assert !c.Mismatch? ==> rest[1] == Event(start, Send(q.primary.value.pid, TERM));
    }
  }

  /** What a call reports. */
  lemma OutcomeExactly(q: Request, c: Course, start: int)
    requires Possible(q, c, start)
    ensures OutcomeOf(c).InvalidJob? <==> c.NoPrimary? || c.Mismatch? || (c.TermFails? && c.reply.NoSuchProcess?)
    ensures OutcomeOf(c).CouldNotTerminate? <==> c.TermFails? && c.reply.Refused?
    ensures OutcomeOf(c).CouldNotKill? <==> c.KillFails?
    ensures OutcomeOf(c).StillAlive? <==> c.Killed? && !c.dead
  {
  }

  /** Which processes are checked: those whose identifier can be parsed and whose number is above one, all of
      them and in the order given. */
  lemma {:induction false} AskedInTurn(a: seq<Option<Id>>, b: seq<Option<Id>>)
    ensures Asked(a + b) == Asked(a) + Asked(b)
    ensures |a| == 1 ==> Asked(a) == if a[0].Some? && a[0].value.pid > 1 then [a[0].value] else []
    decreases |b|
  {
    if b == [] {
      assert a + b == a;
    } else {
      var k := |b| - 1;
      AskedInTurn(a, b[..k]);
      assert (a + b)[..|a + b| - 1] == a + b[..k];
    }
    assert |a| == 1 ==> a[..0] == [];
  }

  /** One signal to many: to each process in turn, and to its group right before. */
  lemma {:induction false} SendsExactly(pids: seq<int>, signal: Signal, at: int)
    requires forall i | 0 <= i < |pids| :: pids[i] > 1
    ensures var sends := SendEach(pids, signal, at);
            && |sends| == 2 * |pids|
            && forall i | 0 <= i < |pids| ::
                 && sends[2 * i] == Event(at, Send(-pids[i], signal))
                 && sends[2 * i + 1] == Event(at, Send(pids[i], signal))
    decreases |pids|
  {
    if pids != [] {
      SendsExactly(pids[..|pids| - 1], signal, at);
    }
  }

  /** The secondary processes that may be signalled: those for which the process table was missing, or knew
      them and, if a start time was recorded, told that one. */
  lemma {:induction false} PassedExactly(ids: seq<Id>, answers: seq<Answer>, pid: int)
    requires |ids| == |answers|
    ensures pid in Passed(ids, answers) <==>
              exists i :: 0 <= i < |ids| && ids[i].pid == pid
                && (|| answers[i].NoTable?
                    || (answers[i].StartedAt? && (ids[i].startTime == 0 || answers[i].time == ids[i].startTime)))
    decreases |ids|
  {
    if ids != [] {
      PassedExactly(ids[..|ids| - 1], answers[..|ids| - 1], pid);
    }
  }

  /** No signal is ever sent to a process, or to a process group, whose identity was not checked before in
      the same call and found to match what was recorded. */
  lemma NoSignalUnverified(q: Request, c: Course, answers: seq<Answer>, start: int, i: nat)
    requires Possible(q, c, start) && |answers| == |q.secondary|
    requires i < |LogOf(q, c, answers, start)| && LogOf(q, c, answers, start)[i].deed.Send?
    ensures var log := LogOf(q, c, answers, start);
            Verified(log, i, log[i].deed.target) || (log[i].deed.target < -1 && Verified(log, i, -log[i].deed.target))
  {
    var log, checks := LogOf(q, c, answers, start), Checks(q.secondary, answers, start);
    var passed := Passed(q.secondary, answers);
    var rest, n := Rest(q, c, passed, start), |Checks(q.secondary, answers, start)|;
    RestOnly(q, c, passed, start);
    assert i >= n && log[i] == rest[i - n];
    var target := log[i].deed.target;
    var pid := if target < 0 then -target else target;
    if pid > 1 && pid in passed {
      var j := PassedChecked(q.secondary, answers, pid);
      assert log[j] == checks[j];
    } else {
      assert target == q.primary.value.pid;
      assert log[n] == rest[0] && rest[0].deed.Check?;
    }
  }

  lemma {:induction false} PollTimes(start: int, fastUntil: int, k: nat)
    ensures start + 50 * k <= PollTime(start, fastUntil, k) <= start + 250 * k
    decreases k
  {
    if k > 0 {
      PollTimes(start, fastUntil, k - 1);
    }
  }

  /** When the wait is over, the deadline has passed by no more than the last sleep. */
  lemma WaitBound(start: int, fastUntil: int, deadline: int, k: nat, dead: bool)
    requires WaitOk(start, fastUntil, deadline, k, dead) && start <= deadline
    ensures start <= PollTime(start, fastUntil, k) <= deadline + 250
    ensures deadline <= fastUntil ==> PollTime(start, fastUntil, k) <= deadline + 50
    ensures !dead ==> PollTime(start, fastUntil, k) > deadline
  {
    PollTimes(start, fastUntil, k);
  }

  /** A wait that was in vain: the polite signal, no other signal, and at the end a look that found life. */
  lemma FirstWaitShape(id: Id, a: Answer, start: int, k: nat, dead: bool)
    ensures var f := FirstWait(id, a, start, k, dead);
            && |f| == 2 * k + 3 && f[1] == Event(start, Send(id.pid, TERM))
            && f[|f| - 1] == Event(PollTime(start, start + FAST, k), Poll(id.pid, dead))
            && forall i | 0 <= i < |f| && f[i].deed.Send? :: i == 1
  {
    var f, w := FirstWait(id, a, start, k, dead), Waits(id.pid, start, start + FAST, k);
    WaitsLength(id.pid, start, start + FAST, k);
    WaitsOnly(id.pid, start, start + FAST, k);
    assert forall i | 2 <= i < |f| - 1 :: f[i] == w[i - 2];
  }

  /** The primary process is killed only after it was sent the polite signal, and only right after it was
      seen alive past the deadline, by no more than a quarter of a second; nothing else that is done
      before is a signal. */
  lemma KillIsTheLastResort(q: Request, c: Course, answers: seq<Answer>, start: int)
    requires Possible(q, c, start) && |answers| == |q.secondary| && (c.Killed? || c.KillFails?)
    ensures var log, pid, n := LogOf(q, c, answers, start), q.primary.value.pid, |q.secondary| + 2 * c.polls + 3;
            && n < |log| && log[n].deed == Send(pid, KILL)
            && log[n - 1] == Event(log[n].at, Poll(pid, false))
            && start + q.timeout < log[n].at <= start + q.timeout + 250
            && log[|q.secondary| + 1] == Event(start, Send(pid, TERM))
            && forall i | 0 <= i < n && log[i].deed.Send? :: i == |q.secondary| + 1
  {
    var id, passed := q.primary.value, Passed(q.secondary, answers);
    var checks := Checks(q.secondary, answers, start);
    var first := FirstWait(q.primary.value, c.answer, start, c.polls, false);
    var t, rest := PollTime(start, start + FAST, c.polls), Rest(q, c, passed, start);
    WaitBound(start, start + FAST, start + q.timeout, c.polls, false);
    FirstWaitShape(id, c.answer, start, c.polls, false);
    var end := rest[|first|..];
    assert rest == first + end && end[0] == Event(t, Send(id.pid, KILL));
    Positions(checks, first, end);
    assert forall i | 0 <= i < |checks| :: checks[i].deed.Check?;
  }

  lemma Positions(a: Log, b: Log, c: Log)
    ensures forall i | 0 <= i < |a| :: (a + (b + c))[i] == a[i]
    ensures forall i | |a| <= i < |a| + |b| :: (a + (b + c))[i] == b[i - |a|]
    ensures |c| > 0 ==> (a + (b + c))[|a| + |b|] == c[0]
  {
  }

  lemma {:induction false} WaitsLength(pid: int, start: int, fastUntil: int, k: nat)
    ensures |Waits(pid, start, fastUntil, k)| == 2 * k
    decreases k
  {
    if k > 0 {
      WaitsLength(pid, start, fastUntil, k - 1);
    }
  }

  /** Whenever the primary process is unknown, not what was recorded, or cannot be signalled, every
      secondary process that was verified is sent the polite signal and, a fifth of a second later, killed. */
  lemma UnreachablePrimarySweeps(q: Request, c: Course, answers: seq<Answer>, start: int)
    requires Possible(q, c, start) && |answers| == |q.secondary| && (c.NoPrimary? || c.Mismatch? || c.TermFails?)
    ensures var log, passed := LogOf(q, c, answers, start), Passed(q.secondary, answers);
            forall p | p in passed && p > 1 ::
              && Event(start, Send(-p, TERM)) in log && Event(start, Send(p, TERM)) in log
              && Event(start + 200, Send(-p, KILL)) in log && Event(start + 200, Send(p, KILL)) in log
  {
    var log, passed := LogOf(q, c, answers, start), Passed(q.secondary, answers);
    assert forall e | e in Sweep(passed, start) :: e in Rest(q, c, passed, start);
    forall p | p in passed && p > 1
      ensures Event(start, Send(-p, TERM)) in log && Event(start, Send(p, TERM)) in log
      ensures Event(start + 200, Send(-p, KILL)) in log && Event(start + 200, Send(p, KILL)) in log
    {
      SentEach(passed, TERM, start, p);
      SentEach(passed, KILL, start + SWEEP_WAIT, p);
    }
  }

  lemma {:induction false} SentEach(pids: seq<int>, signal: Signal, at: int, p: int)
    requires p in pids && p > 1
    ensures Event(at, Send(-p, signal)) in SendEach(pids, signal, at)
    ensures Event(at, Send(p, signal)) in SendEach(pids, signal, at)
    decreases |pids|
  {
    var k := |pids| - 1;
    if pids[k] != p {
      SentEach(pids[..k], signal, at, p);
    }
  }

  /** When the primary process had to be killed, every verified secondary process and its group are killed
      at the same moment, unless the primary one refused the signal. */
  lemma EscalationReachesAll(q: Request, c: Course, answers: seq<Answer>, start: int, p: int)
    requires Possible(q, c, start) && |answers| == |q.secondary| && c.Killed?
    requires p in Passed(q.secondary, answers) && p > 1
    ensures var log, t := LogOf(q, c, answers, start), PollTime(start, start + FAST, c.polls);
            && Event(t, Send(q.primary.value.pid, KILL)) in log
            && Event(t, Send(-p, KILL)) in log && Event(t, Send(p, KILL)) in log
  {
    var passed, t := Passed(q.secondary, answers), PollTime(start, start + FAST, c.polls);
    SentEach(passed, KILL, t, p);
    var escalation := Escalation(q.primary.value.pid, passed, t, c.more, c.dead);
    assert forall e | e in SendEach(passed, KILL, t) :: e in escalation;
    assert escalation[0] in escalation;
    assert forall e | e in escalation :: e in Rest(q, c, passed, start);
  }

  /** A call reports success exactly if the last thing it did was to find the primary process dead. */
  lemma EndedExactly(q: Request, c: Course, answers: seq<Answer>, start: int)
    requires Possible(q, c, start) && |answers| == |q.secondary|
    ensures var log := LogOf(q, c, answers, start);
            OutcomeOf(c).Ended? <==>
              q.primary.Some? && |log| > 0 && log[|log| - 1].deed == Poll(q.primary.value.pid, true)
  {
    var log, passed := LogOf(q, c, answers, start), Passed(q.secondary, answers);
    var rest := Rest(q, c, passed, start);
    assert rest != [] ==> log[|log| - 1] == rest[|rest| - 1];
    if c.NoPrimary? || c.Mismatch? || c.TermFails? {
      SweepEnds(passed, start);
    }
  }

  lemma {:induction false} SendEachEnds(pids: seq<int>, signal: Signal, at: int)
    ensures forall e | e in SendEach(pids, signal, at) :: e.deed.Send?
    decreases |pids|
  {
    if pids != [] {
      SendEachEnds(pids[..|pids| - 1], signal, at);
    }
  }

  lemma SweepEnds(pids: seq<int>, at: int)
    ensures forall e | e in Sweep(pids, at) :: !e.deed.Poll?
  {
    SendEachEnds(pids, TERM, at);
    SendEachEnds(pids, KILL, at + SWEEP_WAIT);
  }

  /** Every call ends at the latest five and a half seconds after the time it was given. */
  lemma EndsInTime(q: Request, c: Course, passed: seq<int>, start: int)
    requires Possible(q, c, start)
    ensures start <= EndTime(q, c, passed, start) <= start + q.timeout + 250 + 5000 + 250
    ensures c.Graceful? ==> EndTime(q, c, passed, start) <= start + q.timeout + 250
  {
    if c.Graceful? || c.KillFails? || c.Killed? {
      WaitBound(start, start + FAST, start + q.timeout, c.polls, c.Graceful?);
    }
    if c.Killed? {
      var t := PollTime(start, start + FAST, c.polls);
      WaitBound(t, t - 1, t + KILL_WAIT, c.more, c.dead);
    }
  }

  lemma {:induction false} PollTimeGrows(start: int, fastUntil: int, j: nat, k: nat)
    requires j <= k
    ensures PollTime(start, fastUntil, j) <= PollTime(start, fastUntil, k)
    decreases k
  {
    if j < k {
      PollTimeGrows(start, fastUntil, j, k - 1);
    }
  }

  /** The poll and the sleep of one round of a wait. */
  lemma {:induction false} WaitsAt(pid: int, start: int, fastUntil: int, k: nat, j: nat)
    requires j < k
    ensures var w, t := Waits(pid, start, fastUntil, k), PollTime(start, fastUntil, j);
            && |w| == 2 * k && w[2 * j] == Event(t, Poll(pid, false))
            && w[2 * j + 1] == Event(t, Sleep(if t > fastUntil then 250 else 50))
    decreases k
  {
    WaitsLength(pid, start, fastUntil, k - 1);
    if j < k - 1 {
      WaitsAt(pid, start, fastUntil, k - 1, j);
    }
  }

  /** What `k` rounds of a wait log from position `i` on: each is a look that finds the process alive, no
      later than the deadline, and a sleep of 50 ms or, past the first stretch, of 250; the next look
      follows when the sleep is over. */
  ghost predicate Rounds(log: Log, i: nat, k: nat, pid: int, start: int, fastUntil: int, deadline: int) {
    && i + 2 * k < |log| && log[i].at == start
    && forall j | 0 <= j < k :: Round(log, i + 2 * j, pid, fastUntil, deadline)
  }

  predicate Round(log: Log, i: nat, pid: int, fastUntil: int, deadline: int)
    requires i + 2 < |log|
  {
    var t := log[i].at;
    var ms := if t > fastUntil then 250 else 50;
    && log[i].deed == Poll(pid, false) && t <= deadline
    && log[i + 1] == Event(t, Sleep(ms)) && log[i + 2].at == t + ms
  }

  lemma AwaitedRounds(before: Log, pid: int, start: int, fastUntil: int, deadline: int, k: nat, dead: bool, after: Log)
    requires WaitOk(start, fastUntil, deadline, k, dead)
    ensures var log, i := before + (Awaited(pid, start, fastUntil, k, dead) + after), |before|;
            && Rounds(log, i, k, pid, start, fastUntil, deadline)
            && log[i + 2 * k].deed == Poll(pid, dead) && (!dead ==> log[i + 2 * k].at > deadline)
  {
    var w, i := Waits(pid, start, fastUntil, k), |before|;
    var log := before + (Awaited(pid, start, fastUntil, k, dead) + after);
    WaitsLength(pid, start, fastUntil, k);
    assert forall x | 0 <= x < 2 * k :: log[i + x] == w[x];
    assert log[i + 2 * k] == Event(PollTime(start, fastUntil, k), Poll(pid, dead));
    forall j | 0 <= j < k ensures Round(log, i + 2 * j, pid, fastUntil, deadline) {
      WaitsAt(pid, start, fastUntil, k, j);
      PollTimeGrows(start, fastUntil, j, k - 1);
      NextLook(log, i, w, pid, start, fastUntil, k, j);
    }
    if k > 0 {
      WaitsAt(pid, start, fastUntil, k, 0);
    }
  }

  lemma NextLook(log: Log, i: nat, w: Log, pid: int, start: int, fastUntil: int, k: nat, j: nat)
    requires j < k && w == Waits(pid, start, fastUntil, k) && |w| == 2 * k && i + 2 * k < |log|
    requires forall x | 0 <= x < 2 * k :: log[i + x] == w[x]
    requires log[i + 2 * k].at == PollTime(start, fastUntil, k)
    ensures log[i + 2 * j + 2].at == PollTime(start, fastUntil, j + 1)
  {
    if j + 1 < k {
      WaitsAt(pid, start, fastUntil, k, j + 1);
      assert log[i + 2 * (j + 1)] == w[2 * (j + 1)];
    }
  }

  predicate Waited(c: Course) {
    c.Graceful? || c.KillFails? || c.Killed?
  }

  /** What a call that waits logs before the first wait, and after it. */
  function BeforeWait(q: Request, c: Course, answers: seq<Answer>, start: int): Log
    requires q.primary.Some? && Waited(c) && |answers| == |q.secondary|
  {
    Checks(q.secondary, answers, start)
    + [Event(start, Check(q.primary.value, c.answer)), Event(start, Send(q.primary.value.pid, TERM))]
  }

  function AfterWait(q: Request, c: Course, passed: seq<int>, t: int): Log
    requires q.primary.Some? && Waited(c)
  {
    if c.Graceful? then []
    else if c.KillFails? then [Event(t, Send(q.primary.value.pid, KILL))]
    else Escalation(q.primary.value.pid, passed, t, c.more, c.dead)
  }

  lemma WaitInLog(q: Request, c: Course, answers: seq<Answer>, start: int)
    requires Possible(q, c, start) && |answers| == |q.secondary| && Waited(c)
    ensures var t, first := PollTime(start, start + FAST, c.polls),
                            Awaited(q.primary.value.pid, start, start + FAST, c.polls, c.Graceful?);
            LogOf(q, c, answers, start) ==
              BeforeWait(q, c, answers, start) + (first + AfterWait(q, c, Passed(q.secondary, answers), t))
  {
  }

  /** The wait for the primary process to end by itself, look by look: for the first second the sleeps are
      short, the deadline is the time that was given, and the last look decides the course. */
  lemma FirstWaitExactly(q: Request, c: Course, answers: seq<Answer>, start: int)
    requires Possible(q, c, start) && |answers| == |q.secondary| && Waited(c)
    ensures var log, pid, n := LogOf(q, c, answers, start), q.primary.value.pid, |q.secondary| + 2;
            && Rounds(log, n, c.polls, pid, start, start + 1000, start + q.timeout)
            && log[n + 2 * c.polls].deed == Poll(pid, c.Graceful?)
  {
    var t := PollTime(start, start + FAST, c.polls);
    WaitInLog(q, c, answers, start);
    AwaitedRounds(BeforeWait(q, c, answers, start), q.primary.value.pid, start, start + FAST, start + q.timeout,
                  c.polls, c.Graceful?, AfterWait(q, c, Passed(q.secondary, answers), t));
  }

  lemma KillInLog(before: Log, first: Log, pid: int, t: int, passed: seq<int>, more: nat, dead: bool)
    ensures var kill := before + first + ([Event(t, Send(pid, KILL))] + SendEach(passed, KILL, t));
            var last := Awaited(pid, t, t - 1, more, dead);
            && before + (first + Escalation(pid, passed, t, more, dead)) == kill + (last + [])
            && kill[|before| + |first|] == Event(t, Send(pid, KILL)) && |before| + |first| < |kill|
  {
  }

  lemma LastRounds(log: Log, kill: Log, n: nat, pid: int, t: int, more: nat, dead: bool)
    requires n < |kill| && kill[n] == Event(t, Send(pid, KILL)) && WaitOk(t, t - 1, t + KILL_WAIT, more, dead)
    requires log == kill + (Awaited(pid, t, t - 1, more, dead) + [])
    ensures var m := |log| - 1 - 2 * more;
            && n < m && log[n].deed == Send(pid, KILL)
            && Rounds(log, m, more, pid, log[n].at, log[n].at - 1, log[n].at + 5000)
            && log[|log| - 1].deed == Poll(pid, dead) && (!dead ==> log[|log| - 1].at > log[n].at + 5000)
  {
    WaitsLength(pid, t, t - 1, more);
    AwaitedRounds(kill, pid, t, t - 1, t + KILL_WAIT, more, dead, []);
  }

  /** What is logged up to the second wait. */
  lemma LogAtKill(q: Request, c: Course, answers: seq<Answer>, start: int) returns (kill: Log)
    requires Possible(q, c, start) && |answers| == |q.secondary| && c.Killed?
    ensures var pid, t := q.primary.value.pid, PollTime(start, start + FAST, c.polls);
            var n := |q.secondary| + 3 + 2 * c.polls;
            && LogOf(q, c, answers, start) == kill + (Awaited(pid, t, t - 1, c.more, c.dead) + [])
            && n < |kill| && kill[n] == Event(t, Send(pid, KILL))
  {
    var pid, passed, t := q.primary.value.pid, Passed(q.secondary, answers), PollTime(start, start + FAST, c.polls);
    var before, first := BeforeWait(q, c, answers, start), Awaited(pid, start, start + FAST, c.polls, false);
    WaitInLog(q, c, answers, start);
    KillInLog(before, first, pid, t, passed, c.more, c.dead);
    WaitsLength(pid, start, start + FAST, c.polls);
    kill := before + first + ([Event(t, Send(pid, KILL))] + SendEach(passed, KILL, t));
  }

  /** The wait after the kill: long sleeps, and five seconds; a process that is given up was seen alive
      after that. */
  lemma LastWaitExactly(q: Request, c: Course, answers: seq<Answer>, start: int)
    requires Possible(q, c, start) && |answers| == |q.secondary| && c.Killed?
    ensures var log, pid := LogOf(q, c, answers, start), q.primary.value.pid;
            var n, m := |q.secondary| + 3 + 2 * c.polls, |log| - 1 - 2 * c.more;
            && n < m && log[n].deed == Send(pid, KILL)
            && Rounds(log, m, c.more, pid, log[n].at, log[n].at - 1, log[n].at + 5000)
            && log[|log| - 1].deed == Poll(pid, c.dead) && (!c.dead ==> log[|log| - 1].at > log[n].at + 5000)
  {
    var t := PollTime(start, start + FAST, c.polls);
    var kill := LogAtKill(q, c, answers, start);
    LastRounds(LogOf(q, c, answers, start), kill, |q.secondary| + 3 + 2 * c.polls, q.primary.value.pid, t,
               c.more, c.dead);
  }
}
