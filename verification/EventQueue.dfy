/** The bounded queue between the file watcher and the workers, and how it shuts down. */
module EventQueue {

  type Event = nat

  // ---------------------------------------------------------------- the protocol

  /** A call of Push: waiting for the read lock, past it, in the select statement, about to release the
      lock, or back at its caller. */
  datatype PushPc = Waiting | Admitted | Selecting | Leaving | Returned

  /** `ctx` tells whether the call was given a context, and so learns of the cancellation. */
  datatype Push = Push(event: Event, ctx: bool, pc: PushPc) {
    predicate Reads() {
      pc.Admitted? || pc.Selecting? || pc.Leaving?
    }
  }

  datatype Worker = Listening | Processing(event: Event) | WantsLock | HoldsLock | Unlocking | Exited {
    predicate Writes() {
      HoldsLock? || Unlocking?
    }
  }

  /** `accepted` and `taken` list the events that ever went into and came out of the queue. */
  datatype System = System(
    cap: nat,
    queue: seq<Event>,
    finished: bool,
    cancelled: bool,
    pushes: seq<Push>,
    workers: seq<Worker>,
    accepted: seq<Event>,
    taken: seq<Event>
  )

  datatype Action =
    | Cancel
    | NewPush(event: Event, ctx: bool)
    | RLock(i: nat)
    | CheckFinished(i: nat)
    | Enqueue(i: nat)
    | GiveUp(i: nat)
    | RUnlock(i: nat)
    | Take(j: nat)
    | Processed(j: nat)
    | Shutdown(j: nat)
    | Lock(j: nat)
    | SetFinished(j: nat)
    | Unlock(j: nat)

  predicate NoReader(s: System) {
    forall i | 0 <= i < |s.pushes| :: !s.pushes[i].Reads()
  }

  predicate NoWriter(s: System) {
    forall j | 0 <= j < |s.workers| :: !s.workers[j].Writes()
  }

  predicate NoneWantsLock(s: System) {
    forall j | 0 <= j < |s.workers| :: !s.workers[j].WantsLock?
  }

  predicate PushAt(s: System, i: nat, pc: PushPc) {
    i < |s.pushes| && s.pushes[i].pc == pc
  }

  predicate WorkerAt(s: System, j: nat, w: Worker) {
    j < |s.workers| && s.workers[j] == w
  }

  predicate Enabled(s: System, a: Action) {
    match a
      case Cancel => true
      case NewPush(_, _) => true
      case RLock(i) => PushAt(s, i, Waiting) && NoWriter(s)
      case CheckFinished(i) => PushAt(s, i, Admitted)
      case Enqueue(i) => PushAt(s, i, Selecting) && |s.queue| < s.cap
      case GiveUp(i) => PushAt(s, i, Selecting) && s.pushes[i].ctx && s.cancelled
      case RUnlock(i) => PushAt(s, i, Leaving)
      case Take(j) => WorkerAt(s, j, Listening) && |s.queue| > 0
      case Processed(j) => j < |s.workers| && s.workers[j].Processing?
      case Shutdown(j) => WorkerAt(s, j, Listening) && s.cancelled
      case Lock(j) => WorkerAt(s, j, WantsLock) && NoReader(s) && NoWriter(s)
      case SetFinished(j) => WorkerAt(s, j, HoldsLock)
      case Unlock(j) => WorkerAt(s, j, Unlocking)
  }

  /** The lock may make a reader wait as soon as a writer asks for it.  Safety is shown for the runs in
      which it does not, too; progress only counts on a reader being let in when it must be. */
  predicate Ready(s: System, a: Action) {
    Enabled(s, a) && (a.RLock? ==> NoneWantsLock(s))
  }

  function SetPc(s: System, i: nat, pc: PushPc): System
    requires i < |s.pushes|
  {
    s.(pushes := s.pushes[i := s.pushes[i].(pc := pc)])
  }

  function SetWorker(s: System, j: nat, w: Worker): System
    requires j < |s.workers|
  {
    s.(workers := s.workers[j := w])
  }

  function Next(s: System, a: Action): System
    requires Enabled(s, a)
  {
    match a
      case Cancel => s.(cancelled := true)
      case NewPush(e, ctx) => s.(pushes := s.pushes + [Push(e, ctx, Waiting)])
      case RLock(i) => SetPc(s, i, Admitted)
      case CheckFinished(i) => SetPc(s, i, if s.finished then Leaving else Selecting)
      case Enqueue(i) =>
        SetPc(s, i, Leaving).(queue := s.queue + [s.pushes[i].event], accepted := s.accepted + [s.pushes[i].event])
      case GiveUp(i) => SetPc(s, i, Leaving)
      case RUnlock(i) => SetPc(s, i, Returned)
      case Take(j) => SetWorker(s, j, Processing(s.queue[0])).(queue := s.queue[1..], taken := s.taken + [s.queue[0]])
      case Processed(j) => SetWorker(s, j, Listening)
      case Shutdown(j) => SetWorker(s, j, WantsLock)
      case Lock(j) => SetWorker(s, j, HoldsLock)
      case SetFinished(j) => SetWorker(s, j, Unlocking).(finished := true)
      case Unlock(j) => SetWorker(s, j, Exited)
  }

  function Start(cap: nat, workers: nat): System {
    System(cap, [], false, false, [], seq(workers, _ => Listening), [], [])
  }

  ghost predicate Steps(states: seq<System>, actions: seq<Action>) {
    && |states| == |actions| + 1
    && forall k | 0 <= k < |actions| :: Enabled(states[k], actions[k]) && states[k + 1] == Next(states[k], actions[k])
  }

  ghost predicate Run(states: seq<System>, actions: seq<Action>, cap: nat, workers: nat) {
    Steps(states, actions) && states[0] == Start(cap, workers)
  }

  // ---------------------------------------------------------------- safety

  predicate Fifo(s: System) {
    s.accepted == s.taken + s.queue && |s.queue| <= s.cap
  }

  predicate Exclusive(s: System) {
    && (NoReader(s) || NoWriter(s))
    && forall j, k | 0 <= j < |s.workers| && 0 <= k < |s.workers| ::
         s.workers[j].Writes() && s.workers[k].Writes() ==> j == k
  }

  /** Once finished, no call is in the select statement. */
  predicate Quiet(s: System) {
    s.finished ==> forall i | 0 <= i < |s.pushes| :: !s.pushes[i].pc.Selecting?
  }

  predicate Inv(s: System) {
    Fifo(s) && Exclusive(s) && Quiet(s)
  }

  lemma FifoKept(s: System, a: Action)
    requires Fifo(s) && Enabled(s, a)
    ensures Fifo(Next(s, a))
  {
    if a.Take? {
      assert s.queue == [s.queue[0]] + s.queue[1..];
      assert s.taken + s.queue == (s.taken + [s.queue[0]]) + s.queue[1..];
    } else if a.Enqueue? {
      var e := s.pushes[a.i].event;
      assert (s.taken + s.queue) + [e] == s.taken + (s.queue + [e]);
    }
  }

  lemma ReadersKept(s: System, a: Action)
    requires Exclusive(s) && Enabled(s, a)
    ensures NoReader(Next(s, a)) || NoWriter(Next(s, a))
  {
    var n := Next(s, a);
    if a.Lock? {
      assert NoReader(n);
    } else if NoWriter(s) {
      assert forall j | 0 <= j < |n.workers| && n.workers[j].Writes() :: s.workers[j].Writes();
    } else {
      var j :| 0 <= j < |s.workers| && s.workers[j].Writes();
      forall i | 0 <= i < |n.pushes| ensures !n.pushes[i].Reads() {
        assert i < |s.pushes| ==> !s.pushes[i].Reads();
      }
    }
  }

  lemma WritersKept(s: System, a: Action)
    requires Exclusive(s) && Enabled(s, a)
    ensures var n := Next(s, a);
            forall j, k | 0 <= j < |n.workers| && 0 <= k < |n.workers| ::
              n.workers[j].Writes() && n.workers[k].Writes() ==> j == k
  {
    var n := Next(s, a);
    forall j | 0 <= j < |n.workers| && n.workers[j].Writes()
      ensures s.workers[j].Writes() || (a == Lock(j) && NoWriter(s))
    {
    }
  }

  lemma QuietKept(s: System, a: Action)
    requires Exclusive(s) && Quiet(s) && Enabled(s, a)
    ensures Quiet(Next(s, a))
  {
    var n := Next(s, a);
    if n.finished {
      forall i | 0 <= i < |n.pushes| ensures !n.pushes[i].pc.Selecting? {
        if a.SetFinished? {
          assert s.workers[a.j].Writes() && NoReader(s);
          assert !s.pushes[i].Reads();
        } else {
          assert i < |s.pushes| ==> !s.pushes[i].pc.Selecting?;
        }
      }
    }
  }

  lemma {:induction false} RunInv(states: seq<System>, actions: seq<Action>, cap: nat, workers: nat)
    requires Run(states, actions, cap, workers)
    ensures Inv(states[|actions|])
    decreases |actions|
  {
    if actions != [] {
      var k := |actions| - 1;
      RunInv(states[..k + 1], actions[..k], cap, workers);
      FifoKept(states[k], actions[k]);
      ReadersKept(states[k], actions[k]);
      WritersKept(states[k], actions[k]);
      QuietKept(states[k], actions[k]);
    }
  }

  /** In every reachable state the events accepted are those taken followed by those queued, in order, and
      the queue is within its bound. */
  lemma AcceptedInOrder(states: seq<System>, actions: seq<Action>, cap: nat, workers: nat)
    requires Run(states, actions, cap, workers)
    ensures var s := states[|actions|]; s.accepted == s.taken + s.queue && |s.queue| <= cap
  {
    RunInv(states, actions, cap, workers);
    CapKept(states, actions);
  }

  lemma {:induction false} CapKept(states: seq<System>, actions: seq<Action>)
    requires Steps(states, actions)
    ensures states[|actions|].cap == states[0].cap
    decreases |actions|
  {
    if actions != [] {
      var k := |actions| - 1;
      CapKept(states[..k + 1], actions[..k]);
    }
  }

  /** From the moment the queue is finished, nothing more is accepted. */
  lemma {:induction false} NothingAfterFinished(states: seq<System>, actions: seq<Action>, cap: nat, workers: nat,
                                                k: nat)
    requires Run(states, actions, cap, workers) && k <= |actions| && states[k].finished
    ensures states[|actions|].finished && states[|actions|].accepted == states[k].accepted
    decreases |actions|
  {
    if k < |actions| {
      var m := |actions| - 1;
      NothingAfterFinished(states[..m + 1], actions[..m], cap, workers, k);
      RunInv(states[..m + 1], actions[..m], cap, workers);
    }
  }

  // ---------------------------------------------------------------- shutdown

  predicate AllDone(s: System) {
    && (forall i | 0 <= i < |s.pushes| :: s.pushes[i].pc.Returned?)
    && forall j | 0 <= j < |s.workers| :: s.workers[j].Exited?
  }

  /** The one way to get stuck: the queue is full, a call without a context is waiting to add to it, every
      worker has gone or is waiting for that call to release the lock, and so are the other calls. */
  predicate Stuck(s: System) {
    && |s.queue| == s.cap
    && (exists i | 0 <= i < |s.pushes| :: s.pushes[i].pc.Selecting?)
    && (forall j | 0 <= j < |s.workers| :: s.workers[j].WantsLock? || s.workers[j].Exited?)
    && forall i | 0 <= i < |s.pushes| ::
         || s.pushes[i].pc.Returned?
         || (s.pushes[i].pc.Selecting? && !s.pushes[i].ctx)
         || (s.pushes[i].pc.Waiting? && !NoneWantsLock(s))
  }

  ghost predicate Halted(s: System) {
    forall a: Action | !a.Cancel? && !a.NewPush? :: !Ready(s, a)
  }

  lemma WorkerMoves(s: System, j: nat) returns (a: Action)
    requires s.cancelled && j < |s.workers| && !s.workers[j].WantsLock? && !s.workers[j].Exited?
    ensures Ready(s, a) && !a.Cancel? && !a.NewPush?
  {
    match s.workers[j]
      case Listening => a := Shutdown(j);
      case Processing(_) => a := Processed(j);
      case HoldsLock => a := SetFinished(j);
      case Unlocking => a := Unlock(j);
  }

  lemma PushMoves(s: System, i: nat) returns (a: Action)
    requires s.cancelled && |s.queue| <= s.cap && i < |s.pushes|
    requires var p := s.pushes[i];
             || p.pc.Admitted? || p.pc.Leaving? || (p.pc.Selecting? && (p.ctx || |s.queue| < s.cap))
             || (p.pc.Waiting? && NoneWantsLock(s) && NoWriter(s))
    ensures Ready(s, a) && !a.Cancel? && !a.NewPush?
  {
    var p := s.pushes[i];
    match p.pc
      case Waiting => a := RLock(i);
      case Admitted => a := CheckFinished(i);
      case Selecting => a := if p.ctx then GiveUp(i) else Enqueue(i);
      case Leaving => a := RUnlock(i);
  }

  /** Everyone who is not stuck has a step to take. */
  lemma SomeoneMoves(s: System) returns (a: Action)
    requires Inv(s) && s.cancelled && !AllDone(s) && !Stuck(s)
    ensures Ready(s, a) && !a.Cancel? && !a.NewPush?
  {
    if j: nat :| j < |s.workers| && !s.workers[j].WantsLock? && !s.workers[j].Exited? {
      a := WorkerMoves(s, j);
    } else {
      assert NoWriter(s);
      if i: nat :| i < |s.pushes| && Movable(s, s.pushes[i]) {
        a := PushMoves(s, i);
      } else {
        assert forall i: nat | i < |s.pushes| :: !Movable(s, s.pushes[i]);
        a := LastLock(s);
      }
    }
  }

  predicate Movable(s: System, p: Push) {
    || p.pc.Admitted? || p.pc.Leaving? || (p.pc.Selecting? && (p.ctx || |s.queue| < s.cap))
    || (p.pc.Waiting? && NoneWantsLock(s))
  }

  /** With no reader left, a worker that wants the lock gets it. */
  lemma LastLock(s: System) returns (a: Action)
    requires !AllDone(s) && NoWriter(s)
    requires forall j | 0 <= j < |s.workers| :: s.workers[j].WantsLock? || s.workers[j].Exited?
    requires forall i | 0 <= i < |s.pushes| :: !Movable(s, s.pushes[i]) && !s.pushes[i].pc.Selecting?
    ensures Ready(s, a) && !a.Cancel? && !a.NewPush?
  {
    assert NoReader(s) by {
      forall i | 0 <= i < |s.pushes| ensures !s.pushes[i].Reads() {
        assert !Movable(s, s.pushes[i]);
      }
    }
    assert NoneWantsLock(s) ==> AllDone(s);
    var j: nat :| j < |s.workers| && s.workers[j].WantsLock?;
    a := Lock(j);
  }

  lemma StuckHalts(s: System, a: Action)
    requires Stuck(s) || AllDone(s)
    requires !a.Cancel? && !a.NewPush?
    ensures !Ready(s, a)
  {
    if Stuck(s) {
      var i :| 0 <= i < |s.pushes| && s.pushes[i].pc.Selecting?;
      assert s.pushes[i].Reads();
    }
  }

  /** After the cancellation the protocol comes to a halt in just two ways: all calls and workers have
      returned, or a call without a context is stuck at a full queue. */
  lemma HaltsExactly(s: System)
    requires Inv(s) && s.cancelled
    ensures Halted(s) <==> AllDone(s) || Stuck(s)
  {
    if AllDone(s) || Stuck(s) {
      forall a: Action | !a.Cancel? && !a.NewPush? ensures !Ready(s, a) {
        StuckHalts(s, a);
      }
    } else {
      var a := SomeoneMoves(s);
    }
  }

  lemma OneMore(states: seq<System>, actions: seq<Action>, a: Action, t: System)
      returns (states': seq<System>, actions': seq<Action>)
    requires Steps(states, actions) && Enabled(states[|actions|], a) && t == Next(states[|actions|], a)
    ensures states' == states + [t] && actions' == actions + [a]
    ensures Steps(states', actions') && states'[0] == states[0] && states'[|actions'|] == t
  {
    states', actions' := states + [t], actions + [a];
    forall k | 0 <= k < |actions'|
      ensures Enabled(states'[k], actions'[k]) && states'[k + 1] == Next(states'[k], actions'[k])
    {
      assert states'[k] == states[k];
    }
  }

  /** A queue for one event and one worker, with two calls of Push that were given no context. */
  function OneOne(first: PushPc, second: PushPc, queue: seq<Event>, cancelled: bool, w: Worker): System {
    System(1, queue, false, cancelled, [Push(1, false, first), Push(2, false, second)], [w], queue, [])
  }

  /** Two calls without a context are made. */
  lemma TwoCalls() returns (states: seq<System>, actions: seq<Action>)
    ensures Run(states, actions, 1, 1) && states[|actions|] == OneOne(Waiting, Waiting, [], false, Listening)
  {
    states, actions := [Start(1, 1)], [];
    assert Start(1, 1).workers == [Listening];
    var one := Start(1, 1).(pushes := [Push(1, false, Waiting)]);
    states, actions := OneMore(states, actions, NewPush(1, false), one);
    states, actions := OneMore(states, actions, NewPush(2, false), OneOne(Waiting, Waiting, [], false, Listening));
  }

  /** The first of them fills the queue and returns. */
  lemma FirstFills() returns (states: seq<System>, actions: seq<Action>)
    ensures Run(states, actions, 1, 1) && states[|actions|] == OneOne(Returned, Waiting, [1], false, Listening)
  {
    states, actions := TwoCalls();
    states, actions := OneMore(states, actions, RLock(0), OneOne(Admitted, Waiting, [], false, Listening));
    states, actions := OneMore(states, actions, CheckFinished(0), OneOne(Selecting, Waiting, [], false, Listening));
    states, actions := OneMore(states, actions, Enqueue(0), OneOne(Leaving, Waiting, [1], false, Listening));
    states, actions := OneMore(states, actions, RUnlock(0), OneOne(Returned, Waiting, [1], false, Listening));
  }

  /** The stuck state is reached: one call fills the queue, the other one waits to add to it when the
      worker, cancelled, asks for the lock. */
  lemma StuckReached() returns (states: seq<System>, actions: seq<Action>)
    ensures Run(states, actions, 1, 1) && states[|actions|].cancelled
    ensures Stuck(states[|actions|]) && !AllDone(states[|actions|]) && Halted(states[|actions|])
  {
    states, actions := FirstFills();
    states, actions := OneMore(states, actions, RLock(1), OneOne(Returned, Admitted, [1], false, Listening));
    states, actions := OneMore(states, actions, CheckFinished(1), OneOne(Returned, Selecting, [1], false, Listening));
    states, actions := OneMore(states, actions, Cancel, OneOne(Returned, Selecting, [1], true, Listening));
    states, actions := OneMore(states, actions, Shutdown(0), OneOne(Returned, Selecting, [1], true, WantsLock));
    assert states[|actions|].pushes[1].pc.Selecting?;
    RunInv(states, actions, 1, 1);
    HaltsExactly(states[|actions|]);
  }

  function PushWeight(p: Push): nat {
    match p.pc
      case Waiting => 14
      case Admitted => 13
      case Selecting => 12
      case Leaving => 1
      case Returned => 0
  }

  function WorkerWeight(w: Worker): nat {
    match w
      case Listening => 4
      case Processing(_) => 8
      case WantsLock => 3
      case HoldsLock => 2
      case Unlocking => 1
      case Exited => 0
  }

  function Sum<T>(xs: seq<T>, f: T -> nat): nat {
    if xs == [] then 0 else Sum(xs[..|xs| - 1], f) + f(xs[|xs| - 1])
  }

  lemma {:induction false} SumUpdate<T>(xs: seq<T>, f: T -> nat, i: nat, x: T)
    requires i < |xs|
    ensures Sum(xs[i := x], f) + f(xs[i]) == Sum(xs, f) + f(x)
    decreases |xs|
  {
    var k := |xs| - 1;
    if i < k {
      SumUpdate(xs[..k], f, i, x);
      assert xs[i := x][..k] == xs[..k][i := x];
    } else {
      assert xs[i := x][..k] == xs[..k];
    }
  }

  /** How much work is left. */
  function Rank(s: System): nat {
    Sum(s.pushes, PushWeight) + Sum(s.workers, WorkerWeight) + 5 * |s.queue|
  }

  lemma RankDrops(s: System, a: Action)
    requires Enabled(s, a) && !a.Cancel? && !a.NewPush?
    ensures Rank(Next(s, a)) < Rank(s)
  {
    var n := Next(s, a);
    if a.RLock? || a.CheckFinished? || a.Enqueue? || a.GiveUp? || a.RUnlock? {
      SumUpdate(s.pushes, PushWeight, a.i, n.pushes[a.i]);
    } else {
      SumUpdate(s.workers, WorkerWeight, a.j, n.workers[a.j]);
    }
  }

  lemma {:induction false} RankBounds(states: seq<System>, actions: seq<Action>)
    requires Steps(states, actions) && forall a | a in actions :: !a.Cancel? && !a.NewPush?
    ensures |actions| + Rank(states[|actions|]) <= Rank(states[0])
    decreases |actions|
  {
    if actions != [] {
      var k := |actions| - 1;
      RankBounds(states[..k + 1], actions[..k]);
      RankDrops(states[k], actions[k]);
    }
  }

  lemma {:induction false} StaysCancelled(states: seq<System>, actions: seq<Action>, k: nat)
    requires Steps(states, actions) && k <= |actions| && states[k].cancelled
    ensures states[|actions|].cancelled
    decreases |actions|
  {
    if k < |actions| {
      var m := |actions| - 1;
      StaysCancelled(states[..m + 1], actions[..m], k);
    }
  }

  predicate AllHaveContext(s: System) {
    forall i | 0 <= i < |s.pushes| :: s.pushes[i].ctx
  }

  /** Shutdown: once cancelled and without further calls, a run takes a bounded number of steps; and when
      every call was given the context, it can only stop with all calls and workers returned. */
  lemma ShutdownCompletes(states: seq<System>, actions: seq<Action>, cap: nat, workers: nat, k: nat)
    requires Run(states, actions, cap, workers) && k <= |actions| && states[k].cancelled
    requires forall a | a in actions[k..] :: !a.Cancel? && !a.NewPush?
    ensures |actions| - k <= Rank(states[k])
    ensures Halted(states[|actions|]) && AllHaveContext(states[|actions|]) ==> AllDone(states[|actions|])
  {
    RankBounds(states[k..], actions[k..]);
    RunInv(states, actions, cap, workers);
    StaysCancelled(states, actions, k);
    HaltsExactly(states[|actions|]);
  }

  // ---------------------------------------------------------------- before the cancellation

  /** Nobody has begun to shut down. */
  predicate Open(s: System) {
    && !s.finished
    && forall j | 0 <= j < |s.workers| :: s.workers[j].Listening? || s.workers[j].Processing?
  }

  /** Counts the calls with this event that are past the select statement. */
  function PassedWith(e: Event): Push -> nat {
    (p: Push) => if p.event == e && (p.pc.Leaving? || p.pc.Returned?) then 1 else 0
  }

  lemma PassedNext(s: System, a: Action, e: Event)
    requires Enabled(s, a) && Open(s) && !Next(s, a).cancelled
    requires multiset(s.accepted)[e] == Sum(s.pushes, PassedWith(e))
    ensures multiset(Next(s, a).accepted)[e] == Sum(Next(s, a).pushes, PassedWith(e))
  {
    var n, f := Next(s, a), PassedWith(e);
    if a.NewPush? {
      assert n.pushes[..|s.pushes|] == s.pushes;
    } else if a.RLock? || a.CheckFinished? || a.Enqueue? || a.GiveUp? || a.RUnlock? {
      SumUpdate(s.pushes, f, a.i, n.pushes[a.i]);
    }
  }

  /** As long as nothing is cancelled, no worker leaves and no event is dropped: each is accepted exactly as
      often as there are calls with it that are past the queue. */
  lemma {:induction false} NothingDropped(states: seq<System>, actions: seq<Action>, cap: nat, workers: nat, e: Event)
    requires Run(states, actions, cap, workers) && !states[|actions|].cancelled
    ensures Open(states[|actions|])
    ensures multiset(states[|actions|].accepted)[e] == Sum(states[|actions|].pushes, PassedWith(e))
    decreases |actions|
  {
    if actions != [] {
      var k := |actions| - 1;
      assert states[k + 1] == Next(states[k], actions[k]);
      NothingDropped(states[..k + 1], actions[..k], cap, workers, e);
      PassedNext(states[k], actions[k], e);
    }
  }
}
