/** Pulling one image into a shared directory, from any number of goroutines in any number of processes. */
module ImagePull {
  import opened Wrappers

  datatype Content = Partial | Complete

  datatype Result = Found | Pulled | Failed

  /** Where a call of Pull stands: its first look for the image, waiting for the lock, about to look again,
      downloading to its temporary file, about to rename it, about to remove it after a failure, about to
      release the lock, or back at its caller; `Dead` once its process has crashed. */
  datatype Pc =
    | Looking
    | WantsLock
    | HasLock
    | Downloading(stamp: nat)
    | Downloaded(stamp: nat)
    | Cleaning(stamp: nat)
    | Releasing(result: Result)
    | Done(result: Result)
    | Dead

  datatype Puller = Puller(process: nat, pc: Pc) {
    predicate Locked() {
      pc.HasLock? || pc.Downloading? || pc.Downloaded? || pc.Cleaning? || pc.Releasing?
    }

    predicate Uses(stamp: nat) {
      (pc.Downloading? || pc.Downloaded? || pc.Cleaning?) && pc.stamp == stamp
    }

    predicate Succeeded() {
      (pc.Releasing? || pc.Done?) && pc.result.Pulled?
    }

    predicate Got() {
      (pc.Releasing? || pc.Done?) && !pc.result.Failed?
    }
  }

  /** `temps` are the temporary files, by the time stamp in their name; `used` are the stamps ever taken. */
  datatype System = System(
    pullers: seq<Puller>,
    target: Option<Content>,
    temps: map<nat, Content>,
    used: set<nat>,
    deleted: bool
  )

  datatype Action =
    | NewPull(process: nat)
    | Look(g: nat)
    | Lock(g: nat)
    | Recheck(g: nat, stamp: nat)
    | DownloadOk(g: nat)
    | DownloadFails(g: nat)
    | Rename(g: nat)
    | RenameFails(g: nat)
    | Clean(g: nat, removed: bool)
    | Unlock(g: nat)
    | Crash(process: nat)
    | CleanupTempFiles(stamps: set<nat>)
    | OrphanWrites(orphan: nat, content: Content)
    | DeleteTarget

  predicate Free(s: System, process: nat) {
    forall h | 0 <= h < |s.pullers| && s.pullers[h].process == process :: !s.pullers[h].Locked()
  }

  predicate InUse(s: System, stamp: nat) {
    exists h :: 0 <= h < |s.pullers| && s.pullers[h].Uses(stamp)
  }

  predicate Acts(a: Action) {
    || a.Look? || a.Lock? || a.Recheck? || a.DownloadOk? || a.DownloadFails?
    || a.Rename? || a.RenameFails? || a.Clean? || a.Unlock?
  }

  predicate Enabled(s: System, a: Action) {
    if Acts(a) then
      a.g < |s.pullers| &&
      var p := s.pullers[a.g];
      match a
        case Look(_) => p.pc.Looking?
        case Lock(_) => p.pc.WantsLock? && Free(s, p.process)
        // No two downloads ever take the same time stamp.
        case Recheck(_, stamp) => p.pc.HasLock? && (s.target.None? ==> stamp !in s.used)
        case DownloadOk(_) => p.pc.Downloading?
        case DownloadFails(_) => p.pc.Downloading?
        case Rename(_) => p.pc.Downloaded? && p.pc.stamp in s.temps
        case RenameFails(_) => p.pc.Downloaded?
        case Clean(_, _) => p.pc.Cleaning?
        case _ => p.pc.Releasing?
    else
      // What the download tool of a crashed process still writes goes to that process's temporary file.
      a.OrphanWrites? ==> a.orphan in s.used && !InUse(s, a.orphan)
  }

  function At(s: System, g: nat, pc: Pc): System
    requires g < |s.pullers|
  {
    s.(pullers := s.pullers[g := s.pullers[g].(pc := pc)])
  }

  function Crashed(pullers: seq<Puller>, process: nat): seq<Puller> {
    seq(|pullers|, h requires 0 <= h < |pullers| =>
      if pullers[h].process == process && !pullers[h].pc.Done? then pullers[h].(pc := Dead) else pullers[h])
  }

  function Next(s: System, a: Action): System
    requires Enabled(s, a)
  {
    match a
      case NewPull(p) => s.(pullers := s.pullers + [Puller(p, Looking)])
      case Look(g) => At(s, g, if s.target.Some? then Done(Found) else WantsLock)
      case Lock(g) => At(s, g, HasLock)
      case Recheck(g, stamp) =>
        if s.target.Some? then At(s, g, Releasing(Found))
        else At(s, g, Downloading(stamp)).(temps := s.temps[stamp := Partial], used := s.used + {stamp})
      case DownloadOk(g) =>
        At(s, g, Downloaded(s.pullers[g].pc.stamp)).(temps := s.temps[s.pullers[g].pc.stamp := Complete])
      case DownloadFails(g) => At(s, g, Cleaning(s.pullers[g].pc.stamp))
      case Rename(g) =>
        var stamp := s.pullers[g].pc.stamp;
        At(s, g, Releasing(Pulled)).(target := Some(s.temps[stamp]), temps := s.temps - {stamp})
      case RenameFails(g) => At(s, g, Cleaning(s.pullers[g].pc.stamp))
      case Clean(g, removed) =>
        At(s, g, Releasing(Failed)).(temps := if removed then s.temps - {s.pullers[g].pc.stamp} else s.temps)
      case Unlock(g) => At(s, g, Done(s.pullers[g].pc.result))
      case Crash(p) => s.(pullers := Crashed(s.pullers, p))
      case CleanupTempFiles(stamps) => s.(temps := s.temps - stamps)
      case OrphanWrites(stamp, content) => s.(temps := s.temps[stamp := content])
      case DeleteTarget => s.(target := None, deleted := true)
  }

  const START := System([], None, map[], {}, false)

  ghost predicate Run(states: seq<System>, actions: seq<Action>) {
    && |states| == |actions| + 1
    && states[0] == START
    && forall k | 0 <= k < |actions| :: Enabled(states[k], actions[k]) && states[k + 1] == Next(states[k], actions[k])
  }

  // ---------------------------------------------------------------- invariants

  /** In one process only one call is between Lock and Unlock. */
  predicate Exclusive(s: System) {
    forall g, h | 0 <= g < |s.pullers| && 0 <= h < |s.pullers| && s.pullers[g].Locked() && s.pullers[h].Locked()
      && s.pullers[g].process == s.pullers[h].process :: g == h
  }

  /** Temporary files are not shared. */
  ghost predicate Apart(s: System) {
    && (forall g, st: nat | 0 <= g < |s.pullers| && s.pullers[g].Uses(st) :: st in s.used)
    && forall g, h, st: nat | 0 <= g < |s.pullers| && 0 <= h < |s.pullers| ::
         s.pullers[g].Uses(st) && s.pullers[h].Uses(st) ==> g == h
  }

  /** What is ready to be renamed is a finished download. */
  predicate ReadyComplete(s: System) {
    forall g | 0 <= g < |s.pullers| && s.pullers[g].pc.Downloaded? && s.pullers[g].pc.stamp in s.temps ::
      s.temps[s.pullers[g].pc.stamp].Complete?
  }

  predicate TargetComplete(s: System) {
    s.target.Some? ==> s.target.value.Complete?
  }

  /** While nobody deletes the image, whoever got it still has it; and the one call that pulled it, if any,
      was followed by no other download in its process. */
  predicate Kept(s: System) {
    !s.deleted ==>
      && (forall g | 0 <= g < |s.pullers| && s.pullers[g].Got() :: s.target.Some?)
      && forall g, h | 0 <= g < |s.pullers| && 0 <= h < |s.pullers| && s.pullers[g].Succeeded()
           && s.pullers[g].process == s.pullers[h].process && Busy(s.pullers[h]) :: g == h
  }

  predicate Busy(p: Puller) {
    p.Succeeded() || p.pc.Downloading? || p.pc.Downloaded?
  }

  ghost predicate Inv(s: System) {
    Exclusive(s) && Apart(s) && ReadyComplete(s) && TargetComplete(s) && Kept(s)
  }

  lemma ExclusiveKept(s: System, a: Action)
    requires Exclusive(s) && Enabled(s, a)
    ensures Exclusive(Next(s, a))
  {
    var n := Next(s, a);
    forall g | 0 <= g < |n.pullers| && n.pullers[g].Locked()
      ensures g < |s.pullers| && n.pullers[g].process == s.pullers[g].process
      ensures s.pullers[g].Locked() || (a == Lock(g) && Free(s, s.pullers[g].process))
    {
    }
  }

  lemma ApartKept(s: System, a: Action)
    requires Apart(s) && Enabled(s, a)
    ensures Apart(Next(s, a))
  {
    var n := Next(s, a);
    forall g, st: nat | 0 <= g < |n.pullers| && n.pullers[g].Uses(st)
      ensures g < |s.pullers| && (s.pullers[g].Uses(st) || (a == Recheck(g, st) && st !in s.used))
    {
    }
  }

  lemma ReadyKept(s: System, a: Action)
    requires Apart(s) && ReadyComplete(s) && Enabled(s, a)
    ensures ReadyComplete(Next(s, a))
  {
    var n := Next(s, a);
    forall g | 0 <= g < |n.pullers| && n.pullers[g].pc.Downloaded? && n.pullers[g].pc.stamp in n.temps
      ensures n.temps[n.pullers[g].pc.stamp].Complete?
    {
      var st := n.pullers[g].pc.stamp;
      if a != DownloadOk(g) {
        assert s.pullers[g] == n.pullers[g] && s.pullers[g].Uses(st);
        assert st in s.used;
        if a.DownloadOk? {
          assert s.pullers[a.g].Uses(s.pullers[a.g].pc.stamp);
        }
      }
    }
  }

  lemma TargetKept(s: System, a: Action)
    requires ReadyComplete(s) && TargetComplete(s) && Enabled(s, a)
    ensures TargetComplete(Next(s, a))
  {
  }

  lemma GotKept(s: System, a: Action)
    requires Kept(s) && Enabled(s, a) && !Next(s, a).deleted
    ensures forall g | 0 <= g < |Next(s, a).pullers| && Next(s, a).pullers[g].Got() :: Next(s, a).target.Some?
  {
    var n := Next(s, a);
    forall g | 0 <= g < |n.pullers| && n.pullers[g].Got()
      ensures n.target.Some?
    {
      assert g < |s.pullers| && (s.pullers[g].Got() || s.target.Some? || a == Rename(g));
    }
  }

  lemma SuccessKept(s: System, a: Action, g: nat, h: nat)
    requires Exclusive(s) && Kept(s) && Enabled(s, a) && !Next(s, a).deleted
    requires var n := Next(s, a);
             && g < |n.pullers| && h < |n.pullers| && n.pullers[g].Succeeded()
             && n.pullers[g].process == n.pullers[h].process && Busy(n.pullers[h])
    ensures g == h
  {
    var n := Next(s, a);
    assert g < |s.pullers| && h < |s.pullers|;
    if a == Rename(g) {
      assert s.pullers[g].Locked() && Busy(s.pullers[g]);
      assert Busy(s.pullers[h]);
    } else {
      assert s.pullers[g].Succeeded() && s.target.Some?;
      assert Busy(s.pullers[h]);
    }
  }

  lemma KeptKept(s: System, a: Action)
    requires Exclusive(s) && Kept(s) && Enabled(s, a)
    ensures Kept(Next(s, a))
  {
    var n := Next(s, a);
    if !n.deleted {
      GotKept(s, a);
      forall g, h | 0 <= g < |n.pullers| && 0 <= h < |n.pullers| && n.pullers[g].Succeeded()
          && n.pullers[g].process == n.pullers[h].process && Busy(n.pullers[h])
        ensures g == h
      {
        SuccessKept(s, a, g, h);
      }
    }
  }

  lemma {:induction false} RunInv(states: seq<System>, actions: seq<Action>)
    requires Run(states, actions)
    ensures Inv(states[|actions|])
    decreases |actions|
  {
    if actions != [] {
      var k := |actions| - 1;
      RunInv(states[..k + 1], actions[..k]);
      ExclusiveKept(states[k], actions[k]);
      ApartKept(states[k], actions[k]);
      ReadyKept(states[k], actions[k]);
      TargetKept(states[k], actions[k]);
      KeptKept(states[k], actions[k]);
    }
  }

  /** Whatever the interleaving, the failures and the crashes: the image, when it is there, is a finished
      download, and a process is never downloading it twice at a time.  If nobody deletes it, a process
      pulls it at most once, and every call that reported it can rely on it.  All this is about names
      that do not begin with a slash: both looks are at the file that is pulled. */
  lemma PullIsSafe(states: seq<System>, actions: seq<Action>)
    requires Run(states, actions)
    ensures var s := states[|actions|];
            && (s.target.Some? ==> s.target.value.Complete?)
            && (forall g, h | 0 <= g < h < |s.pullers| && s.pullers[g].process == s.pullers[h].process ::
                  !(s.pullers[g].pc.Downloading? && s.pullers[h].pc.Downloading?))
            && (!s.deleted ==>
                  && (forall g, h | 0 <= g < h < |s.pullers| && s.pullers[g].process == s.pullers[h].process ::
                        !(s.pullers[g].Succeeded() && s.pullers[h].Succeeded()))
                  && forall g | 0 <= g < |s.pullers| && s.pullers[g].Got() :: s.target == Some(Complete))
  {
    var s := states[|actions|];
    RunInv(states, actions);
    assert forall g | 0 <= g < |s.pullers| && s.pullers[g].pc.Downloading? :: s.pullers[g].Locked();
    assert forall g | 0 <= g < |s.pullers| && s.pullers[g].Succeeded() :: Busy(s.pullers[g]);
  }

  // ---------------------------------------------------------------- what a call reports

  function ResultOf(pc: Pc): Option<Result> {
    match pc
      case Releasing(r) => Some(r)
      case Done(r) => Some(r)
      case Cleaning(_) => Some(Failed)
      case _ => None
  }

  /** What a call that lives reports: that it found the image, exactly if one of its looks did; that it pulled
      it, exactly if it renamed its download; and a failure exactly if its download or that rename failed. */
  predicate Reports(s: System, g: nat, found: bool, renamed: bool, failed: bool) {
    if g >= |s.pullers| then !found && !renamed && !failed
    else
      var pc := s.pullers[g].pc;
      pc.Dead? || ((ResultOf(pc) == Some(Found) <==> found)
                   && (ResultOf(pc) == Some(Pulled) <==> renamed)
                   && (ResultOf(pc) == Some(Failed) <==> failed))
  }

  predicate Looks(a: Action, g: nat) {
    a == Look(g) || (a.Recheck? && a.g == g)
  }

  predicate Fails(a: Action, g: nat) {
    a == DownloadFails(g) || a == RenameFails(g)
  }

  lemma ReportsOn(s: System, a: Action, g: nat, found: bool, renamed: bool, failed: bool)
    requires Enabled(s, a) && Reports(s, g, found, renamed, failed)
    ensures Reports(Next(s, a), g, found || (Looks(a, g) && s.target.Some?), renamed || a == Rename(g),
                    failed || Fails(a, g))
  {
  }

  /** One of the first `n` steps was a look of the call that found the image. */
  predicate FoundIt(states: seq<System>, actions: seq<Action>, n: nat, g: nat)
    requires n <= |actions| <= |states|
  {
    n > 0 && (FoundIt(states, actions, n - 1, g) || (Looks(actions[n - 1], g) && states[n - 1].target.Some?))
  }

  predicate RenamedIt(actions: seq<Action>, n: nat, g: nat)
    requires n <= |actions|
  {
    n > 0 && (RenamedIt(actions, n - 1, g) || actions[n - 1] == Rename(g))
  }

  predicate FailedIt(actions: seq<Action>, n: nat, g: nat)
    requires n <= |actions|
  {
    n > 0 && (FailedIt(actions, n - 1, g) || Fails(actions[n - 1], g))
  }

  lemma {:induction false} ReportedExactly(states: seq<System>, actions: seq<Action>, n: nat, g: nat)
    requires Run(states, actions) && n <= |actions|
    ensures Reports(states[n], g, FoundIt(states, actions, n, g), RenamedIt(actions, n, g), FailedIt(actions, n, g))
  {
    if n > 0 {
      var s, a := states[n - 1], actions[n - 1];
      ReportedExactly(states, actions, n - 1, g);
      assert states[n] == Next(s, a);
      ReportsOn(s, a, g, FoundIt(states, actions, n - 1, g), RenamedIt(actions, n - 1, g), FailedIt(actions, n - 1, g));
    }
  }

  // ---------------------------------------------------------------- the code

  /** The steps lead from one state to the other. */
  ghost predicate Leads(s: System, acts: seq<Action>, e: System)
    decreases |acts|
  {
    if acts == [] then s == e
    else
      var k := |acts| - 1;
      exists m :: Leads(s, acts[..k], m) && Enabled(m, acts[k]) && e == Next(m, acts[k])
  }

  lemma LeadsOn(s: System, acts: seq<Action>, m: System, a: Action)
    requires Leads(s, acts, m) && Enabled(m, a)
    ensures Leads(s, acts + [a], Next(m, a))
  {
    assert (acts + [a])[..|acts|] == acts;
  }

  /** Which of the tools a call uses succeed: the download, the rename, and removing the temporary file. */
  datatype Tools = Tools(downloads: bool, renames: bool, removes: bool)

  /** The temporary files once a download that was begun is over. */
  function LeftOver(temps: map<nat, Content>, stamp: nat, tools: Tools): map<nat, Content> {
    if (tools.downloads && tools.renames) || tools.removes then temps - {stamp}
    else temps[stamp := if tools.downloads then Complete else Partial]
  }

  lemma Begun(temps: map<nat, Content>, stamp: nat, tools: Tools)
    ensures LeftOver(temps[stamp := Partial], stamp, tools) == LeftOver(temps, stamp, tools)
  {
  }

  /** The directory as one call sees it while no other is at work; each assignment is one file operation. */
  class ImageDir {
    var target: Option<Content>
    var temps: map<nat, Content>

    predicate Shows(s: System)
      reads this
    {
      target == s.target && temps == s.temps
    }

    /** An undisturbed call takes its steps one after the other.  If the image is there it does nothing;
        otherwise it succeeds exactly if the download and the rename do, and only a failure can leave
        something else behind than the image: the temporary file that could not be removed. */
    method Pull(ghost s: System, ghost g: nat, stamp: nat, tools: Tools)
        returns (r: Result, ghost acts: seq<Action>, ghost e: System)
      requires Shows(s) && g < |s.pullers| && s.pullers[g].pc.Looking? && Free(s, s.pullers[g].process)
      requires stamp !in s.used
      requires TargetComplete(s)
      modifies this
      ensures Leads(s, acts, e) && Shows(e) && g < |e.pullers| && e.pullers[g].pc == Done(r)
      ensures old(target).Some? ==> r.Found? && target == old(target) && temps == old(temps)
      ensures old(target).None? && tools.downloads && tools.renames ==>
                r.Pulled? && target == Some(Complete) && temps == old(temps) - {stamp}
      ensures old(target).None? && !(tools.downloads && tools.renames) ==>
                && r.Failed? && target == None
                && temps == (if tools.removes then old(temps) - {stamp}
                             else old(temps)[stamp := if tools.downloads then Complete else Partial])
    {
      acts, e := [], s;
      acts, e := Step(s, acts, e, Look(g));
      if target.Some? {
        r := Found;
      } else {
        acts, e := Step(s, acts, e, Lock(g));
        acts, e := Step(s, acts, e, Recheck(g, stamp));
        temps := temps[stamp := Partial];
        r, acts, e := Download(s, g, stamp, tools, acts, e);
        Begun(old(temps), stamp, tools);
        acts, e := Step(s, acts, e, Unlock(g));
      }
    }

    method Download(ghost s: System, ghost g: nat, stamp: nat, tools: Tools, ghost before: seq<Action>,
                    ghost m: System)
        returns (r: Result, ghost acts: seq<Action>, ghost e: System)
      requires Leads(s, before, m) && Shows(m) && g < |m.pullers| && m.pullers[g].pc == Downloading(stamp)
      requires stamp in temps && temps[stamp] == Partial
      modifies this
      ensures Leads(s, acts, e) && Shows(e) && g < |e.pullers| && e.pullers[g].pc == Releasing(r)
      ensures if tools.downloads && tools.renames then r.Pulled? && target == Some(Complete)
              else r.Failed? && target == old(target)
      ensures temps == LeftOver(old(temps), stamp, tools)
    {
      if tools.downloads {
        acts, e := Step(s, before, m, DownloadOk(g));
        temps := temps[stamp := Complete];
        assert temps - {stamp} == old(temps) - {stamp};
        r, acts, e := Publish(s, g, stamp, tools, acts, e);
      } else {
        assert old(temps)[stamp := Partial] == old(temps);
        acts, e := Step(s, before, m, DownloadFails(g));
        acts, e := Discard(s, g, stamp, tools.removes, acts, e);
        r := Failed;
      }
    }

    /** A finished download is renamed to the image, or removed if that fails. */
    method Publish(ghost s: System, ghost g: nat, stamp: nat, tools: Tools, ghost before: seq<Action>,
                   ghost m: System)
        returns (r: Result, ghost acts: seq<Action>, ghost e: System)
      requires Leads(s, before, m) && Shows(m) && g < |m.pullers| && m.pullers[g].pc == Downloaded(stamp)
      requires stamp in temps && temps[stamp] == Complete
      modifies this
      ensures Leads(s, acts, e) && Shows(e) && g < |e.pullers| && e.pullers[g].pc == Releasing(r)
      ensures if tools.renames then r.Pulled? && target == Some(Complete) else r.Failed? && target == old(target)
      ensures temps == if tools.renames || tools.removes then old(temps) - {stamp} else old(temps)
    {
      if tools.renames {
        acts, e := Step(s, before, m, Rename(g));
        target, temps := Some(temps[stamp]), temps - {stamp};
        r := Pulled;
      } else {
        acts, e := Step(s, before, m, RenameFails(g));
        acts, e := Discard(s, g, stamp, tools.removes, acts, e);
        r := Failed;
      }
    }

    /** Removing the temporary file after a failure may itself fail, which is ignored. */
    method Discard(ghost s: System, ghost g: nat, stamp: nat, removed: bool, ghost before: seq<Action>,
                   ghost m: System)
        returns (ghost acts: seq<Action>, ghost e: System)
      requires Leads(s, before, m) && Shows(m) && g < |m.pullers| && m.pullers[g].pc == Cleaning(stamp)
      modifies this`temps
      ensures Leads(s, acts, e) && Shows(e) && g < |e.pullers| && e.pullers[g].pc == Releasing(Failed)
      ensures temps == if removed then old(temps) - {stamp} else old(temps)
    {
      acts, e := Step(s, before, m, Clean(g, removed));
      if removed {
        temps := temps - {stamp};
      }
    }
  }

  ghost method Step(s: System, acts: seq<Action>, m: System, a: Action) returns (more: seq<Action>, e: System)
    requires Leads(s, acts, m) && Enabled(m, a)
    ensures more == acts + [a] && e == Next(m, a) && Leads(s, more, e)
  {
    LeadsOn(s, acts, m, a);
    more, e := acts + [a], Next(m, a);
  }
}
