/** Watching a directory by comparing two snapshots of it that take turns. */
module Poller {
  import opened Wrappers

  datatype FileInfo = FileInfo(isDir: bool, mode: int, modTime: int, size: int)

  datatype Listed = Listed(name: string, info: FileInfo)

  /** What the operating system answers when the watched path is looked at: the stat call may fail or
      find nothing; a directory may be gone when it is opened, refuse to be read, or give its entries. */
  datatype Probe =
    | StatFails
    | Missing
    | Plain(info: FileInfo)
    | Vanished(info: FileInfo)
    | Unreadable(info: FileInfo)
    | Listing(info: FileInfo, listed: seq<Listed>)
  {
    predicate Consistent() {
      match this
        case Plain(fi) => !fi.isDir
        case Vanished(fi) => fi.isDir
        case Unreadable(fi) => fi.isDir
        case Listing(fi, _) => fi.isDir
        case _ => true
    }

    predicate Fails() {
      StatFails? || Unreadable?
    }
  }

  type Entries = map<string, FileInfo>

  datatype Snapshot = Snapshot(info: Option<FileInfo>, entries: Entries) {
    predicate IsDir() {
      info.Some? && info.value.isDir
    }

    /** Only directories have entries. */
    predicate Sound() {
      !IsDir() ==> entries == map[]
    }

    function Names(): set<string> {
      entries.Keys
    }
  }

  const NOTHING := Snapshot(None, map[])

  function Indexed(listed: seq<Listed>): Entries {
    if listed == [] then map[]
    else var last := listed[|listed| - 1]; Indexed(listed[..|listed| - 1])[last.name := last.info]
  }

  /** The snapshot a recording holds after a look, whether or not that look failed. */
  function Recorded(p: Probe): (s: Snapshot)
    requires p.Consistent()
    ensures s.Sound()
  {
    match p
      case StatFails => NOTHING
      case Missing => NOTHING
      case Plain(fi) => Snapshot(Some(fi), map[])
      case Vanished(fi) => Snapshot(Some(fi), map[])
      case Unreadable(fi) => Snapshot(Some(fi), map[])
      case Listing(fi, listed) => Snapshot(Some(fi), Indexed(listed))
  }

  /** No later entry has the name of this one. */
  predicate LastOfName(listed: seq<Listed>, i: nat) {
    i < |listed| && forall j | i < j < |listed| :: listed[j].name != listed[i].name
  }

  lemma {:induction false} IndexedLast(listed: seq<Listed>, i: nat)
    requires LastOfName(listed, i)
    ensures listed[i].name in Indexed(listed) && Indexed(listed)[listed[i].name] == listed[i].info
    decreases |listed|
  {
    if i < |listed| - 1 {
      IndexedLast(listed[..|listed| - 1], i);
    }
  }

  lemma {:induction false} IndexedListed(listed: seq<Listed>, n: string)
    ensures n in Indexed(listed) ==> exists i :: 0 <= i < |listed| && listed[i].name == n
    decreases |listed|
  {
    if listed != [] {
      IndexedListed(listed[..|listed| - 1], n);
    }
  }

  /** What a look leaves: the stat result, unless there was none, whatever happened after it; and, of a
      directory that could be listed, exactly the names listed, each with what was last said of it. */
  lemma LookExactly(p: Probe)
    requires p.Consistent()
    ensures Recorded(p).info == if p.StatFails? || p.Missing? then None else Some(p.info)
    ensures !p.Listing? ==> Recorded(p).entries == map[]
    ensures p.Listing? ==>
              && (forall n :: n in Recorded(p).entries ==> exists i :: 0 <= i < |p.listed| && p.listed[i].name == n)
              && forall i | 0 <= i < |p.listed| && LastOfName(p.listed, i) ::
                   Get(Recorded(p).entries, p.listed[i].name) == Some(p.listed[i].info)
  {
    if p.Listing? {
      forall n | n in Recorded(p).entries ensures exists i :: 0 <= i < |p.listed| && p.listed[i].name == n {
        IndexedListed(p.listed, n);
      }
      forall i | 0 <= i < |p.listed| && LastOfName(p.listed, i)
        ensures Get(Recorded(p).entries, p.listed[i].name) == Some(p.listed[i].info)
      {
        IndexedLast(p.listed, i);
      }
    }
  }

  datatype Op = Create | Remove | Chmod | Write

  datatype Event = OnItem(op: Op) | OnEntry(op: Op, name: string)

  function CheckChange(a: Option<FileInfo>, b: Option<FileInfo>): Option<Op> {
    if a.None? && b.Some? then Some(Create)
    else if a.Some? && b.None? then Some(Remove)
    else if a.None? && b.None? then None
    else if a.value.isDir || b.value.isDir then None
    else if a.value.mode != b.value.mode then Some(Chmod)
    else if a.value.modTime != b.value.modTime || a.value.size != b.value.size then Some(Write)
    else None
  }

  function Get(entries: Entries, name: string): Option<FileInfo> {
    if name in entries then Some(entries[name]) else None
  }

  function EntryChange(before: Snapshot, after: Snapshot, name: string): Option<Op> {
    CheckChange(Get(before.entries, name), Get(after.entries, name))
  }

  /** No name is reported twice, and none but entries are. */
  predicate OncePerName(evs: seq<Event>) {
    && (forall i | 0 <= i < |evs| :: evs[i].OnEntry?)
    && forall i, j | 0 <= i < j < |evs| :: evs[i].name != evs[j].name
  }

  /** What two good snapshots lead to. */
  ghost predicate Reports(evs: seq<Event>, before: Snapshot, after: Snapshot) {
    var op := CheckChange(before.info, after.info);
    if op.Some? then evs == [OnItem(op.value)]
    else if !before.IsDir() then evs == []
    else
      && OncePerName(evs)
      && forall o, n :: OnEntry(o, n) in evs <==> EntryChange(before, after, n) == Some(o)
  }

  /** What one poll sends, given the snapshot of the poll before. */
  ghost predicate PollSends(evs: seq<Event>, before: Snapshot, p: Probe)
    requires p.Consistent()
  {
    if p.Fails() then evs == [] else Reports(evs, before, Recorded(p))
  }

  predicate BothFiles(a: Option<FileInfo>, b: Option<FileInfo>) {
    a.Some? && b.Some? && !a.value.isDir && !b.value.isDir
  }

  /** What a good poll says of an entry of a watched directory, one by one: that it is new, that it is
      gone, or, of a plain file, that its mode changed, or else that its time or size did. */
  lemma EntryTold(evs: seq<Event>, before: Snapshot, p: Probe, n: string)
    requires p.Consistent() && !p.Fails() && PollSends(evs, before, p)
    requires before.IsDir() && Recorded(p).info.Some?
    ensures var a, b := Get(before.entries, n), Get(Recorded(p).entries, n);
            && (OnEntry(Create, n) in evs <==> a.None? && b.Some?)
            && (OnEntry(Remove, n) in evs <==> a.Some? && b.None?)
            && (OnEntry(Chmod, n) in evs <==> BothFiles(a, b) && a.value.mode != b.value.mode)
            && (OnEntry(Write, n) in evs <==>
                  && BothFiles(a, b) && a.value.mode == b.value.mode
                  && (a.value.modTime != b.value.modTime || a.value.size != b.value.size))
            && (forall i | 0 <= i < |evs| :: evs[i].OnEntry?)
  {
  }

  /** What a good poll says of the watched path itself. */
  lemma ItemTold(evs: seq<Event>, before: Snapshot, p: Probe)
    requires p.Consistent() && !p.Fails() && PollSends(evs, before, p)
    ensures var a, b := before.info, Recorded(p).info;
            && (OnItem(Create) in evs <==> a.None? && b.Some?)
            && (OnItem(Remove) in evs <==> a.Some? && b.None?)
            && (OnItem(Chmod) in evs <==> BothFiles(a, b) && a.value.mode != b.value.mode)
            && (OnItem(Write) in evs <==>
                  && BothFiles(a, b) && a.value.mode == b.value.mode
                  && (a.value.modTime != b.value.modTime || a.value.size != b.value.size))
            && ((exists o :: OnItem(o) in evs) ==> |evs| == 1)
  {
  }

  // ---------------------------------------------------------------- the code

  class Recording {
    var info: Option<FileInfo>
    var entries: Entries

    constructor ()
      ensures Held() == NOTHING
    {
      info, entries := None, map[];
    }

    function Held(): Snapshot
      reads this
    {
      Snapshot(info, entries)
    }

    method Clear()
      modifies this
      ensures Held() == NOTHING
    {
      info := None;
      while entries.Keys != {}
        invariant info == None
        decreases entries.Keys
      {
        var k :| k in entries;
        entries := entries - {k};
      }
    }

    method Record(p: Probe) returns (failed: bool)
      requires p.Consistent()
      modifies this
      ensures Held() == Recorded(p) && failed == p.Fails()
    {
      Clear();
      failed := p.Fails();
      if !p.StatFails? && !p.Missing? {
        info := Some(p.info);
      }
      if p.Listing? {
        var i := 0;
        while i < |p.listed|
          invariant 0 <= i <= |p.listed|
          invariant info == Some(p.info) && entries == Indexed(p.listed[..i])
        {
          entries := entries[p.listed[i].name := p.listed[i].info];
          assert p.listed[..i + 1][..i] == p.listed[..i];
          i := i + 1;
        }
        assert p.listed[..i] == p.listed;
      }
    }
  }

  /** The loop over all names of both snapshots, in whatever order the map gives them. */
  method EntryEvents(before: Snapshot, after: Snapshot) returns (evs: seq<Event>)
    ensures OncePerName(evs)
    ensures forall o, n :: OnEntry(o, n) in evs <==> EntryChange(before, after, n) == Some(o)
  {
    evs := [];
    var allNames := before.entries.Keys + after.entries.Keys;
    var rest := allNames;
    while rest != {}
      invariant rest <= allNames && OncePerName(evs)
      invariant forall i | 0 <= i < |evs| :: evs[i].name in allNames - rest
      invariant forall o, n :: OnEntry(o, n) in evs <==>
                  n in allNames - rest && EntryChange(before, after, n) == Some(o)
      decreases rest
    {
      var name :| name in rest;
      var op := EntryChange(before, after, name);
      rest := rest - {name};
      if op.Some? {
        evs := evs + [OnEntry(op.value, name)];
      }
    }
  }

  class ItemToWatch {
    var left: Recording
    var right: Recording?

    constructor (p: Probe)
      requires p.Consistent() && !p.Fails()
      ensures Valid() && left.Held() == Recorded(p)
    {
      left := new Recording();
      right := null;
      new;
      var failed := left.Record(p);
    }

    /** The two buffers are never the same. */
    predicate Valid()
      reads this
    {
      right != left
    }

    method CheckForChanges(p: Probe) returns (evs: seq<Event>, failed: bool)
      requires Valid() && p.Consistent()
      modifies this`right, right
      ensures Valid() && right != null && (right == old(right) || fresh(right))
      ensures left.Held() == old(left.Held()) && right.Held() == Recorded(p)
      ensures failed == p.Fails() && PollSends(evs, left.Held(), p)
    {
      if right == null {
        right := new Recording();
      }
      failed := right.Record(p);
      evs := [];
      if !failed {
        var dirOp := CheckChange(left.info, right.info);
        if dirOp.Some? {
          evs := [OnItem(dirOp.value)];
        } else if left.info.Some? && left.info.value.isDir {
          evs := EntryEvents(left.Held(), right.Held());
        }
      }
    }

    /** One round of the watch loop: the buffers are swapped whether or not the look failed. */
    method Poll(p: Probe) returns (evs: seq<Event>, failed: bool)
      requires Valid() && p.Consistent()
      modifies this, left, right
      ensures Valid() && right == old(left) && (left == old(right) || fresh(left))
      ensures left.Held() == Recorded(p)
      ensures failed == p.Fails() && PollSends(evs, old(left.Held()), p)
    {
      evs, failed := CheckForChanges(p);
      left, right := right, left;
    }

    /** The watch loop over the looks it takes: the events sent are those of a run over snapshots that
        nobody overwrites. */
    method Watch(looks: seq<Probe>) returns (sent: seq<seq<Event>>)
      requires Valid() && forall i | 0 <= i < |looks| :: looks[i].Consistent()
      modifies this, left, right
      ensures Valid()
      ensures Run(old(left.Held()), looks, sent) && left.Held() == Latest(old(left.Held()), looks)
    {
      sent := [];
      ghost var start := left.Held();
      var i := 0;
      while i < |looks|
        invariant 0 <= i <= |looks| && Valid()
        invariant left == old(left) || left == old(right) || fresh(left)
        invariant right == old(left) || right == old(right) || right == null || fresh(right)
        invariant Run(start, looks[..i], sent) && left.Held() == Latest(start, looks[..i])
      {
        var evs, failed := Poll(looks[i]);
        RunGrows(start, looks[..i], sent, looks[i], evs);
        assert looks[..i + 1] == looks[..i] + [looks[i]];
        sent := sent + [evs];
        i := i + 1;
      }
      assert looks[..i] == looks;
    }
  }

  // ---------------------------------------------------------------- runs

  function Latest(start: Snapshot, looks: seq<Probe>): Snapshot
    requires forall i | 0 <= i < |looks| :: looks[i].Consistent()
  {
    if looks == [] then start else Recorded(looks[|looks| - 1])
  }

  /** What a run sends: each round compares the snapshot of its own look with that of the look before. */
  ghost predicate Run(start: Snapshot, looks: seq<Probe>, sent: seq<seq<Event>>)
    requires forall i | 0 <= i < |looks| :: looks[i].Consistent()
    decreases |looks|
  {
    |sent| == |looks| &&
    (looks != [] ==>
       var k := |looks| - 1;
       Run(start, looks[..k], sent[..k]) && PollSends(sent[k], Latest(start, looks[..k]), looks[k]))
  }

  lemma RunGrows(start: Snapshot, looks: seq<Probe>, sent: seq<seq<Event>>, p: Probe, evs: seq<Event>)
    requires p.Consistent() && forall i | 0 <= i < |looks| :: looks[i].Consistent()
    requires Run(start, looks, sent) && PollSends(evs, Latest(start, looks), p)
    ensures Run(start, looks + [p], sent + [evs]) && Latest(start, looks + [p]) == Recorded(p)
  {
    var k := |looks|;
    assert (looks + [p])[..k] == looks && (sent + [evs])[..k] == sent;
  }

  // ---------------------------------------------------------------- replaying the events

  /** What a listener believes: created names are added, removed ones taken out; when the directory itself
      goes away, so do its entries. */
  function Heard(names: set<string>, e: Event): set<string> {
    match e
      case OnItem(op) => if op == Remove then {} else names
      case OnEntry(op, n) => if op == Create then names + {n} else if op == Remove then names - {n} else names
  }

  function Replay(names: set<string>, evs: seq<Event>): set<string> {
    if evs == [] then names else Heard(Replay(names, evs[..|evs| - 1]), evs[|evs| - 1])
  }

  function ReplayAll(names: set<string>, sent: seq<seq<Event>>): set<string> {
    if sent == [] then names else Replay(ReplayAll(names, sent[..|sent| - 1]), sent[|sent| - 1])
  }

  /** As no name is reported twice, the order of the reports does not matter. */
  lemma {:induction false} ReplayedName(names: set<string>, evs: seq<Event>, n: string)
    requires OncePerName(evs)
    ensures n in Replay(names, evs) <==> OnEntry(Create, n) in evs || (n in names && OnEntry(Remove, n) !in evs)
  {
    if evs != [] {
      var k := |evs| - 1;
      var init, last := evs[..k], evs[k];
      ReplayedName(names, init, n);
      assert evs == init + [last];
      assert forall e | e in init :: e.OnEntry? && e.name != last.name;
    }
  }

  /** From one good snapshot to the next, the events lead a listener who knew the names of the one to
      those of the other, exactly if the path was a directory before, or now has no entries. */
  lemma ReplayedPoll(before: Snapshot, after: Snapshot, evs: seq<Event>)
    requires before.Sound() && after.Sound() && Reports(evs, before, after)
    ensures Replay(before.Names(), evs) == after.Names() <==> before.IsDir() || after.entries == map[]
  {
    var op := CheckChange(before.info, after.info);
    if op.Some? || !before.IsDir() {
      assert evs == [] || (evs == [evs[0]] && evs[..0] == []);
    } else {
      forall n ensures n in Replay(before.Names(), evs) <==> n in after.Names() {
        ReplayedName(before.Names(), evs, n);
        assert OnEntry(Create, n) in evs <==> n !in before.entries && n in after.entries;
        assert OnEntry(Remove, n) in evs <==> n in before.entries && n !in after.entries;
      }
    }
    assert after.entries == map[] <==> after.Names() == {};
  }

  /** What a listener is wrong about: names believed in that the latest look did not find, and names
      it found that were never reported. */
  datatype Mistakes = Mistakes(stale: set<string>, missed: set<string>)

  const NO_MISTAKES := Mistakes({}, {})

  /** How one look changes that.  A failed look empties the snapshot and sends nothing.  The path going
      away takes everything with it, and a directory that was none at the look before is not compared. */
  function Misled(before: Snapshot, p: Probe, was: Mistakes): Mistakes
    requires p.Consistent()
  {
    var found := Recorded(p).Names();
    if p.Fails() then Mistakes((before.Names() - was.missed) + was.stale, {})
    else if before.info.Some? && Recorded(p).info.None? then NO_MISTAKES
    else Mistakes(was.stale - found, if before.IsDir() then was.missed * found else found - was.stale)
  }

  function MisledBy(start: Snapshot, looks: seq<Probe>): Mistakes
    requires forall i | 0 <= i < |looks| :: looks[i].Consistent()
    decreases |looks|
  {
    if looks == [] then NO_MISTAKES
    else
      var k := |looks| - 1;
      Misled(Latest(start, looks[..k]), looks[k], MisledBy(start, looks[..k]))
  }

  /** The names a listener believes in, given its mistakes. */
  ghost predicate Believes(names: set<string>, latest: Snapshot, m: Mistakes) {
    names == (latest.Names() - m.missed) + m.stale && m.missed <= latest.Names() && m.stale !! latest.Names()
  }

  lemma SnapshotsSound(start: Snapshot, looks: seq<Probe>)
    requires start.Sound() && forall i | 0 <= i < |looks| :: looks[i].Consistent()
    ensures Latest(start, looks).Sound()
  {
  }

  /** Whatever the looks find and whichever of them fail, the replayed names are those of the latest
      snapshot without the missed ones and with the stale ones; so they are right exactly if there are
      neither. */
  lemma {:induction false} ReplayedRun(start: Snapshot, looks: seq<Probe>, sent: seq<seq<Event>>)
    requires start.Sound() && (forall i | 0 <= i < |looks| :: looks[i].Consistent()) && Run(start, looks, sent)
    ensures var names, m := ReplayAll(start.Names(), sent), MisledBy(start, looks);
            && Believes(names, Latest(start, looks), m)
            && (names == Latest(start, looks).Names() <==> m == NO_MISTAKES)
    decreases |looks|
  {
    if looks != [] {
      var k := |looks| - 1;
      ReplayedRun(start, looks[..k], sent[..k]);
      SnapshotsSound(start, looks[..k]);
      ReplayedLook(Latest(start, looks[..k]), looks[k], sent[k], MisledBy(start, looks[..k]),
                   ReplayAll(start.Names(), sent[..k]));
    }
    var latest, m := Latest(start, looks), MisledBy(start, looks);
    BelievesRight(ReplayAll(start.Names(), sent), latest, m);
  }

  lemma BelievesRight(names: set<string>, latest: Snapshot, m: Mistakes)
    requires Believes(names, latest, m)
    ensures names == latest.Names() <==> m == NO_MISTAKES
  {
    if names == latest.Names() {
      forall n ensures n !in m.stale && n !in m.missed {
        assert n in names <==> n in latest.Names();
      }
    }
  }

  lemma ReplayedLook(before: Snapshot, p: Probe, evs: seq<Event>, was: Mistakes, names: set<string>)
    requires p.Consistent() && before.Sound() && PollSends(evs, before, p) && Believes(names, before, was)
    ensures Believes(Replay(names, evs), Recorded(p), Misled(before, p, was))
  {
    var after := Recorded(p);
    if !p.Fails() {
      if CheckChange(before.info, after.info).Some? || !before.IsDir() {
        assert evs == [] || (evs == [evs[0]] && evs[..0] == []);
      } else {
        ReplayedEntries(before, after, evs, was, names);
      }
    }
  }

  /** One more comparison of a directory's entries, for a listener with some mistakes. */
  lemma ReplayedEntries(before: Snapshot, after: Snapshot, evs: seq<Event>, was: Mistakes, names: set<string>)
    requires OncePerName(evs) && Believes(names, before, was)
    requires forall o, n :: OnEntry(o, n) in evs <==> EntryChange(before, after, n) == Some(o)
    ensures Believes(Replay(names, evs), after, Mistakes(was.stale - after.Names(), was.missed * after.Names()))
  {
    var now := Mistakes(was.stale - after.Names(), was.missed * after.Names());
    forall n ensures n in Replay(names, evs) <==> n in (after.Names() - now.missed) + now.stale {
      ReplayedName(names, evs, n);
      assert n in names <==> n in (before.Names() - was.missed) + was.stale;
      assert n in was.missed ==> n in before.entries;
      assert n in before.entries ==> n !in was.stale;
      assert OnEntry(Create, n) in evs <==> n !in before.entries && n in after.entries;
      assert OnEntry(Remove, n) in evs <==> n in before.entries && n !in after.entries;
    }
  }

  /** If no look fails nothing goes stale, and if moreover the path is a directory all along nothing is
      missed: the replayed names are exactly the latest ones. */
  lemma {:induction false} NothingStale(start: Snapshot, looks: seq<Probe>)
    requires forall i | 0 <= i < |looks| :: looks[i].Consistent() && !looks[i].Fails()
    ensures MisledBy(start, looks).stale == {}
    ensures start.IsDir() && (forall i | 0 <= i < |looks| :: Recorded(looks[i]).IsDir()) ==>
              MisledBy(start, looks) == NO_MISTAKES && Latest(start, looks).IsDir()
    decreases |looks|
  {
    if looks != [] {
      NothingStale(start, looks[..|looks| - 1]);
    }
  }

  /** One failed look at a directory between two good ones.  After a listing that could not be read,
      only removals are lost: the listener is right again exactly if no name has gone.  After a stat
      call that failed, what was created is lost as well: exactly if the names are the same. */
  lemma FailedLookExactly(start: Snapshot, failed: Probe, good: Probe, sent: seq<seq<Event>>)
    requires start.IsDir() && failed.Fails() && failed.Consistent() && good.Listing? && good.Consistent()
    requires Run(start, [failed, good], sent)
    ensures ReplayAll(start.Names(), sent) == Recorded(good).Names() <==>
              if failed.StatFails? then start.Names() == Recorded(good).Names()
              else start.Names() <= Recorded(good).Names()
  {
    var looks := [failed, good];
    ReplayedRun(start, looks, sent);
    assert looks[..1] == [failed] && [failed][..0] == [];
    assert MisledBy(start, [failed]) == Mistakes(start.Names(), {});
    var names, found := start.Names(), Recorded(good).Names();
    assert MisledBy(start, looks) == Mistakes(names - found, if failed.StatFails? then found - names else {});
    assert names - found == {} <==> names <= found;
    assert found - names == {} <==> found <= names;
  }
}
