/** The directory an atomic writer projects a payload into, and what an observer of it can see.

    The directory holds named entries: symbolic links, plain files and real directories.  Only the
    top level holds links; below a real directory there are only folders and files, so the contents
    of a directory are one finite map from relative paths to nodes. */
module VolumeTree {
  import opened Wrappers

  type Name = string
  type Path = seq<Name>
  type Bytes = seq<bv8>
  type Payload = map<Path, Bytes>

  datatype Node = Folder | File(data: Bytes)
  type Files = map<Path, Node>

  datatype Entry = Link(target: Path) | Regular(data: Bytes) | Directory(files: Files)
  type Tree = map<Name, Entry>

  const DATA: Name := "..data"
  const DATA_TMP: Name := "..data_tmp"

  /** Names beginning with two dots are meant to be the writer's. */
  predicate Reserved(n: Name) {
    |n| >= 2 && n[0] == '.' && n[1] == '.'
  }

  /** The names MkdirTemp makes: two dots, then a year. */
  predicate TimestampName(n: Name) {
    Reserved(n) && |n| >= 3 && '0' <= n[2] <= '9'
  }

  /** The names the writer itself uses in the volume. */
  predicate OwnName(n: Name) {
    n == DATA || n == DATA_TMP || TimestampName(n)
  }

  predicate Keyed(payload: Payload) {
    forall p | p in payload :: |p| >= 1
  }

  predicate SafeKeys(payload: Payload) {
    forall p | p in payload :: |p| >= 1 && !OwnName(p[0])
  }

  predicate PrefixFree(payload: Payload) {
    forall p, q | p in payload && q in payload :: p <= q ==> p == q
  }

  // ---------------------------------------------------------------- payloads laid out as files

  /** Every key of the payload together with all its ancestors. */
  ghost predicate InClosure(payload: Payload, q: Path) {
    |q| >= 1 && exists p :: p in payload && q <= p
  }

  function FilesOf(files: Files): Payload {
    map p | p in files && files[p].File? :: files[p].data
  }

  /** `files` is exactly the payload's files plus the folders above them. */
  ghost predicate LaidOut(files: Files, payload: Payload) {
    && PrefixFree(payload)
    && (forall p :: p in payload ==> p in files && files[p] == File(payload[p]))
    && (forall q :: q in files ==> InClosure(payload, q))
    && (forall q :: q in files && q !in payload ==> files[q] == Folder)
    && (forall q :: InClosure(payload, q) ==> q in files)
  }

  function Tops(payload: Payload): set<Name> {
    set p | p in payload && |p| >= 1 :: p[0]
  }

  // ---------------------------------------------------------------- what is observed

  /** The timestamp directory the data link points to. */
  function CurrentDir(t: Tree): Option<Name> {
    if DATA in t && t[DATA].Link? && |t[DATA].target| == 1 then Some(t[DATA].target[0]) else None
  }

  /** Everything in that directory. */
  function CurrentFiles(t: Tree): Option<Files> {
    var d := CurrentDir(t);
    if d.Some? && d.value in t && t[d.value].Directory? then Some(t[d.value].files) else None
  }

  /** The files found by following the data link. */
  function Projected(t: Tree): Option<Payload> {
    var files := CurrentFiles(t);
    if files.Some? then Some(FilesOf(files.value)) else None
  }

  /** Path resolution as the kernel does it, with its limit on the number of links followed. */
  function Resolve(t: Tree, p: Path, hops: nat): Option<Bytes>
    requires |p| >= 1
    decreases hops
  {
    if p[0] !in t then None
    else match t[p[0]]
      case Regular(data) => if |p| == 1 then Some(data) else None
      case Directory(files) =>
        if p[1..] in files && files[p[1..]].File? then Some(files[p[1..]].data) else None
      case Link(target) =>
        if hops == 0 || |target| == 0 then None else Resolve(t, target + p[1..], hops - 1)
  }

  const MAX_HOPS := 40

  /** A directory that cannot be unlinked, because something is in it. */
  predicate Solid(t: Tree, n: Name) {
    n in t && t[n].Directory? && t[n].files != map[]
  }

  /** The data link is absent, or it points to an existing timestamp directory. */
  ghost predicate Sound(t: Tree) {
    DATA in t ==>
      && CurrentDir(t).Some?
      && TimestampName(CurrentDir(t).value)
      && CurrentDir(t).value in t
      && t[CurrentDir(t).value].Directory?
      && forall p :: p in t[CurrentDir(t).value].files ==> |p| >= 1
  }

  ghost predicate SameExcept(t: Tree, t': Tree, names: set<Name>) {
    && (forall n :: n in t && n !in names ==> n in t' && t'[n] == t[n])
    && (forall n :: n in t' && n !in names ==> n in t)
  }

  /** Changing entries other than the data link and its target changes nothing an observer sees. */
  lemma FrameProjected(t: Tree, t': Tree, names: set<Name>)
    requires Sound(t) && SameExcept(t, t', names)
    requires DATA !in names
    requires DATA in t ==> CurrentDir(t).value !in names
    ensures CurrentFiles(t') == CurrentFiles(t) && Projected(t') == Projected(t)
    ensures CurrentDir(t') == CurrentDir(t) && Sound(t')
  {
    if DATA in t {
      assert t'[DATA] == t[DATA];
      var d := CurrentDir(t).value;
      assert d in t';
    }
  }

  /** Once laid out, a payload is read back exactly; and nothing else is. */
  lemma LaidOutReadsBack(files: Files, payload: Payload)
    requires LaidOut(files, payload)
    ensures FilesOf(files) == payload
  {
  }

  /** The data link leads to the timestamp directory `ts`, which holds exactly the payload. */
  ghost predicate Serving(t: Tree, payload: Payload, ts: Name) {
    && TimestampName(ts)
    && DATA in t && t[DATA] == Link([ts])
    && ts in t && t[ts].Directory? && LaidOut(t[ts].files, payload)
  }

  lemma ServingShows(t: Tree, payload: Payload, ts: Name)
    requires Keyed(payload) && Serving(t, payload, ts)
    ensures Sound(t) && Projected(t) == Some(payload) && CurrentDir(t) == Some(ts)
  {
    LaidOutReadsBack(t[ts].files, payload);
  }

  // ---------------------------------------------------------------- a finished write

  /** The visible names the previous directory had and the new payload no longer needs. */
  ghost predicate IsStale(t: Tree, payload: Payload, n: Name) {
    var d := CurrentDir(t);
    d.Some? && d.value in t && t[d.value].Directory? && [n] in t[d.value].files && !InClosure(payload, [n])
  }

  /** What went wrong in a write without being reported: `unread` are the folders of the previous version
      that could not be listed, `[]` standing for the version itself, and `unlinked` the visible names that
      were absent and whose every check failed. */
  datatype Oversight = Oversight(unread: set<Path>, unlinked: set<Name>)

  const NOTHING_MISSED := Oversight({}, {})

  /** A walk comes to this path unless a folder above it could not be listed. */
  predicate Walked(unread: set<Path>, q: Path) {
    forall i | 0 <= i < |q| :: q[..i] !in unread
  }

  /** The visible names that are pruned: the stale ones, unless the version itself could not be listed. */
  ghost predicate IsPruned(t: Tree, payload: Payload, o: Oversight, n: Name) {
    IsStale(t, payload, n) && [] !in o.unread
  }

  /** What decides whether a write of `payload` that switches to `ts` keeps the data link through the
      pruning: the link is not among the names to remove; nor is the new directory, or it is not empty
      and so stays where it is. */
  ghost predicate KeepsLink(before: Tree, payload: Payload, ts: Name, o: Oversight) {
    !IsPruned(before, payload, o, DATA) && (payload == map[] ==> !IsPruned(before, payload, o, ts))
  }

  ghost predicate InPlace(files: Files, payload: Payload) {
    forall p :: p in payload ==> p in files && files[p] == File(payload[p])
  }

  /** Every path that a walk comes to is one of the payload's. */
  ghost predicate AllNeeded(files: Files, payload: Payload, unread: set<Path>) {
    forall q :: q in files && Walked(unread, q) ==> InClosure(payload, q)
  }

  /** As far as a walk shows it, the current directory already holds every file of the payload and no path
      outside it. */
  ghost predicate LooksUpToDate(t: Tree, payload: Payload, unread: set<Path>) {
    var d := CurrentDir(t);
    && d.Some? && d.value in t && t[d.value].Directory?
    && InPlace(t[d.value].files, payload) && AllNeeded(t[d.value].files, payload, unread)
  }

  ghost predicate UpToDate(t: Tree, payload: Payload) {
    LooksUpToDate(t, payload, {})
  }

  /** What a finished write has done to the entry `n`, other than the data link and its target. */
  ghost predicate EntryPublished(before: Tree, payload: Payload, o: Oversight, after: Tree, n: Name) {
    if IsPruned(before, payload, o, n) || CurrentDir(before) == Some(n) then n !in after
    else if n in before then n in after && after[n] == before[n]
    else if n in Tops(payload) && n !in o.unlinked then n in after && after[n] == Link([DATA, n])
    else n !in after
  }

  /** `after` is `before` with the payload published under the timestamp name `ts`: every entry of
      the directory is accounted for. */
  ghost predicate Published(before: Tree, payload: Payload, ts: Name, o: Oversight, after: Tree) {
    && ts !in before && TimestampName(ts)
    && DATA in after && after[DATA] == Link([ts])
    && ts in after && after[ts].Directory? && LaidOut(after[ts].files, payload)
    && o.unlinked <= Tops(payload) - before.Keys
    && forall n :: n != DATA && n != ts ==> EntryPublished(before, payload, o, after, n)
  }

  // ---------------------------------------------------------------- volumes between writes

  /** A volume on which a write has completed: the data link leads to exactly the payload, the visible
      links are exactly its top-level names, and no other timestamp directory or temporary link is
      left.  With no payload: a volume nothing was written to yet. */
  ghost predicate Settled(t: Tree, current: Option<Payload>) {
    && (current.None? ==>
          forall n :: n in t ==> !OwnName(n) && !(t[n].Link? && DATA in t[n].target))
    && (current.Some? ==>
          && SafeKeys(current.value)
          && CurrentDir(t).Some? && TimestampName(CurrentDir(t).value)
          && CurrentDir(t).value in t && t[CurrentDir(t).value].Directory?
          && LaidOut(t[CurrentDir(t).value].files, current.value)
          && (forall n :: n in t && OwnName(n) ==> n == DATA || n == CurrentDir(t).value)
          && (forall n :: n in Tops(current.value) ==> n in t && t[n] == Link([DATA, n]))
          && (forall n :: n in t && t[n].Link? && DATA in t[n].target ==> n in Tops(current.value)))
  }

  /** Nothing but a link of the writer's own stands where a visible link has to go. */
  ghost predicate Unblocked(t: Tree, payload: Payload) {
    forall n :: n in Tops(payload) && n in t ==> t[n] == Link([DATA, n])
  }

  lemma SettledSound(t: Tree, current: Option<Payload>)
    requires Settled(t, current)
    ensures Sound(t)
    ensures Projected(t) == current
  {
    if current.Some? {
      var files := t[CurrentDir(t).value].files;
      LaidOutReadsBack(files, current.value);
    }
  }

  /** What links a settled volume shows: exactly the top-level names of its payload. */
  lemma ClosureOfTop(payload: Payload, n: Name)
    ensures InClosure(payload, [n]) <==> n in Tops(payload)
  {
    if n in Tops(payload) {
      var p :| p in payload && |p| >= 1 && p[0] == n;
      assert [n] <= p;
    }
  }

  lemma ClosureOfTops(payload: Payload)
    requires SafeKeys(payload)
    ensures forall n :: InClosure(payload, [n]) <==> n in Tops(payload)
    ensures forall n :: n in Tops(payload) ==> !OwnName(n)
  {
    forall n ensures InClosure(payload, [n]) <==> n in Tops(payload) {
      ClosureOfTop(payload, n);
    }
  }

  /** Stale names are the visible names of the previous payload that the new one lacks. */
  lemma StaleName(t: Tree, current: Option<Payload>, payload: Payload, n: Name)
    requires Settled(t, current) && SafeKeys(payload)
    ensures IsStale(t, payload, n) <==> current.Some? && n in Tops(current.value) && n !in Tops(payload)
  {
    ClosureOfTop(payload, n);
    if current.Some? {
      ClosureOfTop(current.value, n);
    }
  }

  /** What publishing does to one visible name. */
  lemma PublishedAt(before: Tree, current: Option<Payload>, payload: Payload, ts: Name, o: Oversight, after: Tree,
                    n: Name)
    requires Settled(before, current) && SafeKeys(payload) && !OwnName(n)
    requires Published(before, payload, ts, o, after)
    ensures n in Tops(payload) && n in before ==> n in after && after[n] == before[n]
    ensures n in Tops(payload) && n !in before ==>
              if n in o.unlinked then n !in after else n in after && after[n] == Link([DATA, n])
    ensures n !in Tops(payload) && n in after && after[n].Link? && DATA in after[n].target <==>
              current.Some? && n in Tops(current.value) && n !in Tops(payload) && [] in o.unread
  {
    ReservedOwn(before, current, ts);
    StaleName(before, current, payload, n);
    assert EntryPublished(before, payload, o, after, n);
  }

  lemma ReservedOwn(t: Tree, current: Option<Payload>, ts: Name)
    requires Settled(t, current) && TimestampName(ts)
    ensures OwnName(DATA) && OwnName(ts) && (CurrentDir(t).Some? ==> OwnName(CurrentDir(t).value))
  {
    if current.None? {
      FreshUnlinked(t);
    }
  }

  lemma FreshUnlinked(t: Tree)
    requires Settled(t, None)
    ensures DATA !in t && CurrentDir(t).None?
  {
    assert OwnName(DATA);
  }

  /** The writer's own names that are left: the data link and the new version. */
  lemma PublishedOwn(before: Tree, current: Option<Payload>, payload: Payload, ts: Name, o: Oversight, after: Tree,
                     n: Name)
    requires Settled(before, current) && SafeKeys(payload) && OwnName(n)
    requires Published(before, payload, ts, o, after)
    ensures n in after <==> n == DATA || n == ts
  {
    if n != DATA && n != ts {
      assert EntryPublished(before, payload, o, after, n);
    }
  }

  /** No name that the previous payload had and the new one lacks was missed. */
  ghost predicate NoneMissed(current: Option<Payload>, payload: Payload, o: Oversight) {
    [] in o.unread && current.Some? ==> Tops(current.value) <= Tops(payload)
  }

  lemma PublishedWell(before: Tree, current: Option<Payload>, payload: Payload, ts: Name, o: Oversight, after: Tree)
    requires Settled(before, current) && SafeKeys(payload)
    requires Published(before, payload, ts, o, after) && Unblocked(before, payload)
    requires o.unlinked == {} && NoneMissed(current, payload, o)
    ensures Settled(after, Some(payload))
  {
    assert CurrentDir(after) == Some(ts);
    forall n | n in Tops(payload) ensures n in after && after[n] == Link([DATA, n]) {
      PublishedAt(before, current, payload, ts, o, after, n);
    }
    forall n | n in after && OwnName(n) ensures n == DATA || n == ts {
      PublishedOwn(before, current, payload, ts, o, after, n);
    }
    assert DATA !in after[DATA].target;
    forall n | n in after && after[n].Link? && DATA in after[n].target ensures n in Tops(payload) {
      if !OwnName(n) {
        PublishedAt(before, current, payload, ts, o, after, n);
      }
    }
  }

  /** A blocked name, a name without its link, or a name that was missed: each by itself unsettles. */
  lemma PublishedIll(before: Tree, current: Option<Payload>, payload: Payload, ts: Name, o: Oversight, after: Tree,
                     n: Name)
    requires Settled(before, current) && SafeKeys(payload)
    requires Published(before, payload, ts, o, after)
    requires || (n in Tops(payload) && n in before && before[n] != Link([DATA, n]))
             || n in o.unlinked
             || ([] in o.unread && current.Some? && n in Tops(current.value) && n !in Tops(payload))
    ensures !Settled(after, Some(payload))
  {
    assert !OwnName(n);
    PublishedAt(before, current, payload, ts, o, after, n);
  }

  /** Publishing a payload on a settled volume leaves it settled on that payload if and only if no foreign
      entry occupies one of the payload's top-level names, every absent one got its link, and no stale one
      was missed; whatever the case, the write reports success. */
  lemma PublishedSettles(before: Tree, current: Option<Payload>, payload: Payload, ts: Name, o: Oversight, after: Tree)
    requires Settled(before, current) && SafeKeys(payload)
    requires Published(before, payload, ts, o, after)
    ensures Settled(after, Some(payload)) <==>
              Unblocked(before, payload) && o.unlinked == {} && NoneMissed(current, payload, o)
  {
    if !Unblocked(before, payload) {
      var n :| n in Tops(payload) && n in before && before[n] != Link([DATA, n]);
      PublishedIll(before, current, payload, ts, o, after, n);
    } else if o.unlinked != {} {
      var n :| n in o.unlinked;
      PublishedIll(before, current, payload, ts, o, after, n);
    } else if !NoneMissed(current, payload, o) {
      var n :| n in Tops(current.value) && n !in Tops(payload);
      PublishedIll(before, current, payload, ts, o, after, n);
    } else {
      PublishedWell(before, current, payload, ts, o, after);
    }
  }

  /** Following the visible links of a settled volume yields exactly the payload: every path of it
      with its bytes, and nothing under any other path that is not below a foreign entry. */
  lemma SettledView(t: Tree, payload: Payload, p: Path)
    requires Settled(t, Some(payload))
    requires |p| >= 1 && !OwnName(p[0])
    requires p[0] in t ==> t[p[0]].Link? && DATA in t[p[0]].target
    ensures Resolve(t, p, MAX_HOPS) == if p in payload then Some(payload[p]) else None
  {
    var d := CurrentDir(t).value;
    if p[0] in t {
      assert t[p[0]] == Link([DATA, p[0]]);
      ThroughData(t, d, p);
      LaidOutReadsBack(t[d].files, payload);
    } else {
      assert p in payload ==> p[0] in Tops(payload);
    }
  }

  /** A visible link leads into the current timestamp directory. */
  lemma ThroughData(t: Tree, d: Name, p: Path)
    requires |p| >= 1 && p[0] in t && t[p[0]] == Link([DATA, p[0]])
    requires DATA in t && t[DATA] == Link([d]) && d in t && t[d].Directory?
    ensures Resolve(t, p, MAX_HOPS) ==
            if p in t[d].files && t[d].files[p].File? then Some(t[d].files[p].data) else None
  {
    var q := [DATA, p[0]] + p[1..];
    assert q[0] == DATA && q[1..] == p;
    var r := [d] + q[1..];
    assert r[0] == d && r[1..] == p;
    assert Resolve(t, r, MAX_HOPS - 2) ==
           if p in t[d].files && t[d].files[p].File? then Some(t[d].files[p].data) else None;
    assert Resolve(t, q, MAX_HOPS - 1) == Resolve(t, r, MAX_HOPS - 2);
  }

  /** A layout that has every file of another payload, with the same bytes, and no path beyond that
      payload's closure, is the layout of that payload. */
  lemma SameLayout(files: Files, current: Payload, payload: Payload)
    requires LaidOut(files, current) && InPlace(files, payload) && AllNeeded(files, payload, {})
    ensures payload == current
  {
    forall p | p in payload ensures p in current && current[p] == payload[p] {
      PlacedFile(files, current, payload, p);
    }
    forall p | p in current ensures p in payload {
      assert Walked({}, p) && InClosure(payload, p);
      var q :| q in payload && p <= q;
      PlacedFile(files, current, payload, q);
      assert p == q;
    }
  }

  lemma PlacedFile(files: Files, current: Payload, payload: Payload, p: Path)
    requires LaidOut(files, current) && InPlace(files, payload) && p in payload
    ensures p in current && current[p] == payload[p]
  {
    assert files[p].File?;
  }

  /** On a settled volume nothing has to be done exactly when the payload is the one already there. */
  lemma UpToDateExactly(t: Tree, current: Payload, payload: Payload)
    requires Settled(t, Some(current)) && SafeKeys(payload)
    ensures UpToDate(t, payload) <==> payload == current
  {
    if UpToDate(t, payload) {
      SameLayout(t[CurrentDir(t).value].files, current, payload);
    }
  }

  /** The new payload has fewer files than the previous one, and those it lacks are in folders that could
      not be listed. */
  ghost predicate Overlooked(current: Option<Payload>, payload: Payload, unread: set<Path>) {
    && current.Some? && payload != current.value
    && Keeps(current.value, payload) && DropsUnread(current.value, payload, unread)
  }

  ghost predicate Keeps(current: Payload, payload: Payload) {
    forall p :: p in payload ==> p in current && current[p] == payload[p]
  }

  ghost predicate DropsUnread(current: Payload, payload: Payload, unread: set<Path>) {
    forall q :: InClosure(current, q) && Walked(unread, q) ==> InClosure(payload, q)
  }

  /** A write is skipped exactly when the payload is the one already there, or a smaller one whose missing
      files the walk did not come to. */
  lemma SkippedExactly(t: Tree, current: Option<Payload>, payload: Payload, unread: set<Path>)
    requires Settled(t, current) && SafeKeys(payload)
    ensures LooksUpToDate(t, payload, unread) <==> current == Some(payload) || Overlooked(current, payload, unread)
  {
    if current.Some? {
      var files := t[CurrentDir(t).value].files;
      KeptFiles(files, current.value, payload);
      NeededFiles(files, current.value, payload, unread);
    } else {
      FreshUnlinked(t);
    }
  }

  lemma KeptFiles(files: Files, current: Payload, payload: Payload)
    requires LaidOut(files, current)
    ensures InPlace(files, payload) <==> Keeps(current, payload)
    ensures payload == current ==> Keeps(current, payload)
  {
    if InPlace(files, payload) {
      forall p | p in payload ensures p in current && current[p] == payload[p] {
        PlacedFile(files, current, payload, p);
      }
    }
  }

  lemma NeededFiles(files: Files, current: Payload, payload: Payload, unread: set<Path>)
    requires LaidOut(files, current)
    ensures AllNeeded(files, payload, unread) <==> DropsUnread(current, payload, unread)
    ensures payload == current ==> DropsUnread(current, payload, unread)
  {
    assert forall q :: q in files <==> InClosure(current, q);
  }
}
