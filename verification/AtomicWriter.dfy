/** The atomic writer: a payload is projected into a volume one system call at a time, any of which
    may fail. */
module AtomicWriter {
  import opened Wrappers
  import opened VolumeTree
  import opened PayloadPaths

  // ---------------------------------------------------------------- the volume as an object

  /** Every state of `h` from index `from` on agrees with `base` outside `names`. */
  ghost predicate TouchesOnly(h: seq<Tree>, from: nat, base: Tree, names: set<Name>) {
    forall i | from <= i < |h| :: SameExcept(base, h[i], names)
  }

  /** Two stretches of a history, one after the other. */
  lemma TouchesInTurn(h1: seq<Tree>, h2: seq<Tree>, from: nat, base: Tree, mid: Tree, last: Tree,
                      a: set<Name>, b: set<Name>, all: set<Name>)
    requires h1 <= h2 && a <= all && b <= all
    requires TouchesOnly(h1, from, base, a) && SameExcept(base, mid, a)
    requires TouchesOnly(h2, |h1|, mid, b) && SameExcept(mid, last, b)
    ensures TouchesOnly(h2, from, base, all) && SameExcept(base, last, all)
  {
    forall i | from <= i < |h2| ensures SameExcept(base, h2[i], all) {
      assert i < |h1| ==> h2[i] == h1[i];
    }
  }

  lemma Appended(h: seq<Tree>, added: seq<Tree>, base: Tree, names: set<Name>)
    requires forall t | t in added :: SameExcept(base, t, names)
    ensures h <= h + added && TouchesOnly(h + added, |h|, base, names)
  {
    forall i | |h| <= i < |h + added| ensures SameExcept(base, (h + added)[i], names) {
      assert (h + added)[i] == added[i - |h|];
    }
  }

  ghost predicate Ancestor(q: Path, p: Path) {
    1 <= |q| < |p| && q <= p
  }

  /** `files'` is `files` with the missing folders above `p` made. */
  ghost predicate FoldersMade(files: Files, p: Path, files': Files) {
    && (forall q :: q in files ==> q in files' && files'[q] == files[q])
    && (forall q :: Ancestor(q, p) ==> q in files' && files'[q] == Folder)
    && (forall q :: q in files' ==> q in files || Ancestor(q, p))
  }

  /** Some ancestor of `p` is a file. */
  predicate ThroughFile(files: Files, p: Path) {
    exists i | 0 < i < |p| :: p[..i] in files && files[p[..i]].File?
  }

  ghost function LongNames(t: Tree, length: nat): set<Name> {
    set n | n in t && |n| >= length
  }

  /** A directory whose entries change by system calls.  `history` is the state after each call, the
      failed ones included, so a crash or a reader meets some state of it and no other.  On a reliable
      volume a call only fails when the state of the directory makes it. */
  class Volume {
    const reliable: bool
    var tree: Tree
    ghost var history: seq<Tree>

    ghost predicate Valid()
      reads this
    {
      history != [] && history[|history| - 1] == tree
    }

    method Fault() returns (fault: bool)
      ensures reliable ==> !fault
    {
      fault := *;
      fault := fault && !reliable;
    }

    method Symlink(target: Path, name: Name) returns (ok: bool)
      requires Valid()
      modifies this
      ensures Valid() && history == old(history) + [tree]
      ensures ok ==> name !in old(tree) && tree == old(tree)[name := Link(target)]
      ensures !ok ==> tree == old(tree)
      ensures reliable && name !in old(tree) ==> ok
    {
      var fault := Fault();
      ok := !fault && name !in tree;
      if ok {
        tree := tree[name := Link(target)];
      }
      history := history + [tree];
    }

    /** rename(2) of a link, replacing whatever link or file has the new name. */
    method Rename(from: Name, to: Name) returns (ok: bool)
      requires Valid() && from != to
      modifies this
      ensures Valid() && history == old(history) + [tree]
      ensures ok ==> from in old(tree) && tree == (old(tree) - {from})[to := old(tree)[from]]
      ensures !ok ==> tree == old(tree)
      ensures reliable && from in old(tree) && !(to in old(tree) && old(tree)[to].Directory?) ==> ok
    {
      var fault := Fault();
      ok := !fault && from in tree && !(to in tree && tree[to].Directory?);
      if ok {
        tree := (tree - {from})[to := tree[from]];
      }
      history := history + [tree];
    }

    /** unlink(2), or rmdir(2) for a directory, which has to be empty. */
    method Remove(name: Name) returns (ok: bool)
      requires Valid()
      modifies this
      ensures Valid() && history == old(history) + [tree]
      ensures ok ==> name in old(tree) && !Solid(old(tree), name) && tree == old(tree) - {name}
      ensures !ok ==> tree == old(tree)
      ensures reliable && name in old(tree) && !Solid(old(tree), name) ==> ok
    {
      var fault := Fault();
      ok := !fault && name in tree && !Solid(tree, name);
      if ok {
        tree := tree - {name};
      }
      history := history + [tree];
    }

    /** Removes a directory path by path; it may stop anywhere. */
    method RemoveAll(name: Name) returns (ok: bool)
      requires Valid()
      modifies this
      ensures Valid() && old(history) <= history
      ensures TouchesOnly(history, |old(history)|, old(tree), {name})
      ensures SameExcept(old(tree), tree, {name})
      ensures ok ==> name !in tree
      ensures reliable ==> ok
    {
      while name in tree && tree[name].Directory? && tree[name].files != map[]
        invariant Valid() && old(history) <= history
        invariant TouchesOnly(history, |old(history)|, old(tree), {name})
        invariant SameExcept(old(tree), tree, {name})
        decreases if name in tree && tree[name].Directory? then |tree[name].files| else 0
      {
        var fault := Fault();
        if fault {
          return false;
        }
        var files := tree[name].files;
        var p :| p in files;
        assert (files - {p}).Keys == files.Keys - {p};
        tree := tree[name := Directory(files - {p})];
        history := history + [tree];
      }
      if name !in tree {
        return true;
      }
      ok := Remove(name);
    }

    /** A new directory under a name that was not taken, which may need several tries; its mode is set
        in a second call. */
    method NewTimestampDir() returns (ok: bool, ts: Name)
      requires Valid()
      modifies this
      ensures Valid() && old(history) <= history
      ensures ts !in old(tree) || (tree == old(tree) && TouchesOnly(history, |old(history)|, old(tree), {}))
      ensures TimestampName(ts) && (ok ==> ts !in old(tree))
      ensures TouchesOnly(history, |old(history)|, old(tree), {ts}) && SameExcept(old(tree), tree, {ts})
      ensures ok ==> ts in tree && tree[ts] == Directory(map[])
      ensures reliable ==> ok
    {
      ts := *;
      if !TimestampName(ts) {
        ts := "..0";
      }
      var fault := Fault();
      while ts in tree && !fault
        invariant TimestampName(ts) && (reliable ==> !fault)
        invariant tree == old(tree) && history == old(history)
        decreases LongNames(tree, |ts|)
      {
        assert ts in LongNames(tree, |ts|) && ts !in LongNames(tree, |ts| + 1);
        assert LongNames(tree, |ts| + 1) <= LongNames(tree, |ts|);
        ts := ts + "0";
        fault := Fault();
      }
      if fault {
        history := history + [tree];
        return false, ts;
      }
      tree := tree[ts := Directory(map[])];
      history := history + [tree];
      var chmodFault := Fault();
      history := history + [tree];
      ok := !chmodFault;
    }

    /** mkdir -p of the folders above `p` inside the directory `ts`. */
    method MkdirAbove(ts: Name, p: Path) returns (ok: bool)
      requires Valid() && ts in tree && tree[ts].Directory?
      modifies this
      ensures Valid() && old(history) <= history
      ensures TouchesOnly(history, |old(history)|, old(tree), {ts}) && SameExcept(old(tree), tree, {ts})
      ensures ts in tree && tree[ts].Directory?
      ensures ok ==> FoldersMade(old(tree)[ts].files, p, tree[ts].files)
      ensures reliable && !ThroughFile(old(tree)[ts].files, p) ==> ok
    {
      var i := 1;
      while i < |p|
        invariant 1 <= i
        invariant Valid() && old(history) <= history
        invariant TouchesOnly(history, |old(history)|, old(tree), {ts}) && SameExcept(old(tree), tree, {ts})
        invariant ts in tree && tree[ts].Directory?
        invariant forall q :: q in old(tree)[ts].files ==>
                    q in tree[ts].files && tree[ts].files[q] == old(tree)[ts].files[q]
        invariant forall j | 1 <= j < i && j < |p| :: p[..j] in tree[ts].files && tree[ts].files[p[..j]] == Folder
        invariant forall q :: q in tree[ts].files ==>
                    q in old(tree)[ts].files || (Ancestor(q, p) && tree[ts].files[q] == Folder)
      {
        var files := tree[ts].files;
        if p[..i] in files {
          if files[p[..i]].File? {
            return false;
          }
        } else {
          var fault := Fault();
          if fault {
            history := history + [tree];
            return false;
          }
          tree := tree[ts := Directory(files[p[..i] := Folder])];
          history := history + [tree];
        }
        i := i + 1;
      }
      forall q | Ancestor(q, p) ensures q in tree[ts].files && tree[ts].files[q] == Folder {
        assert q == p[..|q|];
      }
      ok := true;
    }

    /** Creates or truncates a file, writes it, and sets its mode and owner.  A failed write leaves the
        file empty or with some of its bytes. */
    method WriteFile(ts: Name, p: Path, data: Bytes) returns (ok: bool)
      requires Valid() && ts in tree && tree[ts].Directory?
      modifies this
      ensures Valid() && old(history) <= history
      ensures TouchesOnly(history, |old(history)|, old(tree), {ts}) && SameExcept(old(tree), tree, {ts})
      ensures ts in tree && tree[ts].Directory?
      ensures ok ==> p != ["."] && (p in old(tree)[ts].files ==> old(tree)[ts].files[p].File?)
      ensures ok ==> tree[ts].files == old(tree)[ts].files[p := File(data)]
      ensures reliable && p != ["."] && !(p in old(tree)[ts].files && old(tree)[ts].files[p].Folder?) ==> ok
    {
      var files := tree[ts].files;
      ghost var before, h := tree, history;
      var fault := Fault();
      if fault || p == ["."] || (p in files && files[p].Folder?) {
        history := history + [tree];
        Appended(h, [before], before, {ts});
        return false;
      }
      tree := tree[ts := Directory(files[p := File([])])];
      ghost var empty := tree;
      history := history + [tree];
      var written: int := *;
      var short := Fault();
      var n := if short && 0 <= written < |data| then written else |data|;
      tree := tree[ts := Directory(files[p := File(data[..n])])];
      history := history + [tree];
      assert history == h + [empty, tree];
      if n < |data| {
        Appended(h, [empty, tree], before, {ts});
        return false;
      }
      assert data[..n] == data;
      var chmodFault := Fault();
      var chownFault := Fault();
      history := history + [tree, tree];
      assert history == h + [empty, tree, tree, tree];
      Appended(h, [empty, tree, tree, tree], before, {ts});
      ok := !chmodFault && !chownFault;
    }
  }

  // ---------------------------------------------------------------- the steps of a write

  datatype Stage = Validate | ReadLink | Compare | MakeDir | WriteFiles | TmpLink | Swap | Links | Prune | CleanUp
  datatype Status = Success | Failure(stage: Stage)

  /** The stages before the data link is switched. */
  predicate BeforeSwitch(s: Stage) {
    s != Links && s != Prune && s != CleanUp
  }

  method ValidatePayload(raw: map<string, Bytes>) returns (ok: bool, clean: Payload)
    ensures ok ==> IsCleaned(raw, clean)
    ensures !ok ==> exists k :: k in raw && !ValidPath(k)
  {
    clean := map[];
    var todo := raw.Keys;
    while todo != {}
      invariant todo <= raw.Keys
      invariant forall k :: k in raw && k !in todo ==> ValidPath(k) && Clean(k) in clean
      invariant forall p :: p in clean ==> exists k :: k in raw && Clean(k) == p && raw[k] == clean[p]
    {
      var k :| k in todo;
      todo := todo - {k};
      if !ValidPath(k) {
        return false, clean;
      }
      clean := clean[Clean(k) := raw[k]];
    }
    ok := true;
  }

  /** All ancestors of the payload's keys, so that no folder still in use is taken for removed. */
  method WithAncestors(payload: Payload) returns (paths: set<Path>)
    ensures forall q :: q in paths <==> InClosure(payload, q)
  {
    paths := {};
    var todo := payload.Keys;
    ghost var done: Payload := map[];
    while todo != {}
      invariant todo <= payload.Keys
      invariant done.Keys == payload.Keys - todo
      invariant forall q :: q in paths <==> InClosure(done, q)
    {
      var file :| file in todo;
      todo := todo - {file};
      var subPath := file;
      while subPath != []
        invariant subPath <= file
        invariant forall q :: q in paths <==> InClosure(done, q) || (q <= file && |q| > |subPath|)
      {
        paths := paths + {subPath};
        ghost var longer := subPath;
        subPath := subPath[..|subPath| - 1];
        assert forall q: Path :: q <= file && |q| == |longer| ==> q == longer;
      }
      ClosureAdds(done, file, payload[file]);
      done := done[file := payload[file]];
    }
    assert done.Keys == payload.Keys;
    forall q ensures InClosure(done, q) <==> InClosure(payload, q) {
      assert forall p :: p in done <==> p in payload;
    }
  }

  /** Every path of a directory, in a walk whose visitor ignores errors: a folder that cannot be listed is
      passed over, with all that is in it, and the walk reports success. */
  method Walk(files: Files, reliable: bool) returns (paths: set<Path>, ghost unread: set<Path>)
    ensures forall q :: q in paths <==> q in files && Walked(unread, q)
    ensures reliable ==> unread == {}
  {
    var failing: set<Path> := *;
    if reliable {
      failing := {};
    }
    paths := set q | q in files && Walked(failing, q);
    unread := failing;
  }

  method PathsToRemove(payload: Payload, files: Files, reliable: bool)
      returns (stale: set<Path>, ghost unread: set<Path>)
    ensures forall q :: q in stale <==> q in files && Walked(unread, q) && !InClosure(payload, q)
    ensures forall q :: q in stale ==> q in files && !InClosure(payload, q)
    ensures reliable ==> unread == {} && forall q :: q in files && !InClosure(payload, q) ==> q in stale
  {
    var paths;
    paths, unread := Walk(files, reliable);
    var newPaths := WithAncestors(payload);
    stale := paths - newPaths;
  }

  datatype Comparison = Same | Differs | CannotRead

  /** What comparing one file gives: it cannot be read when there is a folder in its place, or a file in
      place of a folder above it. */
  function FileCompared(files: Files, p: Path, data: Bytes): Comparison {
    if p == ["."] || ThroughFile(files, p) then CannotRead
    else if p !in files then Differs
    else if files[p].Folder? then CannotRead
    else if files[p].data != data then Differs
    else Same
  }

  /** The files are compared in turn, and the first that is not the same decides. */
  function Compared(order: seq<Path>, payload: Payload, files: Files): Comparison
    requires forall p | p in order :: p in payload
  {
    if order == [] then Same
    else
      var c := FileCompared(files, order[0], payload[order[0]]);
      if c.Same? then Compared(order[1..], payload, files) else c
  }

  ghost predicate Distinct(order: seq<Path>) {
    forall i, j | 0 <= i < j < |order| :: order[i] != order[j]
  }

  /** Every key of the payload once, in some order. */
  ghost predicate Enumerates(order: seq<Path>, payload: Payload) {
    Distinct(order) && forall p :: p in order <==> p in payload
  }

  lemma DistinctConcat(a: seq<Path>, b: seq<Path>)
    requires Distinct(a) && Distinct(b) && forall p | p in a :: p !in b
    ensures Distinct(a + b)
  {
    forall i, j | 0 <= i < j < |a + b| ensures (a + b)[i] != (a + b)[j] {
      if i < |a| <= j {
        assert a[i] in a && b[j - |a|] in b;
      }
    }
  }

  ghost function AnyOrder(paths: set<Path>): (order: seq<Path>)
    ensures Distinct(order) && forall p :: p in order <==> p in paths
  {
    if paths == {} then []
    else
      var p :| p in paths;
      [p] + AnyOrder(paths - {p})
  }

  lemma {:induction false} ComparedAfter(front: seq<Path>, back: seq<Path>, payload: Payload, files: Files)
    requires forall p | p in front + back :: p in payload
    requires forall p | p in front :: FileCompared(files, p, payload[p]).Same?
    ensures Compared(front + back, payload, files) == Compared(back, payload, files)
    decreases |front|
  {
    if front == [] {
      assert front + back == back;
    } else {
      assert front[0] in front;
      assert (front + back)[1..] == front[1..] + back;
      ComparedAfter(front[1..], back, payload, files);
    }
  }

  /** Whether one file has to be written: it is absent, or its bytes differ. */
  method ShouldWriteFile(files: Files, p: Path, data: Bytes, reliable: bool) returns (c: Comparison)
    ensures c == FileCompared(files, p, data) || (!reliable && c.CannotRead?)
  {
    var fault: bool := *;
    if (fault && !reliable) || p == ["."] || ThroughFile(files, p) {
      return CannotRead;
    }
    if p !in files {
      return Differs;
    }
    if files[p].Folder? {
      return CannotRead;
    }
    return if files[p].data == data then Same else Differs;
  }

  /** Whether some file of the payload is missing or different in the current directory.  The keys come in
      no particular order, and the order can matter; it is `order`. */
  method ShouldWritePayload(payload: Payload, files: Files, reliable: bool)
      returns (c: Comparison, ghost order: seq<Path>)
    ensures Enumerates(order, payload)
    ensures c.CannotRead? || c == Compared(order, payload, files)
    ensures reliable ==> c == Compared(order, payload, files)
    ensures c.Same? ==> InPlace(files, payload)
    ensures c.Differs? ==> !InPlace(files, payload)
  {
    var todo := payload.Keys;
    c := Same;
    ghost var done := [];
    while todo != {} && c.Same?
      invariant todo <= payload.Keys
      invariant Distinct(done) && forall p :: p in done <==> p in payload && p !in todo
      invariant c.Same? ==> forall p | p in done :: FileCompared(files, p, payload[p]).Same?
      invariant !c.Same? ==> done != [] && DecidedLast(done, payload, files, c, reliable)
    {
      var p :| p in todo;
      todo := todo - {p};
      c := ShouldWriteFile(files, p, payload[p], reliable);
      assert (done + [p])[..|done|] == done;
      done := done + [p];
    }
    order := done + AnyOrder(todo);
    DistinctConcat(done, AnyOrder(todo));
    OrderDecided(done, AnyOrder(todo), payload, files, c, reliable);
  }

  /** The last file compared was the first that was not the same, or reading it failed of itself. */
  ghost predicate DecidedLast(done: seq<Path>, payload: Payload, files: Files, c: Comparison, reliable: bool)
    requires done != [] && forall p | p in done :: p in payload
  {
    var last := |done| - 1;
    && (forall p | p in done[..last] :: FileCompared(files, p, payload[p]).Same?)
    && (c == FileCompared(files, done[last], payload[done[last]]) || (!reliable && c.CannotRead?))
  }

  lemma OrderDecided(done: seq<Path>, rest: seq<Path>, payload: Payload, files: Files, c: Comparison, reliable: bool)
    requires forall p :: p in done + rest <==> p in payload
    requires c.Same? ==> rest == [] && forall p | p in done :: FileCompared(files, p, payload[p]).Same?
    requires !c.Same? ==> done != [] && DecidedLast(done, payload, files, c, reliable)
    ensures c.CannotRead? || c == Compared(done + rest, payload, files)
    ensures reliable ==> c == Compared(done + rest, payload, files)
    ensures c.Same? ==> InPlace(files, payload)
    ensures c.Differs? ==> !InPlace(files, payload)
  {
    if c.Same? {
      ComparedAfter(done, rest, payload, files);
      forall p | p in payload ensures p in files && files[p] == File(payload[p]) {
        assert p in done + rest;
        assert FileCompared(files, p, payload[p]).Same?;
      }
    } else {
      var front, last := done[..|done| - 1], done[|done| - 1];
      assert done + rest == front + ([last] + rest);
      ComparedAfter(front, [last] + rest, payload, files);
      assert last in done + rest;
      assert Compared([last] + rest, payload, files) ==
             if FileCompared(files, last, payload[last]).Same? then Compared(rest, payload, files)
             else FileCompared(files, last, payload[last]) by {
        assert ([last] + rest)[1..] == rest;
      }
    }
  }

  lemma ClosureAddsAt(done: Payload, p: Path, data: Bytes, q: Path)
    ensures InClosure(done[p := data], q) <==> InClosure(done, q) || (|q| >= 1 && q <= p)
  {
    var all := done[p := data];
    assert p in all;
    if InClosure(done, q) {
      var r :| r in done && q <= r;
      assert r in all;
    }
  }

  lemma ClosureAdds(done: Payload, p: Path, data: Bytes)
    ensures forall q :: InClosure(done[p := data], q) <==> InClosure(done, q) || (|q| >= 1 && q <= p)
  {
    forall q ensures InClosure(done[p := data], q) <==> InClosure(done, q) || (|q| >= 1 && q <= p) {
      ClosureAddsAt(done, p, data, q);
    }
  }

  /** Adding one file, with its folders, to a partly written directory: what happens at one path. */
  lemma AddFileAt(files: Files, done: Payload, p: Path, data: Bytes, files': Files, q: Path)
    requires LaidOut(files, done) && |p| >= 1
    requires q in files ==> q in files' && files'[q] == files[q]
    requires Ancestor(q, p) ==> q in files' && files'[q] == Folder
    requires q in files' ==> q in files || Ancestor(q, p)
    ensures var all, new' := done[p := data], files'[p := File(data)];
            && (q in all ==> q in new' && new'[q] == File(all[q]))
            && (q in new' <==> InClosure(all, q))
            && (q in new' && q !in all ==> new'[q] == Folder)
  {
    ClosureAddsAt(done, p, data, q);
    assert q == p || Ancestor(q, p) <==> |q| >= 1 && q <= p;
  }

  lemma AddFile(files: Files, done: Payload, p: Path, data: Bytes, files': Files)
    requires LaidOut(files, done) && |p| >= 1
    requires FoldersMade(files, p, files')
    requires p in files' ==> files'[p].File?
    ensures LaidOut(files'[p := File(data)], done[p := data])
  {
    var all, new' := done[p := data], files'[p := File(data)];
    forall q
      ensures q in all ==> q in new' && new'[q] == File(all[q])
      ensures q in new' <==> InClosure(all, q)
      ensures q in new' && q !in all ==> new'[q] == Folder
    {
      AddFileAt(files, done, p, data, files', q);
    }
    AddFilePrefixFree(files, done, p, data, files');
  }

  lemma AddFilePrefixFree(files: Files, done: Payload, p: Path, data: Bytes, files': Files)
    requires LaidOut(files, done) && |p| >= 1
    requires FoldersMade(files, p, files')
    requires p in files' ==> files'[p].File?
    ensures PrefixFree(done[p := data])
  {
    forall q | q in done ensures (q <= p ==> q == p) && (p <= q ==> q == p) {
      assert InClosure(done, q);
      assert Ancestor(q, p) <==> q <= p && q != p;
      assert p <= q ==> InClosure(done, p);
      assert p in files ==> p in files';
    }
  }

  /** A file can be written at `p`. */
  predicate HasRoom(files: Files, p: Path) {
    p != ["."] && !ThroughFile(files, p) && !(p in files && files[p].Folder?)
  }

  /** One more file; `start` is the volume when the first one was begun. */
  method WriteOne(v: Volume, ts: Name, p: Path, data: Bytes, ghost done: Payload, ghost from: nat, ghost start: Tree)
    returns (ok: bool)
    requires v.Valid() && ts in v.tree && v.tree[ts].Directory? && |p| >= 1
    requires LaidOut(v.tree[ts].files, done)
    requires TouchesOnly(v.history, from, start, {ts}) && SameExcept(start, v.tree, {ts})
    modifies v
    ensures v.Valid() && old(v.history) <= v.history
    ensures TouchesOnly(v.history, from, start, {ts}) && SameExcept(start, v.tree, {ts})
    ensures ts in v.tree && v.tree[ts].Directory?
    ensures ok ==> LaidOut(v.tree[ts].files, done[p := data]) && p != ["."]
    ensures v.reliable && HasRoom(old(v.tree)[ts].files, p) ==> ok
  {
    ghost var files := v.tree[ts].files;
    ghost var h, mid := v.history, v.tree;
    ok := v.MkdirAbove(ts, p);
    TouchesInTurn(h, v.history, from, start, mid, v.tree, {ts}, {ts}, {ts});
    if ok {
      ghost var files' := v.tree[ts].files;
      h, mid := v.history, v.tree;
      ok := v.WriteFile(ts, p, data);
      TouchesInTurn(h, v.history, from, start, mid, v.tree, {ts}, {ts}, {ts});
      if ok {
        AddFile(files, done, p, data, files');
      }
    }
  }

  method WritePayloadToDir(v: Volume, payload: Payload, ts: Name) returns (ok: bool)
    requires v.Valid() && ts in v.tree && v.tree[ts] == Directory(map[])
    requires Keyed(payload)
    modifies v
    ensures v.Valid() && old(v.history) <= v.history
    ensures TouchesOnly(v.history, |old(v.history)|, old(v.tree), {ts}) && SameExcept(old(v.tree), v.tree, {ts})
    ensures ts in v.tree && v.tree[ts].Directory?
    ensures ok ==> LaidOut(v.tree[ts].files, payload) && ["."] !in payload
    ensures v.reliable && PrefixFree(payload) && ["."] !in payload ==> ok
  {
    var todo := payload.Keys;
    ok := true;
    NothingWritten(payload);
    while todo != {} && ok
      invariant todo <= payload.Keys
      invariant v.Valid() && old(v.history) <= v.history
      invariant TouchesOnly(v.history, |old(v.history)|, old(v.tree), {ts})
      invariant SameExcept(old(v.tree), v.tree, {ts})
      invariant ts in v.tree && v.tree[ts].Directory?
      invariant ok ==> LaidOut(v.tree[ts].files, Without(payload, todo)) && (["."] in payload ==> ["."] in todo)
      invariant v.reliable && PrefixFree(payload) && ["."] !in payload ==> ok
      decreases todo
    {
      var p :| p in todo;
      if PrefixFree(payload) && p != ["."] {
        StillRoom(payload, todo, v.tree[ts].files, p);
      }
      ok := WriteOne(v, ts, p, payload[p], Without(payload, todo), |old(v.history)|, old(v.tree));
      OneWritten(payload, todo, p);
      todo := todo - {p};
    }
    EverythingWritten(payload);
  }

  /** The files of a payload that are not among those still to be written. */
  ghost function Without(payload: Payload, todo: set<Path>): Payload {
    map p | p in payload && p !in todo :: payload[p]
  }

  /** In a payload that is free of prefixes no file is in the way of another. */
  lemma StillRoom(payload: Payload, todo: set<Path>, files: Files, p: Path)
    requires PrefixFree(payload) && LaidOut(files, Without(payload, todo)) && p in payload && p in todo && p != ["."]
    ensures HasRoom(files, p)
  {
    var done := Without(payload, todo);
    assert forall q | q in done :: !(q <= p) && !(p <= q);
    forall i | 0 < i < |p| && p[..i] in files ensures files[p[..i]].Folder? {
      assert p[..i] <= p;
    }
  }

  lemma NothingWritten(payload: Payload)
    ensures Without(payload, payload.Keys) == map[] && LaidOut(map[], Without(payload, payload.Keys))
  {
  }

  lemma OneWritten(payload: Payload, todo: set<Path>, p: Path)
    requires todo <= payload.Keys && p in todo
    ensures Without(payload, todo - {p}) == Without(payload, todo)[p := payload[p]]
  {
  }

  lemma EverythingWritten(payload: Payload)
    ensures Without(payload, {}) == payload
  {
  }

  /** The visible links: one for each top-level name that is not there yet.  An entry that is there
      but is no link is passed over in silence, and so is a name whose check fails for another reason than
      its absence; `unlinked` are the absent names whose every check did. */
  method CreateUserVisibleFiles(v: Volume, payload: Payload) returns (ok: bool, ghost unlinked: set<Name>)
    requires v.Valid() && Keyed(payload)
    modifies v
    ensures v.Valid() && old(v.history) <= v.history
    ensures v.reliable ==> ok
    ensures TouchesOnly(v.history, |old(v.history)|, old(v.tree), Tops(payload) - old(v.tree).Keys)
    ensures SameExcept(old(v.tree), v.tree, Tops(payload) - old(v.tree).Keys)
    ensures unlinked <= Tops(payload) - old(v.tree).Keys && (v.reliable ==> unlinked == {})
    ensures ok ==> forall n :: n in Tops(payload) && n !in old(v.tree) ==>
                     if n in unlinked then n !in v.tree else n in v.tree && v.tree[n] == Link([DATA, n])
  {
    var todo := payload.Keys;
    unlinked := {};
    while todo != {}
      invariant todo <= payload.Keys
      invariant v.Valid() && old(v.history) <= v.history
      invariant TouchesOnly(v.history, |old(v.history)|, old(v.tree), Tops(payload) - old(v.tree).Keys)
      invariant SameExcept(old(v.tree), v.tree, Tops(payload) - old(v.tree).Keys)
      invariant forall n :: n in Tops(payload) && n !in old(v.tree) && n in v.tree ==> v.tree[n] == Link([DATA, n])
      invariant unlinked <= Tops(payload) - v.tree.Keys && (v.reliable ==> unlinked == {})
      invariant forall p :: p in payload && p !in todo ==> p[0] in v.tree || p[0] in unlinked
    {
      var p :| p in todo;
      todo := todo - {p};
      var linkname := p[0];
      assert linkname in Tops(payload);
      var unclear := v.Fault();
      if linkname !in v.tree {
        if unclear {
          unlinked := unlinked + {linkname};
        } else {
          unlinked := unlinked - {linkname};
          ok := v.Symlink([DATA, linkname], linkname);
          if !ok {
            return;
          }
        }
      }
    }
    ok := true;
  }

  ghost function VisibleNames(paths: set<Path>): set<Name> {
    set p | p in paths && |p| == 1 :: p[0]
  }

  /** Those of them that can be removed. */
  ghost function Prunable(t: Tree, paths: set<Path>): set<Name> {
    set p | p in paths && |p| == 1 && !Solid(t, p[0]) :: p[0]
  }

  /** Every visible name among the paths is there and can be removed. */
  ghost predicate AllPrunable(t: Tree, paths: set<Path>) {
    forall p | p in paths && |p| == 1 :: p[0] in t && !Solid(t, p[0])
  }

  /** Only the top-level names among the paths are links to remove; a failure does not stop the rest. */
  method RemoveUserVisiblePaths(v: Volume, paths: set<Path>) returns (ok: bool)
    requires v.Valid()
    modifies v
    ensures v.Valid() && old(v.history) <= v.history
    ensures TouchesOnly(v.history, |old(v.history)|, old(v.tree), Prunable(old(v.tree), paths))
    ensures SameExcept(old(v.tree), v.tree, Prunable(old(v.tree), paths))
    ensures ok ==> forall p :: p in paths && |p| == 1 ==> p[0] !in v.tree
    ensures ok ==> AllPrunable(old(v.tree), paths)
    ensures v.reliable && AllPrunable(old(v.tree), paths) ==> ok
  {
    ghost var names := Prunable(v.tree, paths);
    ok := true;
    var todo := paths;
    while todo != {}
      invariant todo <= paths
      invariant v.Valid() && old(v.history) <= v.history
      invariant TouchesOnly(v.history, |old(v.history)|, old(v.tree), names)
      invariant SameExcept(old(v.tree), v.tree, names)
      invariant forall n :: n in v.tree ==> n in old(v.tree) && v.tree[n] == old(v.tree)[n]
      invariant ok ==> forall p :: p in paths && p !in todo && |p| == 1 ==> p[0] !in v.tree
      invariant ok ==> AllPrunable(old(v.tree), paths - todo)
      invariant v.reliable && AllPrunable(old(v.tree), paths) ==> ok && AllPrunable(v.tree, todo)
    {
      var p :| p in todo;
      todo := todo - {p};
      if |p| == 1 {
        assert !Solid(old(v.tree), p[0]) ==> p[0] in names;
        assert forall q | q in todo && |q| == 1 :: q[0] != p[0] by {
          assert forall q: Path | |q| == 1 && q[0] == p[0] :: q == p;
        }
        var removed := v.Remove(p[0]);
        if !removed {
          ok := false;
        }
      }
    }
  }

  // ---------------------------------------------------------------- the write

  /** In every state of `h` between the two indices the data link is sound and shows `view`. */
  ghost predicate Shows(h: seq<Tree>, from: nat, to: nat, view: Option<Payload>) {
    forall i | from <= i < to && i < |h| :: Sound(h[i]) && Projected(h[i]) == view
  }

  lemma ShowsFrame(h: seq<Tree>, from: nat, base: Tree, names: set<Name>)
    requires Sound(base) && TouchesOnly(h, from, base, names)
    requires DATA !in names
    requires DATA in base ==> CurrentDir(base).value !in names
    ensures Shows(h, from, |h|, Projected(base))
  {
    forall i | from <= i < |h| ensures Sound(h[i]) && Projected(h[i]) == Projected(base) {
      FrameProjected(base, h[i], names);
    }
  }

  lemma ReservedNamesDiffer(ts: Name)
    requires TimestampName(ts)
    ensures ts != DATA && ts != DATA_TMP && DATA != DATA_TMP
  {
    assert DATA[2] == 'd' && DATA_TMP[2] == 'd';
  }

  /** Steps 5 to 7: the new version is written out of sight and a temporary link made to it. */
  method StageNewVersion(v: Volume, payload: Payload) returns (status: Status, ts: Name)
    requires v.Valid() && Keyed(payload)
    modifies v
    ensures v.Valid() && old(v.history) <= v.history
    ensures TimestampName(ts)
    ensures ts !in old(v.tree) || (v.tree == old(v.tree) && TouchesOnly(v.history, |old(v.history)|, old(v.tree), {}))
    ensures TouchesOnly(v.history, |old(v.history)|, old(v.tree), {ts, DATA_TMP})
    ensures SameExcept(old(v.tree), v.tree, {ts, DATA_TMP})
    ensures status.Failure? ==> status.stage in {MakeDir, WriteFiles, TmpLink}
    ensures status.Failure? ==> SameExcept(old(v.tree), v.tree, {ts})
    ensures status.Success? ==>
              && ts !in old(v.tree) && DATA_TMP !in old(v.tree)
              && DATA_TMP in v.tree && v.tree[DATA_TMP] == Link([ts])
              && ts in v.tree && v.tree[ts].Directory? && LaidOut(v.tree[ts].files, payload)
    ensures status.Success? ==> Placeable(old(v.tree), payload)
    ensures v.reliable && Placeable(old(v.tree), payload) ==> status.Success?
  {
    ghost var before := v.tree;
    var ok;
    ok, ts := v.NewTimestampDir();
    if !ok {
      return Failure(MakeDir), ts;
    }
    ReservedNamesDiffer(ts);
    ghost var mid, h := v.tree, v.history;
    ok := WritePayloadToDir(v, payload, ts);
    TouchesInTurn(h, v.history, |old(v.history)|, before, mid, v.tree, {ts}, {ts}, {ts});
    if !ok {
      return Failure(WriteFiles), ts;
    }
    ok := LinkStaged(v, ts, |old(v.history)|, before);
    status := if ok then Success else Failure(TmpLink);
  }

  /** Step 7; without a link to it the new version is removed again. */
  method LinkStaged(v: Volume, ts: Name, ghost from: nat, ghost start: Tree) returns (ok: bool)
    requires v.Valid() && TimestampName(ts)
    requires TouchesOnly(v.history, from, start, {ts}) && SameExcept(start, v.tree, {ts})
    modifies v
    ensures v.Valid() && old(v.history) <= v.history
    ensures TouchesOnly(v.history, from, start, {ts, DATA_TMP}) && SameExcept(start, v.tree, {ts, DATA_TMP})
    ensures !ok ==> SameExcept(start, v.tree, {ts})
    ensures ok ==> DATA_TMP !in start && v.tree == old(v.tree)[DATA_TMP := Link([ts])]
    ensures v.reliable && DATA_TMP !in start ==> ok
  {
    ReservedNamesDiffer(ts);
    ghost var mid, h := v.tree, v.history;
    ok := v.Symlink([ts], DATA_TMP);
    if ok {
      TouchesInTurn(h, v.history, from, start, mid, v.tree, {ts}, {DATA_TMP}, {ts, DATA_TMP});
    } else {
      var _ := v.RemoveAll(ts);
      TouchesInTurn(h, v.history, from, start, mid, v.tree, {ts}, {ts}, {ts});
    }
  }

  ghost function Opt(n: Option<Name>): set<Name> {
    if n.Some? then {n.value} else {}
  }

  /** The names an exposure may touch: new links, stale links, the previous version. */
  ghost function ExposedNames(t: Tree, payload: Payload, stale: set<Path>, oldTs: Option<Name>): set<Name> {
    (Tops(payload) - t.Keys) + Prunable(t, stale) + Opt(oldTs)
  }

  /** Making links takes nothing out of the way that was in the way of pruning. */
  lemma PrunableLinked(before: Tree, linked: Tree, names: set<Name>, stale: set<Path>)
    requires SameExcept(before, linked, names) && names !! before.Keys
    ensures Prunable(linked, stale) <= Prunable(before, stale)
    ensures AllPrunable(before, stale) ==> AllPrunable(linked, stale)
  {
    forall n | n in before ensures n in linked && linked[n] == before[n] {
      assert n !in names;
    }
  }

  /** Steps 9 to 11: visible links are made and pruned, and the previous version is deleted. */
  method Expose(v: Volume, payload: Payload, stale: set<Path>, oldTs: Option<Name>)
      returns (status: Status, ghost unlinked: set<Name>)
    requires v.Valid() && Keyed(payload)
    modifies v
    ensures v.Valid() && old(v.history) <= v.history
    ensures TouchesOnly(v.history, |old(v.history)|, old(v.tree), ExposedNames(old(v.tree), payload, stale, oldTs))
    ensures SameExcept(old(v.tree), v.tree, ExposedNames(old(v.tree), payload, stale, oldTs))
    ensures status.Failure? ==> !BeforeSwitch(status.stage)
    ensures status.Success? ==>
              && (forall p :: p in stale && |p| == 1 ==> p[0] !in v.tree)
              && (oldTs.Some? ==> oldTs.value !in v.tree)
              && (forall n :: n in Tops(payload) && n !in old(v.tree) && [n] !in stale && oldTs != Some(n) ==>
                    if n in unlinked then n !in v.tree else n in v.tree && v.tree[n] == Link([DATA, n]))
    ensures unlinked <= Tops(payload) - old(v.tree).Keys && (v.reliable ==> unlinked == {})
    ensures status.Success? && (forall n :: n in Tops(payload) ==> [n] !in stale) ==> AllPrunable(old(v.tree), stale)
    ensures v.reliable && AllPrunable(old(v.tree), stale) ==> status.Success?
  {
    ghost var before := v.tree;
    ghost var links, names := Tops(payload) - before.Keys, ExposedNames(before, payload, stale, oldTs);
    var ok;
    ok, unlinked := CreateUserVisibleFiles(v, payload);
    ghost var linked, h := v.tree, v.history;
    PrunableLinked(before, linked, links, stale);
    if !ok {
      TouchesInTurn(h, h, |old(v.history)|, before, linked, linked, links, {}, names);
      status := Failure(Links);
    } else {
      status := PruneAndCleanUp(v, stale, oldTs);
      TouchesInTurn(h, v.history, |old(v.history)|, before, linked, v.tree,
                    links, Prunable(linked, stale) + Opt(oldTs), names);
      forall n | n in Tops(payload) && n !in before && [n] !in stale && oldTs != Some(n)
        ensures n !in Prunable(linked, stale) + Opt(oldTs)
      {
        forall p | p in stale && |p| == 1 ensures p[0] != n {
          assert p == [p[0]];
        }
      }
      PrunableBefore(before, linked, payload, stale);
    }
  }

  /** Nor does it put in place what has to be pruned. */
  lemma PrunableBefore(before: Tree, linked: Tree, payload: Payload, stale: set<Path>)
    requires SameExcept(before, linked, Tops(payload) - before.Keys)
    ensures AllPrunable(linked, stale) && (forall n :: n in Tops(payload) ==> [n] !in stale) ==>
              AllPrunable(before, stale)
  {
    if AllPrunable(linked, stale) && forall n :: n in Tops(payload) ==> [n] !in stale {
      forall p | p in stale && |p| == 1 ensures p[0] in before && !Solid(before, p[0]) {
        assert p == [p[0]];
      }
    }
  }

  /** Steps 10 and 11. */
  method PruneAndCleanUp(v: Volume, stale: set<Path>, oldTs: Option<Name>) returns (status: Status)
    requires v.Valid()
    modifies v
    ensures v.Valid() && old(v.history) <= v.history
    ensures TouchesOnly(v.history, |old(v.history)|, old(v.tree), Prunable(old(v.tree), stale) + Opt(oldTs))
    ensures SameExcept(old(v.tree), v.tree, Prunable(old(v.tree), stale) + Opt(oldTs))
    ensures status.Failure? ==> status.stage in {Prune, CleanUp}
    ensures status.Success? ==> forall p :: p in stale && |p| == 1 ==> p[0] !in v.tree
    ensures status.Success? && oldTs.Some? ==> oldTs.value !in v.tree
    ensures status.Success? ==> AllPrunable(old(v.tree), stale)
    ensures v.reliable && AllPrunable(old(v.tree), stale) ==> status.Success?
  {
    ghost var before := v.tree;
    ghost var names := Prunable(before, stale);
    var ok := RemoveUserVisiblePaths(v, stale);
    ghost var h, mid := v.history, v.tree;
    if !ok {
      TouchesInTurn(h, h, |old(v.history)|, before, mid, mid, names, {}, names + Opt(oldTs));
      status := Failure(Prune);
    } else if oldTs.Some? {
      ok := v.RemoveAll(oldTs.value);
      TouchesInTurn(h, v.history, |old(v.history)|, before, mid, v.tree, names, {oldTs.value}, names + Opt(oldTs));
      status := if ok then Success else Failure(CleanUp);
    } else {
      TouchesInTurn(h, h, |old(v.history)|, before, mid, mid, names, {}, names + Opt(oldTs));
      status := Success;
    }
  }

  /** The directory right after the data link is switched. */
  ghost predicate Switched(before: Tree, payload: Payload, ts: Name, t: Tree) {
    && TimestampName(ts) && ts !in before && DATA_TMP !in before
    && DATA in t && t[DATA] == Link([ts])
    && ts in t && t[ts].Directory? && LaidOut(t[ts].files, payload)
    && SameExcept(before, t, {ts, DATA})
  }

  lemma SwitchedServes(before: Tree, payload: Payload, ts: Name, t: Tree)
    requires Keyed(payload) && Switched(before, payload, ts, t)
    ensures Serving(t, payload, ts) && Sound(t) && Projected(t) == Some(payload)
  {
    ServingShows(t, payload, ts);
  }

  /** The stale paths that a walk of the current version comes to. */
  ghost predicate StaleIn(before: Tree, payload: Payload, unread: set<Path>, stale: set<Path>) {
    && (CurrentDir(before).None? ==> stale == {})
    && (CurrentDir(before).Some? ==>
          && CurrentDir(before).value in before && before[CurrentDir(before).value].Directory?
          && forall q :: q in stale <==>
               q in before[CurrentDir(before).value].files && Walked(unread, q) && !InClosure(payload, q))
  }

  lemma StaleTop(before: Tree, payload: Payload, o: Oversight, stale: set<Path>, n: Name)
    requires StaleIn(before, payload, o.unread, stale)
    ensures [n] in stale <==> IsPruned(before, payload, o, n)
    ensures n in Tops(payload) ==> [n] !in stale
  {
    assert [n][..0] == [];
    ClosureOfTop(payload, n);
  }

  lemma VisibleName(stale: set<Path>, n: Name)
    ensures n in VisibleNames(stale) <==> [n] in stale
  {
    if n in VisibleNames(stale) {
      var p :| p in stale && |p| == 1 && p[0] == n;
      assert p == [n];
    }
  }

  /** Entries outside the names that a change may touch. */
  lemma EntryKept(t: Tree, t': Tree, names: set<Name>, n: Name)
    requires SameExcept(t, t', names) && n !in names
    ensures n in t <==> n in t'
    ensures n in t ==> t'[n] == t[n]
  {
  }

  lemma PublishedEntry(before: Tree, payload: Payload, ts: Name, switched: Tree, stale: set<Path>, o: Oversight,
                       after: Tree, n: Name)
    requires SameExcept(before, switched, {ts, DATA}) && n != DATA && n != ts
    requires [n] in stale <==> IsPruned(before, payload, o, n)
    requires o.unlinked <= Tops(payload) - switched.Keys
    requires SameExcept(switched, after, ExposedNames(switched, payload, stale, CurrentDir(before)))
    requires [n] in stale || CurrentDir(before) == Some(n) ==> n !in after
    requires n in Tops(payload) && n !in switched && [n] !in stale && CurrentDir(before) != Some(n) ==>
               if n in o.unlinked then n !in after else n in after && after[n] == Link([DATA, n])
    ensures EntryPublished(before, payload, o, after, n)
  {
    EntryKept(before, switched, {ts, DATA}, n);
    VisibleName(stale, n);
    assert Prunable(switched, stale) <= VisibleNames(stale);
    if [n] !in stale && CurrentDir(before) != Some(n) && (n in before || n !in Tops(payload)) {
      EntryKept(switched, after, ExposedNames(switched, payload, stale, CurrentDir(before)), n);
    }
  }

  /** Why no step of the exposure reaches the data link or the new version. */
  lemma ExposureAvoidsData(before: Tree, payload: Payload, ts: Name, t: Tree, stale: set<Path>, o: Oversight)
    requires Sound(before) && Switched(before, payload, ts, t) && StaleIn(before, payload, o.unread, stale)
    requires KeepsLink(before, payload, ts, o)
    ensures DATA !in ExposedNames(t, payload, stale, CurrentDir(before))
    ensures ts !in ExposedNames(t, payload, stale, CurrentDir(before))
  {
    if payload != map[] {
      var p :| p in payload;
      assert p in t[ts].files;
      assert Solid(t, ts);
    }
    if CurrentDir(before).Some? {
      ReservedNamesDiffer(CurrentDir(before).value);
    }
    StaleTop(before, payload, o, stale, DATA);
    StaleTop(before, payload, o, stale, ts);
    NotExposed(t, payload, stale, CurrentDir(before), DATA);
    NotExposed(t, payload, stale, CurrentDir(before), ts);
  }

  lemma NotExposed(t: Tree, payload: Payload, stale: set<Path>, oldTs: Option<Name>, n: Name)
    requires n in t && oldTs != Some(n) && ([n] !in stale || Solid(t, n))
    ensures n !in ExposedNames(t, payload, stale, oldTs)
  {
    forall p | p in stale && |p| == 1 && p[0] == n ensures Solid(t, n) {
      assert p == [n];
    }
  }

  /** When a write that does not keep the link has done all its steps, the link or what it leads to is gone. */
  lemma LinkLost(before: Tree, payload: Payload, ts: Name, switched: Tree, stale: set<Path>, o: Oversight, after: Tree)
    requires Sound(before) && Switched(before, payload, ts, switched) && StaleIn(before, payload, o.unread, stale)
    requires !KeepsLink(before, payload, ts, o)
    requires SameExcept(switched, after, ExposedNames(switched, payload, stale, CurrentDir(before)))
    requires forall p :: p in stale && |p| == 1 ==> p[0] !in after
    ensures Projected(after).None?
  {
    StaleTop(before, payload, o, stale, DATA);
    StaleTop(before, payload, o, stale, ts);
    assert [DATA][0] == DATA && [ts][0] == ts;
    if [DATA] !in stale {
      VisibleName(stale, DATA);
      if CurrentDir(before).Some? {
        ReservedNamesDiffer(CurrentDir(before).value);
      }
      EntryKept(switched, after, ExposedNames(switched, payload, stale, CurrentDir(before)), DATA);
    }
  }

  predicate Placeable(t: Tree, payload: Payload) {
    PrefixFree(payload) && ["."] !in payload && DATA_TMP !in t
  }

  /** Every stale visible name can be removed once the link is switched to `ts`. */
  ghost predicate StaleRemovable(t: Tree, payload: Payload, ts: Name) {
    forall n :: IsStale(t, payload, n) ==> if n == ts then payload == map[] else n in t && !Solid(t, n)
  }

  /** What is there can be compared with the payload, in this order, as far as it has to be. */
  ghost predicate Comparable(t: Tree, payload: Payload, order: seq<Path>)
    requires Enumerates(order, payload)
  {
    CurrentFiles(t).Some? ==> !Compared(order, payload, CurrentFiles(t).value).CannotRead?
  }

  /** What decides whether a write succeeds when no call fails of itself: the comparison, and, unless the
      payload is there already, whether it can be laid out, no temporary link is in the way, and every
      name to be pruned can be. */
  ghost predicate Succeeds(t: Tree, payload: Payload, order: seq<Path>, ts: Name)
    requires Enumerates(order, payload)
  {
    Comparable(t, payload, order) && (UpToDate(t, payload) || (Placeable(t, payload) && StaleRemovable(t, payload, ts)))
  }

  /** Whether the steps behind the comparison succeed, on a volume where no call fails of itself. */
  lemma SwitchedPrunable(before: Tree, payload: Payload, ts: Name, t: Tree, stale: set<Path>)
    requires Sound(before) && Switched(before, payload, ts, t) && StaleIn(before, payload, {}, stale)
    ensures AllPrunable(t, stale) <==> StaleRemovable(before, payload, ts)
  {
    forall n ensures [n] in stale <==> IsStale(before, payload, n) {
      StaleTop(before, payload, NOTHING_MISSED, stale, n);
    }
    assert Solid(t, ts) <==> payload != map[] by {
      if payload != map[] {
        var p :| p in payload;
        assert p in t[ts].files;
      }
    }
    forall n | IsStale(before, payload, n) && n != ts
      ensures n in t && !Solid(t, n) <==> n in before && !Solid(before, n)
    {
      assert DATA in before;
    }
    if StaleRemovable(before, payload, ts) {
      forall p | p in stale && |p| == 1 ensures p[0] in t && !Solid(t, p[0]) {
        assert p == [p[0]] && IsStale(before, payload, p[0]);
      }
    }
    if AllPrunable(t, stale) {
      forall n | IsStale(before, payload, n) ensures n in t && !Solid(t, n) {
        assert [n] in stale && [n][0] == n;
      }
    }
  }

  /** Entries that are there, are not the writer's own and are no top-level name of the current version. */
  ghost predicate Foreign(t: Tree, n: Name) {
    n in t && !OwnName(n) && (CurrentFiles(t).Some? ==> [n] !in CurrentFiles(t).value)
  }

  /** No write touches such an entry. */
  ghost predicate KeepsForeign(before: Tree, after: Tree) {
    forall n :: Foreign(before, n) ==> n in after && after[n] == before[n]
  }

  lemma ForeignFrame(before: Tree, after: Tree, ts: Name)
    requires SameExcept(before, after, {ts, DATA_TMP, DATA}) && (ts in before ==> OwnName(ts))
    ensures KeepsForeign(before, after)
  {
    assert OwnName(DATA) && OwnName(DATA_TMP);
  }

  /** The whole write.  `swap` is the index of the first recorded state that shows the new payload.

      Whatever call fails, and wherever a crash cuts the history, every state before the switch shows what
      the volume showed before, and every state from the switch on serves exactly the new payload, provided
      that the names to be pruned spare the data link; a write that goes through shows its payload in the
      end exactly if they do.  A write that succeeds has either found nothing to do, as far as it could
      see, and changed nothing, or published the payload, but for what it missed.  When no call fails of
      itself it misses nothing, and succeeds exactly if the state of the volume lets it.  A temporary link
      left over from an earlier crash makes every write that has something to do fail before the switch. */
  method Write(v: Volume, raw: map<string, Bytes>)
    returns (status: Status, ts: Name, ghost clean: Payload, ghost swap: nat, ghost order: seq<Path>,
             ghost o: Oversight)
    requires v.Valid() && Sound(v.tree)
    modifies v
    ensures v.Valid() && old(v.history) <= v.history && KeepsForeign(old(v.tree), v.tree)
    ensures status == Failure(Validate) <==> exists k :: k in raw && !ValidPath(k)
    ensures status != Failure(Validate) ==> IsCleaned(raw, clean) && Keyed(clean) && Enumerates(order, clean)
    ensures |old(v.history)| <= swap <= |v.history|
    ensures Shows(v.history, |old(v.history)|, swap, Projected(old(v.tree)))
    ensures swap == |v.history| ==> Sound(v.tree) && CurrentFiles(v.tree) == CurrentFiles(old(v.tree))
    ensures ts == "" || TimestampName(ts)
    ensures swap < |v.history| ==> TimestampName(ts) && ts !in old(v.tree)
    ensures KeepsLink(old(v.tree), clean, ts, o) ==> Serves(v.history, swap, clean, ts)
    ensures status.Failure? ==> (swap == |v.history| <==> BeforeSwitch(status.stage))
    ensures status.Failure? && BeforeSwitch(status.stage) ==> SameExcept(old(v.tree), v.tree, {ts, DATA_TMP})
    ensures status.Success? && LooksUpToDate(old(v.tree), clean, o.unread) ==>
              v.tree == old(v.tree) && v.history == old(v.history)
    ensures status.Success? && !LooksUpToDate(old(v.tree), clean, o.unread) ==>
              && swap < |v.history|
              && Projected(v.tree) == (if KeepsLink(old(v.tree), clean, ts, o) then Some(clean) else None)
              && (KeepsLink(old(v.tree), clean, ts, o) ==> Published(old(v.tree), clean, ts, o, v.tree))
    ensures DATA_TMP in old(v.tree) && status.Success? ==> LooksUpToDate(old(v.tree), clean, o.unread)
    ensures v.reliable ==> o == NOTHING_MISSED
    ensures v.reliable && status != Failure(Validate) ==>
              (status.Success? <==> Succeeds(old(v.tree), clean, order, ts))
  {
    ts := "";
    swap := |v.history|;
    order, o := [], NOTHING_MISSED;
    var ok, payload := ValidatePayload(raw);
    clean := payload;
    if !ok {
      status := Failure(Validate);
    } else {
      assert Keyed(payload);
      order := AnyOrder(payload.Keys);
      var readFault := v.Fault();
      if readFault {
        status := Failure(ReadLink);
      } else {
        ghost var unread;
        var compared, stale;
        compared, stale, order, unread := CompareWithCurrent(v.tree, payload, v.reliable);
        o := Oversight(unread, {});
        match compared {
          case CannotRead => status := Failure(Compare);
          case Same => status := Success;
          case Differs =>
            status, ts, swap, o := Replace(v, payload, stale, unread);
        }
      }
    }
  }

  /** Steps 2 to 4: the paths that have to go, as far as the walk comes to them, and whether there is
      anything to do at all. */
  method CompareWithCurrent(t: Tree, payload: Payload, reliable: bool)
      returns (c: Comparison, stale: set<Path>, ghost order: seq<Path>, ghost unread: set<Path>)
    requires Sound(t)
    ensures Enumerates(order, payload) && (reliable ==> unread == {})
    ensures !c.CannotRead? ==> StaleIn(t, payload, unread, stale)
    ensures c.Same? ==> LooksUpToDate(t, payload, unread)
    ensures c.Differs? ==> !LooksUpToDate(t, payload, unread)
    ensures c.Same? ==> stale == {}
    ensures reliable && !c.CannotRead? ==> (c.Same? <==> UpToDate(t, payload))
    ensures reliable ==> (c.CannotRead? <==> !Comparable(t, payload, order))
  {
    var oldTs := CurrentDir(t);
    stale, unread, order := {}, {}, AnyOrder(payload.Keys);
    c := Differs;
    if oldTs.Some? {
      var files := t[oldTs.value].files;
      stale, unread := PathsToRemove(payload, files, reliable);
      c, order := ShouldWritePayload(payload, files, reliable);
      if !c.CannotRead? {
        SkippedWhenUpToDate(t, payload, unread, stale, c);
        if stale != {} {
          c := Differs;
        }
      }
    }
  }

  lemma SkippedWhenUpToDate(before: Tree, payload: Payload, unread: set<Path>, stale: set<Path>, c: Comparison)
    requires CurrentDir(before).Some? && StaleIn(before, payload, unread, stale) && !c.CannotRead?
    requires c.Same? <==> InPlace(before[CurrentDir(before).value].files, payload)
    ensures c.Same? && stale == {} <==> LooksUpToDate(before, payload, unread)
  {
    var files := before[CurrentDir(before).value].files;
    if stale != {} {
      var q :| q in stale;
      assert q in files && Walked(unread, q) && !InClosure(payload, q);
    }
  }

  /** Every state from `from` on serves the payload. */
  ghost predicate Serves(h: seq<Tree>, from: nat, payload: Payload, ts: Name) {
    forall i | from <= i < |h| :: Serving(h[i], payload, ts)
  }

  /** Steps 5 to 11: the new version is staged, the data link switched to it, and the visible names
      brought in line. */
  method Replace(v: Volume, payload: Payload, stale: set<Path>, ghost unread: set<Path>)
      returns (status: Status, ts: Name, ghost swap: nat, ghost o: Oversight)
    requires v.Valid() && Sound(v.tree) && Keyed(payload)
    requires StaleIn(v.tree, payload, unread, stale)
    modifies v
    ensures v.Valid() && old(v.history) <= v.history && KeepsForeign(old(v.tree), v.tree)
    ensures o.unread == unread && (v.reliable ==> o.unlinked == {})
    ensures |old(v.history)| <= swap <= |v.history|
    ensures Shows(v.history, |old(v.history)|, swap, Projected(old(v.tree)))
    ensures swap == |v.history| ==> Sound(v.tree) && CurrentFiles(v.tree) == CurrentFiles(old(v.tree))
    ensures TimestampName(ts) && (swap < |v.history| ==> ts !in old(v.tree))
    ensures KeepsLink(old(v.tree), payload, ts, o) ==> Serves(v.history, swap, payload, ts)
    ensures status.Failure? ==> status.stage !in {Validate, ReadLink, Compare}
    ensures status.Failure? ==> (swap == |v.history| <==> BeforeSwitch(status.stage))
    ensures status.Failure? && BeforeSwitch(status.stage) ==> SameExcept(old(v.tree), v.tree, {ts, DATA_TMP})
    ensures status.Success? ==> swap < |v.history|
    ensures status.Success? ==>
              && Projected(v.tree) == (if KeepsLink(old(v.tree), payload, ts, o) then Some(payload) else None)
              && (KeepsLink(old(v.tree), payload, ts, o) ==> Published(old(v.tree), payload, ts, o, v.tree))
    ensures DATA_TMP in old(v.tree) ==> status.Failure?
    ensures v.reliable && unread == {} ==>
              (status.Success? <==> Placeable(old(v.tree), payload) && StaleRemovable(old(v.tree), payload, ts))
  {
    ghost var before := v.tree;
    var oldTs := CurrentDir(v.tree);
    o := Oversight(unread, {});
    status, ts := StageAndSwitch(v, payload);
    swap := |v.history|;
    if status.Success? {
      swap := |v.history| - 1;
      ghost var atSwitch := v.history;
      SwitchedServes(before, payload, ts, v.tree);
      assert Serving(atSwitch[|atSwitch| - 1], payload, ts);
      status, o := ExposeSwitched(v, before, payload, ts, stale, oldTs, unread);
      ShownInTurn(atSwitch, v.history, |old(v.history)|, Projected(before), payload, ts);
    }
  }

  /** A history that ends with the switch, continued by further states. */
  lemma ShownInTurn(h1: seq<Tree>, h2: seq<Tree>, from: nat, before: Option<Payload>, payload: Payload, ts: Name)
    requires h1 <= h2 && from < |h1|
    requires Shows(h1, from, |h1| - 1, before) && Serving(h1[|h1| - 1], payload, ts)
    ensures Shows(h2, from, |h1| - 1, before)
    ensures Serves(h2, |h1|, payload, ts) ==> Serves(h2, |h1| - 1, payload, ts)
  {
    assert forall i | 0 <= i < |h1| :: h2[i] == h1[i];
  }

  method ExposeSwitched(v: Volume, ghost before: Tree, payload: Payload, ghost ts: Name, stale: set<Path>,
                        oldTs: Option<Name>, ghost unread: set<Path>)
      returns (status: Status, ghost o: Oversight)
    requires v.Valid() && Keyed(payload) && Sound(before)
    requires Switched(before, payload, ts, v.tree) && StaleIn(before, payload, unread, stale)
    requires oldTs == CurrentDir(before)
    modifies v
    ensures v.Valid() && old(v.history) <= v.history && KeepsForeign(before, v.tree)
    ensures o.unread == unread && (v.reliable ==> o.unlinked == {})
    ensures KeepsLink(before, payload, ts, o) ==> Serves(v.history, |old(v.history)|, payload, ts)
    ensures status.Failure? ==> !BeforeSwitch(status.stage)
    ensures status.Success? ==>
              && Projected(v.tree) == (if KeepsLink(before, payload, ts, o) then Some(payload) else None)
              && (KeepsLink(before, payload, ts, o) ==> Published(before, payload, ts, o, v.tree))
    ensures v.reliable && unread == {} ==> (status.Success? <==> StaleRemovable(before, payload, ts))
  {
    ghost var switched, unlinked := v.tree, {};
    status, unlinked := Expose(v, payload, stale, oldTs);
    o := Oversight(unread, unlinked);
    ForeignKept(before, payload, ts, switched, stale, o, v.tree);
    ExposedSuccess(before, payload, ts, switched, stale, unread);
    if KeepsLink(before, payload, ts, o) {
      ExposureServes(before, payload, ts, switched, stale, o, v.history, |old(v.history)|);
      ServingKept(before, payload, ts, switched, stale, o, v.tree);
      ServingShows(v.tree, payload, ts);
      if status.Success? {
        PublishedAll(before, payload, ts, switched, stale, o, v.tree);
      }
    } else if status.Success? {
      LinkLost(before, payload, ts, switched, stale, o, v.tree);
    }
  }

  lemma ExposedSuccess(before: Tree, payload: Payload, ts: Name, switched: Tree, stale: set<Path>, unread: set<Path>)
    requires Sound(before) && Switched(before, payload, ts, switched) && StaleIn(before, payload, unread, stale)
    ensures forall n :: n in Tops(payload) ==> [n] !in stale
    ensures unread == {} ==> (AllPrunable(switched, stale) <==> StaleRemovable(before, payload, ts))
  {
    forall n | n in Tops(payload) ensures [n] !in stale {
      StaleTop(before, payload, Oversight(unread, {}), stale, n);
    }
    if unread == {} {
      SwitchedPrunable(before, payload, ts, switched, stale);
    }
  }

  lemma ForeignKept(before: Tree, payload: Payload, ts: Name, switched: Tree, stale: set<Path>, o: Oversight, t: Tree)
    requires Sound(before) && Switched(before, payload, ts, switched) && StaleIn(before, payload, o.unread, stale)
    requires SameExcept(switched, t, ExposedNames(switched, payload, stale, CurrentDir(before)))
    ensures KeepsForeign(before, t)
  {
    forall n | Foreign(before, n) ensures n in t && t[n] == before[n] {
      StaleTop(before, payload, o, stale, n);
      ReservedNamesDiffer(ts);
      assert n in switched && switched[n] == before[n];
      NotExposed(switched, payload, stale, CurrentDir(before), n);
    }
  }

  method Abandon(v: Volume, ts: Name)
    requires v.Valid()
    modifies v
    ensures v.Valid() && old(v.history) <= v.history
    ensures TouchesOnly(v.history, |old(v.history)|, old(v.tree), {ts, DATA_TMP})
    ensures SameExcept(old(v.tree), v.tree, {ts, DATA_TMP})
  {
    var _ := v.Remove(DATA_TMP);
    var _ := v.RemoveAll(ts);
  }

  /** Steps 5 to 8: the new version is staged and the data link renamed to it, which is the last call. */
  method StageAndSwitch(v: Volume, payload: Payload) returns (status: Status, ts: Name)
    requires v.Valid() && Sound(v.tree) && Keyed(payload)
    modifies v
    ensures v.Valid() && old(v.history) <= v.history && KeepsForeign(old(v.tree), v.tree)
    ensures TimestampName(ts) && (status.Success? ==> Placeable(old(v.tree), payload))
    ensures v.reliable && Placeable(old(v.tree), payload) ==> status.Success?
    ensures status.Failure? ==> status.stage in {MakeDir, WriteFiles, TmpLink, Swap}
    ensures status.Failure? ==> SameExcept(old(v.tree), v.tree, {ts, DATA_TMP})
    ensures status.Failure? ==> Shows(v.history, |old(v.history)|, |v.history|, Projected(old(v.tree)))
    ensures status.Failure? ==> Sound(v.tree) && CurrentFiles(v.tree) == CurrentFiles(old(v.tree))
    ensures status.Success? ==> Switched(old(v.tree), payload, ts, v.tree)
    ensures status.Success? ==> |v.history| > |old(v.history)|
    ensures status.Success? ==> Shows(v.history, |old(v.history)|, |v.history| - 1, Projected(old(v.tree)))
  {
    ghost var before := v.tree;
    status, ts := StageNewVersion(v, payload);
    BeforeSwitchShows(v.history, |old(v.history)|, before, v.tree, ts);
    if status.Success? {
      ghost var staged := v.tree;
      var ok := v.Rename(DATA_TMP, DATA);
      if ok {
        RenameSwitches(before, payload, ts, staged, v.tree);
      } else {
        Abandon(v, ts);
        BeforeSwitchShows(v.history, |old(v.history)|, before, v.tree, ts);
        status := Failure(Swap);
      }
    }
  }

  /** The rename of the temporary link is the switch. */
  lemma RenameSwitches(before: Tree, payload: Payload, ts: Name, staged: Tree, after: Tree)
    requires TimestampName(ts) && ts !in before && DATA_TMP !in before
    requires DATA_TMP in staged && staged[DATA_TMP] == Link([ts])
    requires ts in staged && staged[ts].Directory? && LaidOut(staged[ts].files, payload)
    requires SameExcept(before, staged, {ts, DATA_TMP})
    requires after == (staged - {DATA_TMP})[DATA := staged[DATA_TMP]]
    ensures Switched(before, payload, ts, after) && KeepsForeign(before, after)
  {
    ReservedNamesDiffer(ts);
    assert after[ts] == staged[ts];
    ForeignFrame(before, after, ts);
  }

  lemma ServingKept(before: Tree, payload: Payload, ts: Name, switched: Tree, stale: set<Path>, o: Oversight, t: Tree)
    requires Sound(before) && Switched(before, payload, ts, switched) && StaleIn(before, payload, o.unread, stale)
    requires KeepsLink(before, payload, ts, o)
    requires SameExcept(switched, t, ExposedNames(switched, payload, stale, CurrentDir(before)))
    ensures Serving(t, payload, ts)
  {
    ExposureAvoidsData(before, payload, ts, switched, stale, o);
  }

  lemma ExposureServes(before: Tree, payload: Payload, ts: Name, switched: Tree, stale: set<Path>, o: Oversight,
                       h: seq<Tree>, from: nat)
    requires Sound(before) && Switched(before, payload, ts, switched) && StaleIn(before, payload, o.unread, stale)
    requires KeepsLink(before, payload, ts, o)
    requires TouchesOnly(h, from, switched, ExposedNames(switched, payload, stale, CurrentDir(before)))
    ensures Serves(h, from, payload, ts)
  {
    forall i | from <= i < |h| ensures Serving(h[i], payload, ts) {
      ServingKept(before, payload, ts, switched, stale, o, h[i]);
    }
  }

  lemma PublishedAll(before: Tree, payload: Payload, ts: Name, switched: Tree, stale: set<Path>, o: Oversight,
                     after: Tree)
    requires Sound(before) && Switched(before, payload, ts, switched) && StaleIn(before, payload, o.unread, stale)
    requires KeepsLink(before, payload, ts, o) && o.unlinked <= Tops(payload) - switched.Keys
    requires SameExcept(switched, after, ExposedNames(switched, payload, stale, CurrentDir(before)))
    requires forall p :: p in stale && |p| == 1 ==> p[0] !in after
    requires CurrentDir(before).Some? ==> CurrentDir(before).value !in after
    requires forall n :: n in Tops(payload) && n !in switched && [n] !in stale && CurrentDir(before) != Some(n) ==>
               if n in o.unlinked then n !in after else n in after && after[n] == Link([DATA, n])
    ensures Published(before, payload, ts, o, after)
  {
    ServingKept(before, payload, ts, switched, stale, o, after);
    forall n | n in o.unlinked ensures n !in before {
      assert n !in switched;
    }
    forall n | n != DATA && n != ts ensures EntryPublished(before, payload, o, after, n) {
      PublishedOne(before, payload, ts, switched, stale, o, after, n);
    }
  }

  lemma PublishedOne(before: Tree, payload: Payload, ts: Name, switched: Tree, stale: set<Path>, o: Oversight,
                     after: Tree, n: Name)
    requires Switched(before, payload, ts, switched) && StaleIn(before, payload, o.unread, stale)
    requires o.unlinked <= Tops(payload) - switched.Keys && n != DATA && n != ts
    requires SameExcept(switched, after, ExposedNames(switched, payload, stale, CurrentDir(before)))
    requires forall p :: p in stale && |p| == 1 ==> p[0] !in after
    requires CurrentDir(before).Some? ==> CurrentDir(before).value !in after
    requires n in Tops(payload) && n !in switched && [n] !in stale && CurrentDir(before) != Some(n) ==>
               if n in o.unlinked then n !in after else n in after && after[n] == Link([DATA, n])
    ensures EntryPublished(before, payload, o, after, n)
  {
    StaleTop(before, payload, o, stale, n);
    assert [n] in stale ==> n !in after by {
      assert |[n]| == 1 && [n][0] == n;
    }
    PublishedEntry(before, payload, ts, switched, stale, o, after, n);
  }

  lemma BeforeSwitchShows(h: seq<Tree>, from: nat, before: Tree, now: Tree, ts: Name)
    requires Sound(before)
    requires TouchesOnly(h, from, before, {ts, DATA_TMP}) && SameExcept(before, now, {ts, DATA_TMP})
    requires TimestampName(ts)
    requires ts !in before || (TouchesOnly(h, from, before, {}) && SameExcept(before, now, {}))
    ensures Shows(h, from, |h|, Projected(before))
    ensures Sound(now) && CurrentFiles(now) == CurrentFiles(before) && KeepsForeign(before, now)
  {
    if DATA in before {
      ReservedNamesDiffer(CurrentDir(before).value);
    }
    if ts !in before {
      ReservedNamesDiffer(ts);
      ForeignFrame(before, now, ts);
      ShowsFrame(h, from, before, {ts, DATA_TMP});
      FrameProjected(before, now, {ts, DATA_TMP});
    } else {
      ShowsFrame(h, from, before, {});
      FrameProjected(before, now, {});
    }
  }
}
