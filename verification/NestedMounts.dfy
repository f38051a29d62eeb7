/** The directories that must be there so that other volumes can be mounted beneath one volume. */
module NestedMounts {
  import opened Wrappers
  import opened Strings

  /** A mount of the named volume; the path is the one path cleaning gives. */
  datatype Mount = Mount(name: string, path: string)

  type Container = seq<Mount>

  function Paths(c: Container): (ps: seq<string>)
    ensures |ps| == |c| && forall i | 0 <= i < |c| :: ps[i] == c[i].path
  {
    seq(|c|, i requires 0 <= i < |c| => c[i].path)
  }

  /** The test the code makes for one mount lying beneath another. */
  predicate Under(base: string, path: string) {
    base + ['/'] <= path
  }

  // ---------------------------------------------------------------- sorting

  predicate Leq(a: string, b: string) {
    a == "" || (b != "" && (a[0] < b[0] || (a[0] == b[0] && Leq(a[1..], b[1..]))))
  }

  predicate Sorted(s: seq<string>) {
    forall i, j | 0 <= i < j < |s| :: Leq(s[i], s[j])
  }

  lemma {:induction false} LeqTotal(a: string, b: string)
    ensures Leq(a, b) || Leq(b, a)
  {
    if a != "" && b != "" && a[0] == b[0] {
      LeqTotal(a[1..], b[1..]);
    }
  }

  lemma {:induction false} LeqTransitive(a: string, b: string, c: string)
    requires Leq(a, b) && Leq(b, c)
    ensures Leq(a, c)
  {
    if a != "" && a[0] == b[0] == c[0] {
      LeqTransitive(a[1..], b[1..], c[1..]);
    }
  }

  lemma {:induction false} LeqAntisymmetric(a: string, b: string)
    requires Leq(a, b) && Leq(b, a)
    ensures a == b
  {
    if a != "" && b != "" {
      LeqAntisymmetric(a[1..], b[1..]);
      assert a == [a[0]] + a[1..] && b == [b[0]] + b[1..];
    }
  }

  lemma {:induction false} PrefixFirst(a: string, b: string)
    requires a <= b
    ensures Leq(a, b)
  {
    if a != "" {
      assert a[1..] <= b[1..];
      PrefixFirst(a[1..], b[1..]);
    }
  }

  function Insert(x: string, s: seq<string>): (r: seq<string>)
    requires Sorted(s)
    ensures Sorted(r) && multiset(r) == multiset(s) + multiset{x}
  {
    if s == [] then [x]
    else if Leq(x, s[0]) then
      assert forall i | 0 <= i < |s| :: Leq(x, s[i]) by { LeqAll(x, s); }
      [x] + s
    else
      LeqTotal(x, s[0]);
      var rest := Insert(x, s[1..]);
      assert s == [s[0]] + s[1..];
      assert forall i | 0 <= i < |rest| :: Leq(s[0], rest[i]) by { HeadLeast(x, s, rest); }
      [s[0]] + rest
  }

  lemma LeqAll(x: string, s: seq<string>)
    requires s != [] && Sorted(s) && Leq(x, s[0])
    ensures forall i | 0 <= i < |s| :: Leq(x, s[i])
  {
    forall i | 0 < i < |s| ensures Leq(x, s[i]) {
      LeqTransitive(x, s[0], s[i]);
    }
  }

  lemma HeadLeast(x: string, s: seq<string>, rest: seq<string>)
    requires s != [] && Sorted(s) && Leq(s[0], x) && multiset(rest) == multiset(s[1..]) + multiset{x}
    ensures forall i | 0 <= i < |rest| :: Leq(s[0], rest[i])
  {
    forall i | 0 <= i < |rest| ensures Leq(s[0], rest[i]) {
      assert rest[i] in multiset(rest);
      assert rest[i] == x || rest[i] in s[1..];
    }
  }

  function SortStrings(s: seq<string>): (r: seq<string>)
    ensures Sorted(r) && multiset(r) == multiset(s)
  {
    if s == [] then []
    else
      assert s == [s[0]] + s[1..];
      Insert(s[0], SortStrings(s[1..]))
  }

  lemma SameElements(a: seq<string>, b: seq<string>)
    requires multiset(a) == multiset(b)
    ensures forall x :: x in a <==> x in b
  {
    assert forall x :: x in a <==> x in multiset(a);
    assert forall x :: x in b <==> x in multiset(b);
  }

  // ---------------------------------------------------------------- what is wanted

  /** A mount beneath the base with no other such mount in between: its directory must be made, those of
      mounts further below need not. */
  predicate Top(paths: seq<string>, base: string, path: string) {
    path in paths && Under(base, path) && forall q | q in paths && Under(base, q) :: !Under(q, path)
  }

  /** What is chosen for one place where the volume is mounted. */
  ghost predicate Chooses(dirs: seq<string>, paths: seq<string>, base: string) {
    forall d :: d in dirs <==> Top(paths, base, base + ['/'] + d)
  }

  lemma UnderTrans(a: string, b: string, c: string)
    requires Under(a, b) && Under(b, c)
    ensures Under(a, c)
  {
    assert b <= c;
  }

  /** No chosen directory lies beneath another, and every mount beneath the volume is chosen or lies beneath
      one that is. */
  lemma {:induction false} TopsCover(paths: seq<string>, base: string, path: string) returns (top: string)
    requires path in paths && Under(base, path)
    ensures Top(paths, base, top) && (top == path || Under(top, path))
    ensures forall other | Top(paths, base, other) :: !Under(other, top) && !Under(top, other)
    decreases |path|
  {
    if q :| q in paths && Under(base, q) && Under(q, path) {
      top := TopsCover(paths, base, q);
      if top != q {
        UnderTrans(top, q, path);
      }
    } else {
      top := path;
    }
  }

  // ---------------------------------------------------------------- what lies beneath a directory

  predicate Absolute(path: string) {
    ['/'] <= path
  }

  /** The components of a path; the root directory and the current one have none. */
  function Parts(path: string): seq<string> {
    if path == "/" || path == "." then []
    else Split(if Absolute(path) then path[1..] else path, '/')
  }

  /** What one means by a path lying beneath a directory: the same components, and then some that do not
      lead up. */
  predicate Beneath(base: string, path: string) {
    && (Absolute(base) <==> Absolute(path)) && Parts(base) < Parts(path)
    && Parts(path)[|Parts(base)|] != ".."
  }

  /** The paths that path cleaning gives: no empty component and no ".", and ".." only in front of all others
      of a relative path. */
  predicate CleanPath(path: string) {
    || path == "/" || path == "."
    || (&& path != "" && (forall i | 0 <= i < |Parts(path)| :: Parts(path)[i] != "" && Parts(path)[i] != ".")
        && (Absolute(path) ==> forall i | 0 <= i < |Parts(path)| :: Parts(path)[i] != "..")
        && forall i | 0 < i < |Parts(path)| :: Parts(path)[i] == ".." ==> Parts(path)[i - 1] == "..")
  }

  /** A relative path that only leads up. */
  predicate OnlyUp(path: string) {
    Parts(path) != [] && forall i | 0 <= i < |Parts(path)| :: Parts(path)[i] == ".."
  }

  /** The test on text is one on components, but for the paths that have none. */
  lemma UnderParts(base: string, path: string)
    requires CleanPath(base) && CleanPath(path) && Parts(base) != [] && Parts(path) != []
    ensures Under(base, path) <==> (Absolute(base) <==> Absolute(path)) && Parts(base) < Parts(path)
  {
    PrefixParts(base, path, '/');
    WholeParts(base);
    WholeParts(path);
    RootedPrefix(Parts(base), Parts(path));
  }

  lemma RootedPrefix(p: seq<string>, q: seq<string>)
    ensures [""] + p < [""] + q <==> p < q
    ensures p != [] && q != [] && p[0] != "" && q[0] != "" ==> !([""] + p < q) && !(p < [""] + q)
  {
    var a, b := [""] + p, [""] + q;
    assert p < q ==> a == b[..|a|];
    if a < b {
      assert p == a[1..] && q == b[1..];
    }
    if p != [] && q != [] {
      assert a[0] == "" && b[0] == "" && a[0] in a;
      assert a < q ==> q[0] == a[0];
      assert p < b ==> b[0] == p[0];
    }
  }

  lemma WholeParts(path: string)
    requires path != "/" && path != "."
    ensures Absolute(path) ==> Split(path, '/') == [""] + Parts(path)
    ensures !Absolute(path) ==> Split(path, '/') == Parts(path)
  {
    if Absolute(path) {
      assert path == "" + ['/'] + path[1..];
      SplitAfter("", path[1..], '/');
    }
  }

  lemma {:induction false} LeadsUp(path: string, k: nat, i: nat)
    requires CleanPath(path) && i <= k < |Parts(path)| && Parts(path)[k] == ".."
    ensures Parts(path)[i] == ".."
    decreases k
  {
    if i < k {
      LeadsUp(path, k - 1, i);
    }
  }

  /** A path beneath another cannot lead up behind it, unless the other one does nothing else. */
  lemma NeverUpBehind(base: string, path: string)
    requires CleanPath(path) && Parts(base) != [] && Parts(base) < Parts(path) && !OnlyUp(base)
    ensures Parts(path)[|Parts(base)|] != ".."
  {
    var k := |Parts(base)|;
    if Parts(path)[k] == ".." {
      forall i | 0 <= i < k ensures Parts(base)[i] == ".." {
        LeadsUp(path, k, i);
      }
    }
  }

  ghost predicate FindsBeneath(base: string) {
    forall path | CleanPath(path) :: Under(base, path) <==> Beneath(base, path)
  }

  /** The test finds exactly what lies beneath a mount, for whatever other mounts, exactly if the mount is
      neither the root directory nor the current one, beneath which it finds nothing, nor one that only
      leads up, where it takes what lies above for beneath. */
  lemma UnderExactly(base: string)
    requires CleanPath(base)
    ensures FindsBeneath(base) <==> base != "/" && base != "." && !OnlyUp(base)
  {
    if base == "/" {
      PlainPart();
      assert CleanPath("/a") && !Under("/", "/a") && Beneath("/", "/a");
    } else if base == "." {
      PlainPart();
      assert CleanPath("a") && !Under(".", "a") && Beneath(".", "a");
    } else if OnlyUp(base) {
      UpAgain(base);
      assert !FindsBeneath(base);
    } else {
      forall path | CleanPath(path) ensures Under(base, path) <==> Beneath(base, path) {
        FoundBeneath(base, path);
      }
    }
  }

  lemma PlainPart()
    ensures Parts("/a") == ["a"] && Parts("a") == ["a"]
  {
    assert "/a"[1..] == "a";
    SplitWhole("a", '/');
  }

  lemma UpAgain(base: string)
    requires CleanPath(base) && OnlyUp(base)
    ensures var path := base + "/.."; CleanPath(path) && Under(base, path) && !Beneath(base, path)
  {
    var path := base + "/..";
    SplitWhole("..", '/');
    SplitConcat(base, "..", '/');
    assert path == base + ['/'] + "..";
    assert !Absolute(base) && !Absolute(path);
    assert Parts(path) == Parts(base) + [".."];
  }

  lemma FoundBeneath(base: string, path: string)
    requires CleanPath(base) && CleanPath(path) && base != "/" && base != "." && !OnlyUp(base)
    ensures Under(base, path) <==> Beneath(base, path)
  {
    assert Parts(base) != [];
    if Parts(path) == [] {
      assert |path| == 1 && |base| >= 1;
    } else {
      UnderParts(base, path);
      if Parts(base) < Parts(path) {
        NeverUpBehind(base, path);
      }
    }
  }

  // ---------------------------------------------------------------- the code

  /** Sorting puts a mount before everything beneath it. */
  lemma ParentsFirst(s: seq<string>, i: nat, j: nat)
    requires Sorted(s) && i < |s| && j < |s| && Under(s[i], s[j])
    ensures i < j
  {
    assert s[i] <= s[j];
    PrefixFirst(s[i], s[j]);
    if j < i {
      LeqAntisymmetric(s[i], s[j]);
    }
  }

  /** The mounts among the first `k` that must be made. */
  ghost predicate ChosenUpTo(chosen: seq<string>, sorted: seq<string>, base: string, k: nat)
    requires k <= |sorted|
  {
    && (forall c | c in chosen :: Top(sorted, base, c) && c in sorted[..k])
    && forall i | 0 <= i < k && Under(base, sorted[i]) :: Covered(chosen, sorted[i])
  }

  predicate Nested(chosen: seq<string>, path: string) {
    exists c | c in chosen :: Under(c, path)
  }

  predicate Covered(chosen: seq<string>, path: string) {
    path in chosen || Nested(chosen, path)
  }

  /** A mount is beneath an already chosen one exactly if it is beneath any mount that is itself beneath
      the volume. */
  lemma SkippedExactly(chosen: seq<string>, sorted: seq<string>, base: string, k: nat)
    requires Sorted(sorted) && k < |sorted| && ChosenUpTo(chosen, sorted, base, k) && Under(base, sorted[k])
    ensures Nested(chosen, sorted[k]) <==> !Top(sorted, base, sorted[k])
  {
    var mp := sorted[k];
    if !Top(sorted, base, mp) {
      var q :| q in sorted && Under(base, q) && Under(q, mp);
      var i :| 0 <= i < |sorted| && sorted[i] == q;
      ParentsFirst(sorted, i, k);
      assert Covered(chosen, sorted[i]);
      if q !in chosen {
        var c :| c in chosen && Under(c, q);
        UnderTrans(c, q, mp);
      }
    }
  }

  /** One more mount: it is added if it lies beneath the volume and not beneath a chosen one. */
  lemma ChosenNext(chosen: seq<string>, sorted: seq<string>, base: string, k: nat)
    requires Sorted(sorted) && k < |sorted| && ChosenUpTo(chosen, sorted, base, k)
    ensures var mp := sorted[k];
            ChosenUpTo(if Under(base, mp) && !Nested(chosen, mp) then chosen + [mp] else chosen, sorted, base, k + 1)
  {
    var mp := sorted[k];
    var more := if Under(base, mp) && !Nested(chosen, mp) then chosen + [mp] else chosen;
    assert sorted[..k + 1] == sorted[..k] + [mp];
    if Under(base, mp) {
      SkippedExactly(chosen, sorted, base, k);
    }
    forall i | 0 <= i < k + 1 && Under(base, sorted[i]) ensures Covered(more, sorted[i]) {
      assert i < k ==> Covered(chosen, sorted[i]);
    }
  }

  method IsNested(prev: seq<string>, mp: string) returns (nested: bool)
    ensures nested == Nested(prev, mp)
  {
    nested := false;
    var i := 0;
    while i < |prev| && !nested
      invariant 0 <= i <= |prev|
      invariant nested ==> Nested(prev, mp)
      invariant !nested ==> forall j | 0 <= j < i :: !Under(prev[j], mp)
    {
      nested := Under(prev[i], mp);
      i := i + 1;
    }
  }

  /** `dirs` are the chosen paths without the base. */
  predicate Relative(dirs: seq<string>, chosen: seq<string>, base: string) {
    |dirs| == |chosen| && forall i | 0 <= i < |dirs| :: chosen[i] == base + ['/'] + dirs[i]
  }

  method NestedUnder(sorted: seq<string>, base: string) returns (dirs: seq<string>)
    requires Sorted(sorted)
    ensures Chooses(dirs, sorted, base)
  {
    dirs := [];
    var prev: seq<string> := [];
    var k := 0;
    while k < |sorted|
      invariant 0 <= k <= |sorted|
      invariant ChosenUpTo(prev, sorted, base, k)
      invariant Relative(dirs, prev, base)
    {
      var mp := sorted[k];
      ChosenNext(prev, sorted, base, k);
      if Under(base, mp) {
        var nested := IsNested(prev, mp);
        if !nested {
          prev := prev + [mp];
          dirs := dirs + [mp[|base| + 1..]];
        }
      }
      k := k + 1;
    }
    AllChosen(dirs, prev, sorted, base);
  }

  lemma AllChosen(dirs: seq<string>, chosen: seq<string>, sorted: seq<string>, base: string)
    requires ChosenUpTo(chosen, sorted, base, |sorted|) && Relative(dirs, chosen, base)
    ensures Chooses(dirs, sorted, base)
  {
    forall d: string ensures d in dirs <==> Top(sorted, base, base + ['/'] + d) {
      var path := base + ['/'] + d;
      if Top(sorted, base, path) {
        var i :| 0 <= i < |sorted| && sorted[i] == path;
        assert Covered(chosen, sorted[i]);
        var j :| 0 <= j < |chosen| && chosen[j] == path;
        assert dirs[j] == (base + ['/'] + dirs[j])[|base| + 1..] == path[|base| + 1..] == d;
      }
      if d in dirs {
        var j :| 0 <= j < |dirs| && dirs[j] == d;
        assert chosen[j] in chosen;
      }
    }
  }

  const PARENT := "../"

  /** Places where the volume is mounted in one container. */
  function Mine(c: Container, name: string): seq<string> {
    if c == [] then []
    else
      var before := Mine(c[..|c| - 1], name);
      if c[|c| - 1].name == name then before + [c[|c| - 1].path] else before
  }

  lemma {:induction false} MineExactly(c: Container, name: string, path: string)
    ensures path in Mine(c, name) <==> Mount(name, path) in c
    decreases |c|
  {
    if c != [] {
      var k := |c| - 1;
      MineExactly(c[..k], name, path);
      assert c == c[..k] + [c[k]];
    }
  }

  lemma TopSorted(paths: seq<string>, base: string, path: string)
    ensures Top(SortStrings(paths), base, path) <==> Top(paths, base, path)
  {
    SameElements(SortStrings(paths), paths);
  }

  /** The directory `d` must be made for a mount beneath `base`. */
  predicate Below(paths: seq<string>, base: string, d: string) {
    Top(paths, base, base + ['/'] + d)
  }

  /** The container mounts the volume outside its file system. */
  predicate Escapes(c: Container, name: string) {
    exists m | m in c :: m.name == name && "../" <= m.path
  }

  /** The container has a mount that needs the directory `d` in the volume. */
  predicate Wants(c: Container, name: string, d: string) {
    exists m | m in c :: m.name == name && Below(Paths(c), m.path, d)
  }

  lemma EscapesMine(c: Container, name: string)
    ensures Escapes(c, name) <==> exists path | path in Mine(c, name) :: PARENT <= path
  {
    if m :| m in c && m.name == name && PARENT <= m.path {
      assert m == Mount(name, m.path);
      MineExactly(c, name, m.path);
    }
    if path :| path in Mine(c, name) && PARENT <= path {
      MineExactly(c, name, path);
      assert Mount(name, path).name == name;
    }
  }

  lemma WantsMine(c: Container, name: string, d: string)
    ensures Wants(c, name, d) <==> exists path | path in Mine(c, name) :: Below(SortStrings(Paths(c)), path, d)
  {
    if m :| m in c && m.name == name && Below(Paths(c), m.path, d) {
      assert m == Mount(name, m.path);
      MineExactly(c, name, m.path);
      TopSorted(Paths(c), m.path, m.path + ['/'] + d);
      assert Below(SortStrings(Paths(c)), m.path, d);
    }
    if path :| path in Mine(c, name) && Below(SortStrings(Paths(c)), path, d) {
      MineExactly(c, name, path);
      TopSorted(Paths(c), path, path + ['/'] + d);
      var m := Mount(name, path);
      assert m.name == name && Below(Paths(c), m.path, d);
    }
  }

  method FindMine(c: Container, name: string) returns (mine: seq<string>)
    ensures mine == Mine(c, name)
  {
    mine := [];
    var i := 0;
    while i < |c|
      invariant 0 <= i <= |c| && mine == Mine(c[..i], name)
    {
      assert c[..i + 1][..i] == c[..i];
      if c[i].name == name {
        mine := mine + [c[i].path];
      }
      i := i + 1;
    }
    assert c[..i] == c;
  }

  /** What one container asks for: nothing at all if it mounts the volume outside its file system. */
  method CheckContainer(c: Container, name: string) returns (r: Option<seq<string>>)
    ensures r.None? <==> Escapes(c, name)
    ensures r.Some? ==> forall d :: d in r.value <==> Wants(c, name, d)
  {
    var mine := FindMine(c, name);
    var all := SortStrings(Paths(c));
    var dirs: seq<string> := [];
    var i := 0;
    while i < |mine| && !(PARENT <= mine[i])
      invariant 0 <= i <= |mine|
      invariant forall path | path in mine[..i] :: !(PARENT <= path)
      invariant forall d :: d in dirs <==> exists path | path in mine[..i] :: Below(all, path, d)
    {
      var more := NestedUnder(all, mine[i]);
      MoreBelow(dirs, more, all, mine[..i], mine[i]);
      assert mine[..i + 1] == mine[..i] + [mine[i]];
      dirs := dirs + more;
      i := i + 1;
    }
    EscapesMine(c, name);
    if i < |mine| {
      assert mine[i] in Mine(c, name);
      r := None;
    } else {
      r := Some(dirs);
      assert mine[..i] == mine;
      forall d ensures d in dirs <==> Wants(c, name, d) {
        WantsMine(c, name, d);
      }
    }
  }

  lemma MoreBelow(dirs: seq<string>, more: seq<string>, all: seq<string>, before: seq<string>, base: string)
    requires forall d :: d in dirs <==> exists path | path in before :: Below(all, path, d)
    requires Chooses(more, all, base)
    ensures forall d :: d in dirs + more <==> exists path | path in before + [base] :: Below(all, path, d)
  {
    forall d ensures d in dirs + more <==> exists path | path in before + [base] :: Below(all, path, d) {
      assert d in more <==> Below(all, base, d);
      assert base in before + [base];
      if path :| path in before && Below(all, path, d) {
        assert path in before + [base];
      }
    }
  }

  /** The directories for all containers, unless one of them mounts the volume outside its file system. */
  method GetNestedMountpoints(containers: seq<Container>, name: string) returns (r: Option<seq<string>>)
    ensures r.None? <==> exists c | c in containers :: Escapes(c, name)
    ensures r.Some? ==> forall d :: d in r.value <==> exists c | c in containers :: Wants(c, name, d)
  {
    var dirs: seq<string> := [];
    r := Some(dirs);
    var i := 0;
    while i < |containers| && r.Some?
      invariant 0 <= i <= |containers|
      invariant r.Some? ==> r.value == dirs
      invariant r.None? <==> exists j | 0 <= j < i :: Escapes(containers[j], name)
      invariant r.Some? ==> forall d :: d in dirs <==> exists j | 0 <= j < i :: Wants(containers[j], name, d)
    {
      var more := CheckContainer(containers[i], name);
      if more.None? {
        r := None;
      } else {
        dirs := dirs + more.value;
        r := Some(dirs);
      }
      i := i + 1;
    }
  }
}
