/** The paths of control files: how they are built and how events on them are read back. */
module ControlPaths {
  import opened Wrappers
  import PodEvents

  /** A character the pattern counts as no white space. */
  predicate Black(c: char) {
    var n := c as int;
    n != 9 && n != 10 && n != 12 && n != 13 && n != 32
  }

  predicate AllBlack(s: string) {
    forall c | c in s :: Black(c)
  }

  /** Names of namespaces and pods: one component of a path, without white space. */
  predicate Plain(s: string) {
    s != "" && AllBlack(s) && '/' !in s
  }

  /** Said character by character. */
  lemma PlainExactly(s: string)
    ensures Plain(s) <==>
              && s != "" && '/' !in s && ' ' !in s && '\t' !in s && '\n' !in s && '\r' !in s
              && (12 as char) !in s
  {
    forall c: char ensures Black(c) <==> c !in ['\t', '\n', 12 as char, '\r', ' '] {
      if !Black(c) {
        assert c as int == 9 || c as int == 10 || c as int == 12 || c as int == 13 || c as int == 32;
      }
    }
  }

  datatype PodKey = PodKey(namespace: string, name: string) {
    predicate Valid() {
      Plain(namespace) && Plain(name)
    }
  }

  datatype Parsed = Parsed(key: PodKey, file: string)

  // ---------------------------------------------------------------- reading

  const MARK := "/controlfiles/"

  lemma MarkShape()
    ensures |MARK| == 14 && MARK[0] == '/' && MARK[13] == '/'
    ensures forall k | 0 < k < 13 :: MARK[k] != '/'
  {
  }

  /** One way to match the pattern: the namespace ends at `i`, the pod at `j`. */
  predicate Splits(rel: string, i: int, j: int) {
    && 2 <= i && i + 2 <= j && j + |MARK| <= |rel|
    && rel[0] == '/' && rel[i] == '/' && rel[j..j + |MARK|] == MARK
    && AllBlack(rel[1..i]) && AllBlack(rel[i + 1..j]) && '\n' !in rel[j + |MARK|..]
  }

  /** The pod's name is matched lazily. */
  function FindPod(rel: string, i: nat, j: nat): (r: Option<nat>)
    ensures r.Some? ==> Splits(rel, i, r.value) && forall k | j <= k < r.value :: !Splits(rel, i, k)
    ensures r.None? ==> forall k | j <= k :: !Splits(rel, i, k)
    decreases |rel| - j
  {
    if Splits(rel, i, j) then Some(j) else if j >= |rel| then None else FindPod(rel, i, j + 1)
  }

  /** The namespace is matched greedily. */
  function FindMatch(rel: string, i: nat): (r: Option<(nat, nat)>)
    ensures r.Some? ==> Splits(rel, r.value.0, r.value.1)
    ensures r.Some? ==> forall m, k | Splits(rel, m, k) && m <= i :: m < r.value.0 || (m == r.value.0 && r.value.1 <= k)
    ensures r.None? ==> forall m, k | Splits(rel, m, k) :: m > i
  {
    var r := FindPod(rel, i, 0);
    if r.Some? then Some((i, r.value)) else if i == 0 then None else FindMatch(rel, i - 1)
  }

  function TrimPrefix(s: string, prefix: string): string {
    if prefix <= s then s[|prefix|..] else s
  }

  function ParseControlFilePath(root: string, path: string): Option<Parsed> {
    if !(['/'] <= path) then None
    else
      var rel := TrimPrefix(path, root);
      var m := FindMatch(rel, |rel|);
      if m.None? then None
      else
        var (i, j) := m.value;
        Some(Parsed(PodKey(rel[1..i], rel[i + 1..j]), rel[j + |MARK|..]))
  }

  // ---------------------------------------------------------------- building

  /** The control files of a pod. */
  datatype ControlFile = SysError | IpAddress | PauseJob | Job(container: string) | ExitCode(container: string)

  const PAUSE := "pause"

  function Extension(f: ControlFile): string {
    match f
      case SysError => ".syserror"
      case IpAddress => ".ip"
      case ExitCode(_) => ".exitCode"
      case _ => ".jobid"
  }

  function Stem(f: ControlFile): string {
    match f
      case PauseJob => PAUSE
      case Job(c) => c
      case ExitCode(c) => c
      case _ => ""
  }

  function FileName(f: ControlFile): string {
    Stem(f) + Extension(f)
  }

  function Relative(key: PodKey, file: string): string {
    "/" + key.namespace + "/" + key.name + MARK + file
  }

  function ControlPath(root: string, key: PodKey, f: ControlFile): string {
    root + Relative(key, FileName(f))
  }

  lemma RelativeAt(key: PodKey, file: string)
    ensures var rel, a := Relative(key, file), 1 + |key.namespace|; var b := a + 1 + |key.name|;
            && (forall k | 0 < k < a :: rel[k] == key.namespace[k - 1])
            && (forall k | a < k < b :: rel[k] == key.name[k - a - 1])
            && (forall k | b <= k < b + |MARK| :: rel[k] == MARK[k - b])
            && (forall k | b + |MARK| <= k < |rel| :: rel[k] == file[k - b - |MARK|])
  {
  }

  /** All slashes of such a path. */
  lemma Slashes(key: PodKey, file: string, k: nat)
    requires key.Valid() && '/' !in file && k < |Relative(key, file)| && Relative(key, file)[k] == '/'
    ensures var a := 1 + |key.namespace|; var b := a + 1 + |key.name|; k == 0 || k == a || k == b || k == b + 13
  {
    MarkShape();
    RelativeAt(key, file);
  }

  lemma OwnSplit(key: PodKey, file: string)
    requires key.Valid() && '\n' !in file
    ensures var rel, a := Relative(key, file), 1 + |key.namespace|; var b := a + 1 + |key.name|;
            && Splits(rel, a, b) && rel[1..a] == key.namespace && rel[a + 1..b] == key.name && rel[b + |MARK|..] == file
  {
    var rel, a := Relative(key, file), 1 + |key.namespace|;
    var b := a + 1 + |key.name|;
    assert rel[1..a] == key.namespace;
    assert rel[a + 1..b] == key.name;
    assert rel[b..b + |MARK|] == MARK;
    assert rel[b + |MARK|..] == file;
  }

  /** The pattern matches such a path in one way only, so it does not matter which match is preferred. */
  lemma OnlySplit(key: PodKey, file: string, i: nat, j: nat)
    requires key.Valid() && '/' !in file && Splits(Relative(key, file), i, j)
    ensures i == 1 + |key.namespace| && j == i + 1 + |key.name|
  {
    MarkShape();
    var rel := Relative(key, file);
    assert rel[j] == rel[j..j + |MARK|][0] && rel[j + 13] == rel[j..j + |MARK|][13];
    Slashes(key, file, i);
    Slashes(key, file, j);
    Slashes(key, file, j + 13);
  }

  /** Reading a control-file path gives back the pod and the file it was built from. */
  lemma ParseBuilt(root: string, key: PodKey, file: string)
    requires ['/'] <= root && key.Valid() && '/' !in file && '\n' !in file
    ensures ParseControlFilePath(root, root + Relative(key, file)) == Some(Parsed(key, file))
  {
    var rel := Relative(key, file);
    var path := root + rel;
    assert path[0] == root[0] && path[|root|..] == rel && root <= path;
    OwnSplit(key, file);
    var m := FindMatch(rel, |rel|);
    OnlySplit(key, file, m.value.0, m.value.1);
  }

  /** Two control files of a pod have the same name only if they are the same, or one is the pause process's
      job id and the other that of a container called "pause". */
  lemma NamesExactly(f: ControlFile, g: ControlFile)
    ensures FileName(f) == FileName(g) <==>
              f == g || (f.PauseJob? && g == Job(PAUSE)) || (f == Job(PAUSE) && g.PauseJob?)
  {
    if FileName(f) == FileName(g) {
      EndsDiffer(f, g);
      SameStem(Stem(f), Stem(g), Extension(f));
    }
  }

  /** The four extensions end in four letters. */
  lemma EndsDiffer(f: ControlFile, g: ControlFile)
    requires FileName(f) == FileName(g)
    ensures Extension(f) == Extension(g)
  {
    LastOf(Stem(f), Extension(f));
    LastOf(Stem(g), Extension(g));
    assert ".syserror"[8] == 'r' && ".ip"[2] == 'p' && ".exitCode"[8] == 'e' && ".jobid"[5] == 'd';
  }

  lemma LastOf(front: string, back: string)
    requires back != ""
    ensures (front + back)[|front + back| - 1] == back[|back| - 1]
  {
  }

  lemma SameStem(a: string, b: string, end: string)
    requires a + end == b + end
    ensures a == b
  {
    assert |a| == |b|;
    assert (a + end)[..|a|] == a && (b + end)[..|b|] == b;
  }

  predicate ValidFile(f: ControlFile) {
    (f.Job? || f.ExitCode?) ==> Plain(f.container)
  }

  /** Neither a slash nor the end of a line. */
  predicate OnOneLine(s: string) {
    '/' !in s && '\n' !in s
  }

  lemma ExtensionOk(f: ControlFile)
    ensures OnOneLine(Extension(f))
  {
    match f
      case SysError => assert OnOneLine(".syserror");
      case IpAddress => assert OnOneLine(".ip");
      case ExitCode(_) => assert OnOneLine(".exitCode");
      case _ => assert OnOneLine(".jobid");
  }

  lemma StemOk(f: ControlFile)
    requires ValidFile(f)
    ensures OnOneLine(Stem(f))
  {
    match f
      case PauseJob => assert OnOneLine(PAUSE);
      case Job(c) => assert OnOneLine(c);
      case ExitCode(c) => assert OnOneLine(c);
      case _ => assert OnOneLine("");
  }

  lemma FileOk(f: ControlFile)
    requires ValidFile(f)
    ensures '/' !in FileName(f) && '\n' !in FileName(f)
  {
    StemOk(f);
    ExtensionOk(f);
  }

  /** Different control files, of the same pod or of different ones, have different paths, as long as no
      container is called "pause". */
  lemma PathsExactly(root: string, key: PodKey, f: ControlFile, other: PodKey, g: ControlFile)
    requires ['/'] <= root && key.Valid() && other.Valid() && ValidFile(f) && ValidFile(g)
    requires f != Job(PAUSE) && g != Job(PAUSE)
    ensures ControlPath(root, key, f) == ControlPath(root, other, g) <==> key == other && f == g
  {
    FileOk(f);
    FileOk(g);
    ParseBuilt(root, key, FileName(f));
    ParseBuilt(root, other, FileName(g));
    NamesExactly(f, g);
  }

  // ---------------------------------------------------------------- from a file to the kind of event

  /** What follows the last dot of the last component, with the dot. */
  function Ext(s: string): string {
    if s == "" then ""
    else
      var c := s[|s| - 1];
      if c == '.' then "."
      else if c == '/' then ""
      else
        var e := Ext(s[..|s| - 1]);
        if e == "" then "" else e + [c]
  }

  lemma {:induction false} ExtOf(front: string, rest: string)
    requires '.' !in rest && '/' !in rest
    ensures Ext(front + "." + rest) == "." + rest
    decreases |rest|
  {
    var s := front + "." + rest;
    if rest == "" {
      assert s[|s| - 1] == '.';
    } else {
      var k := |rest| - 1;
      ExtOf(front, rest[..k]);
      assert s[..|s| - 1] == front + "." + rest[..k] && s[|s| - 1] == rest[k];
      assert rest == rest[..k] + [rest[k]];
    }
  }

  /** The branch an event on the file takes. */
  function KindOf(file: string): PodEvents.FileKind {
    var ext := Ext(file);
    if ext == ".syserror" then PodEvents.SysErrorFile
    else if ext == ".ip" then PodEvents.IpFile
    else if ext == ".jobid" then if file == PAUSE + ".jobid" then PodEvents.PauseJobId else PodEvents.JobIdFile
    else if ext == ".exitCode" then PodEvents.ExitCodeFile
    else PodEvents.OtherFile
  }

  function Intended(f: ControlFile): PodEvents.FileKind {
    match f
      case SysError => PodEvents.SysErrorFile
      case IpAddress => PodEvents.IpFile
      case PauseJob => PodEvents.PauseJobId
      case Job(_) => PodEvents.JobIdFile
      case ExitCode(_) => PodEvents.ExitCodeFile
  }

  function Letters(f: ControlFile): string {
    match f
      case SysError => "syserror"
      case IpAddress => "ip"
      case ExitCode(_) => "exitCode"
      case _ => "jobid"
  }

  lemma LettersOnly(f: ControlFile)
    ensures '.' !in Letters(f) && '/' !in Letters(f) && Extension(f) == "." + Letters(f)
  {
    match f
      case SysError => assert Extension(f) == "." + "syserror";
      case IpAddress => assert Extension(f) == "." + "ip";
      case ExitCode(_) => assert Extension(f) == "." + "exitCode";
      case _ => assert Extension(f) == "." + "jobid";
  }

  lemma ExtensionKept(f: ControlFile)
    ensures Ext(FileName(f)) == Extension(f)
  {
    LettersOnly(f);
    var stem, rest := Stem(f), Letters(f);
    ExtOf(stem, rest);
    assert stem + "." + rest == stem + ("." + rest);
  }

  /** An event on a control file takes the branch meant for it, exactly unless the file is the job id of a
      container called "pause", which is taken for the pause process and ignored. */
  lemma KindExactly(f: ControlFile)
    ensures KindOf(FileName(f)) == Intended(f) <==> f != Job(PAUSE)
  {
    ExtensionKept(f);
    NamesExactly(f, PauseJob);
  }
}
