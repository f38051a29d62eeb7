/** Validation and cleaning of the payload's keys. */
module PayloadPaths {
  import opened Strings
  import opened VolumeTree

  const MAX_FILE_NAME_LENGTH := 255
  const MAX_PATH_LENGTH := 4096

  /** The checks made on a key before it is cleaned. */
  predicate ValidPath(key: string) {
    && key != ""
    && key[0] != '/'
    && |key| <= MAX_PATH_LENGTH
    && var items := Split(key, '/');
    && (forall i | 0 <= i < |items| :: items[i] != ".." && |items[i]| <= MAX_FILE_NAME_LENGTH)
    && !(StartsWith(items[0], "..") && |items[0]| > 2)
  }

  function Kept(items: seq<string>): (kept: seq<string>)
    ensures forall i | 0 <= i < |kept| :: kept[i] in items && kept[i] != "" && kept[i] != "."
  {
    if items == [] then []
    else (if items[0] == "" || items[0] == "." then [] else [items[0]]) + Kept(items[1..])
  }

  /** filepath.Clean on a relative path without ".." elements. */
  function Clean(key: string): (p: Path)
    ensures |p| >= 1
  {
    var kept := Kept(Split(key, '/'));
    if kept == [] then ["."] else kept
  }

  lemma {:induction false} KeptConcat(a: seq<string>, b: seq<string>)
    ensures Kept(a + b) == Kept(a) + Kept(b)
    decreases |a|
  {
    if a == [] {
      assert a + b == b;
    } else {
      assert (a + b)[1..] == a[1..] + b;
      KeptConcat(a[1..], b);
    }
  }

  /** What is kept of two texts with a slash between them is what is kept of the one, then what is kept of
      the other; nothing is kept of an empty part or of a dot, and every other part as it is. */
  lemma KeptInTurn(a: string, b: string)
    ensures Kept(Split(a + "/" + b, '/')) == Kept(Split(a, '/')) + Kept(Split(b, '/'))
    ensures '/' !in a ==> Kept(Split(a, '/')) == if a == "" || a == "." then [] else [a]
  {
    assert a + "/" + b == a + ['/'] + b;
    SplitConcat(a, b, '/');
    KeptConcat(Split(a, '/'), Split(b, '/'));
    if '/' !in a {
      SplitWhole(a, '/');
      assert [a][1..] == [];
    }
  }

  /** A path whose parts are plain is what its text is cleaned to: nothing is lost, and nothing moves. */
  lemma CleanJoined(p: Path)
    requires p != [] && forall i | 0 <= i < |p| :: p[i] != "" && p[i] != "." && '/' !in p[i]
    ensures Clean(Join(p, '/')) == p
  {
    SplitJoin(p, '/');
    KeptPlain(p);
  }

  /** Which keys are accepted: the text of a path without slashes in its parts, none of which leads up or is
      longer than 255 characters, that does not begin with two dots or a slash and is no longer than 4096. */
  lemma ValidJoined(p: Path)
    requires p != [] && forall i | 0 <= i < |p| :: '/' !in p[i]
    ensures ValidPath(Join(p, '/')) <==>
              && p != [""] && !(p[0] == "" && |p| > 1) && !(|p[0]| >= 2 && p[0][0] == '.' && p[0][1] == '.')
              && (forall i | 0 <= i < |p| :: p[i] != ".." && |p[i]| <= 255)
              && |Join(p, '/')| <= 4096
  {
    var key := Join(p, '/');
    SplitJoin(p, '/');
    assert key == "" <==> p == [""];
    assert key != "" && key[0] == '/' ==> p[0] == "";
    assert StartsWith(p[0], "..") <==> |p[0]| >= 2 && p[0][0] == '.' && p[0][1] == '.';
  }

  lemma {:induction false} KeptPlain(p: Path)
    requires forall i | 0 <= i < |p| :: p[i] != "" && p[i] != "."
    ensures Kept(p) == p
  {
    if p != [] {
      KeptPlain(p[1..]);
      assert p == [p[0]] + p[1..];
    }
  }

  /** The other way round, a cleaned key is plain in all its parts, unless it is the dot alone, and none of
      them leads up. */
  lemma CleanPlain(key: string)
    requires ValidPath(key)
    ensures Clean(key) == ["."] || forall i | 0 <= i < |Clean(key)| :: Clean(key)[i] != "" && Clean(key)[i] != "."
    ensures forall i | 0 <= i < |Clean(key)| :: '/' !in Clean(key)[i] && Clean(key)[i] != ".."
  {
    var items := Split(key, '/');
    JoinSplit(key, '/');
    forall i | 0 <= i < |Clean(key)| ensures '/' !in Clean(key)[i] && Clean(key)[i] != ".." {
      if Kept(items) != [] {
        assert Kept(items)[i] in items;
      }
    }
  }

  /** `clean` holds, for every cleaned key, the contents of some key that cleans to it. */
  ghost predicate IsCleaned(raw: map<string, Bytes>, clean: Payload) {
    && (forall k :: k in raw ==> ValidPath(k) && Clean(k) in clean)
    && (forall p :: p in clean ==> exists k :: k in raw && Clean(k) == p && raw[k] == clean[p])
  }

  /** The key with every leading "./" and "/" taken off. */
  function StripDots(key: string): string {
    if StartsWith(key, "./") then StripDots(key[2..])
    else if StartsWith(key, "/") then StripDots(key[1..])
    else key
  }

  lemma {:induction false} KeptStripped(key: string)
    ensures Kept(Split(key, '/')) == Kept(Split(StripDots(key), '/'))
    decreases |key|
  {
    if StartsWith(key, "./") {
      assert key == "." + ['/'] + key[2..];
      SplitAfter(".", key[2..], '/');
      KeptStripped(key[2..]);
    } else if StartsWith(key, "/") {
      assert key == "" + ['/'] + key[1..];
      SplitAfter("", key[1..], '/');
      KeptStripped(key[1..]);
    }
  }

  lemma {:induction false} StrippedStart(key: string)
    ensures !StartsWith(StripDots(key), "./") && !StartsWith(StripDots(key), "/")
    decreases |key|
  {
    if StartsWith(key, "./") {
      StrippedStart(key[2..]);
    } else if StartsWith(key, "/") {
      StrippedStart(key[1..]);
    }
  }

  /** The first part of a path, seen from the path's own first characters. */
  lemma FirstPart(s: string)
    requires s != "" && s[0] != '/'
    ensures var f := Split(s, '/')[0];
            && f != "" && f[0] == s[0] && (|f| >= 2 <==> |s| >= 2 && s[1] != '/') && (|f| >= 2 ==> f[1] == s[1])
  {
    if |s| >= 2 {
      assert Split(s[1..], '/')[0] == if s[1] == '/' then "" else [s[1]] + Split(s[2..], '/')[0];
      assert s[1..][1..] == s[2..];
    }
  }

  lemma LoneDot()
    ensures Split(".", '/') == ["."] && Kept(Split(".", '/')) == []
  {
    SplitWhole(".", '/');
    assert ["."][1..] == [];
  }

  /** A valid key lands on a reserved name if and only if it hides a leading ".." behind "./": the
      check looks at the key before it is cleaned. */
  lemma ValidKeyReserved(key: string)
    requires ValidPath(key)
    ensures Reserved(Clean(key)[0]) <==> StartsWith(key, "./") && StartsWith(StripDots(key), "..")
  {
    var s := StripDots(key);
    KeptStripped(key);
    StrippedStart(key);
    FirstPart(key);
    if s == "" {
      assert Kept(Split(s, '/')) == [];
    } else if s == "." {
      LoneDot();
    } else {
      FirstKept(s);
      if !StartsWith(key, "./") {
        assert s == key;
        assert Split(s, '/')[0] != "..";
      }
    }
  }

  lemma OwnIsReserved(n: Name)
    ensures OwnName(n) ==> Reserved(n)
  {
    assert DATA[0] == '.' && DATA[1] == '.' && DATA_TMP[0] == '.' && DATA_TMP[1] == '.';
  }

  /** What the first part of a key becomes. */
  lemma CleanedStart(key: string)
    ensures var first := Split(StripDots(key), '/')[0];
            Clean(key)[0] == if first == "" || first == "." then "." else first
  {
    var s := StripDots(key);
    KeptStripped(key);
    StrippedStart(key);
    if s == "" {
      assert Kept(Split(s, '/')) == [];
    } else if s == "." {
      LoneDot();
    } else {
      FirstKept(s);
      FirstPart(s);
    }
  }

  /** In particular only such a key can land on one of the names the writer itself uses. */
  lemma ValidKeyOwn(key: string)
    requires ValidPath(key)
    ensures OwnName(Clean(key)[0]) <==> StartsWith(key, "./") && OwnName(Split(StripDots(key), '/')[0])
  {
    var first := Split(StripDots(key), '/')[0];
    ValidKeyReserved(key);
    CleanedStart(key);
    OwnIsReserved(first);
    OwnIsReserved(Clean(key)[0]);
  }

  /** The first part of a path that starts with neither "./" nor "/" is kept. */
  lemma FirstKept(s: string)
    requires s != "" && s != "." && !StartsWith(s, "./") && !StartsWith(s, "/")
    ensures var items := Split(s, '/'); Kept(items) != [] && Kept(items)[0] == items[0]
    ensures Reserved(Split(s, '/')[0]) <==> StartsWith(s, "..")
  {
    FirstPart(s);
    var f := Split(s, '/')[0];
    assert f == "." ==> |s| == 1;
  }

  /** Such a key passes the checks and is cleaned to the data link's own name. */
  lemma HiddenReservedKey()
    ensures ValidPath("./..data") && Clean("./..data") == [DATA]
  {
    var key := "./..data";
    assert key == "." + ['/'] + DATA;
    SplitAfter(".", DATA, '/');
    SplitWhole(DATA, '/');
    var items := Split(key, '/');
    assert items == [".", DATA];
    assert Kept(items) == Kept(items[1..]);
    assert items[1..] == [DATA];
    assert Kept([DATA]) == [DATA] + Kept([]);
  }
}
