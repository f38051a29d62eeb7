/** The file that an image reference is stored under. */
module ImageName {
  import opened Strings

  predicate Allowed(c: char) {
    'a' <= c <= 'z' || 'A' <= c <= 'Z' || '0' <= c <= '9' || c == '.' || c == '_' || c == '-'
  }

  predicate AllAllowed(s: string) {
    forall c | c in s :: Allowed(c)
  }

  function SkipRefused(s: string): (r: string)
    ensures |r| <= |s|
  {
    if s == "" || Allowed(s[0]) then s else SkipRefused(s[1..])
  }

  /** Every run of refused characters becomes one underscore. */
  function Cleaned(s: string): (r: string)
    ensures AllAllowed(r)
    decreases |s|
  {
    if s == "" then ""
    else if Allowed(s[0]) then [s[0]] + Cleaned(s[1..])
    else "_" + Cleaned(SkipRefused(s[1..]))
  }

  /** The part in front of the first such character, and the part behind it. */
  function Front(s: string, c: char): string {
    if s == "" || s[0] == c then "" else [s[0]] + Front(s[1..], c)
  }

  function Behind(s: string, c: char): string {
    if s == "" then "" else if s[0] == c then s[1..] else Behind(s[1..], c)
  }

  const SEPARATOR := "_"
  const SUFFIX := ".sif"

  function Digest(digest: string): (r: string)
    ensures AllAllowed(r)
  {
    if digest != "" then SEPARATOR + Cleaned(digest) else ""
  }

  /** The name of the file. */
  function Name(ref: string, tag: string, digest: string): (r: string)
    ensures AllAllowed(r)
  {
    Cleaned(ref) + SEPARATOR + Cleaned(tag) + Digest(digest) + SUFFIX
  }

  /** The parts of a reference that is not empty: the text in front of the first colon, and the text
      between the first and the second colon. */
  function RefOf(raw: string): string {
    Split(Front(raw, '@'), ':')[0]
  }

  function TagOf(raw: string): string {
    var parts := Split(Front(raw, '@'), ':');
    if |parts| > 1 then parts[1] else "latest"
  }

  function ParseImageName(raw: string): string {
    if raw == "" then "/unnamed.sif" else "/" + Name(RefOf(raw), TagOf(raw), Behind(raw, '@'))
  }

  /** Whatever the reference says, the file lies directly in the image directory: no slash is allowed in
      what follows the first. */
  lemma InDirectory(raw: string)
    ensures var name := ParseImageName(raw); |name| > 1 && name[0] == '/' && AllAllowed(name[1..]) && '/' !in name[1..]
  {
    var name := ParseImageName(raw);
    if raw == "" {
      assert name[1..] == "unnamed.sif";
    } else {
      assert name[1..] == Name(RefOf(raw), TagOf(raw), Behind(raw, '@'));
    }
  }

  predicate AllRefused(s: string) {
    forall c | c in s :: !Allowed(c)
  }

  lemma {:induction false} SkipRun(run: string, b: string)
    requires AllRefused(run) && (b == "" || Allowed(b[0]))
    ensures SkipRefused(run + b) == b
  {
    if run == "" {
      assert run + b == b;
    } else {
      SkipRun(run[1..], b);
      assert (run + b)[1..] == run[1..] + b;
    }
  }

  lemma {:induction false} SkipConcat(a: string, x: string)
    requires a != "" && Allowed(a[|a| - 1])
    ensures var r := SkipRefused(a); r != "" && Allowed(r[|r| - 1]) && SkipRefused(a + x) == r + x
  {
    if !Allowed(a[0]) {
      SkipConcat(a[1..], x);
      assert (a + x)[1..] == a[1..] + x;
    }
  }

  lemma CleanedFirst(c: char, rest: string)
    ensures Cleaned([c] + rest) == if Allowed(c) then [c] + Cleaned(rest) else "_" + Cleaned(SkipRefused(rest))
  {
    assert ([c] + rest)[1..] == rest;
  }

  lemma Associate(a: string, b: string, c: string)
    ensures a + (b + c) == (a + b) + c
  {
  }

  /** Behind a character that is allowed cleaning starts afresh. */
  lemma {:induction false} CleanedConcat(a: string, x: string)
    requires a == "" || Allowed(a[|a| - 1])
    ensures Cleaned(a + x) == Cleaned(a) + Cleaned(x)
    decreases |a|
  {
    if a == "" {
      assert a + x == x;
    } else {
      var c, rest := a[0], a[1..];
      assert a == [c] + rest;
      Associate([c], rest, x);
      CleanedFirst(c, rest);
      CleanedFirst(c, rest + x);
      if Allowed(c) {
        CleanedConcat(rest, x);
        Associate([c], Cleaned(rest), Cleaned(x));
      } else {
        var r := SkipRefused(rest);
        SkipConcat(rest, x);
        CleanedConcat(r, x);
        Associate("_", Cleaned(r), Cleaned(x));
      }
    }
  }

  /** A run of refused characters becomes a single underscore. */
  lemma CleanedRun(run: string, b: string)
    requires run != "" && AllRefused(run) && (b == "" || Allowed(b[0]))
    ensures Cleaned(run + b) == "_" + Cleaned(b)
  {
    var c, rest := run[0], run[1..];
    assert run == [c] + rest;
    Associate([c], rest, b);
    SkipRun(rest, b);
    CleanedFirst(c, rest + b);
  }

  lemma {:induction false} FrontWhole(s: string, c: char)
    requires c !in s
    ensures Front(s, c) == s && Behind(s, c) == ""
  {
    if s != "" {
      FrontWhole(s[1..], c);
    }
  }

  // ---------------------------------------------------------------- which references share a file

  /** Cleaning changes nothing exactly when there is nothing to clean. */
  lemma {:induction false} CleanedFixed(s: string)
    ensures Cleaned(s) == s <==> AllAllowed(s)
  {
    if s != "" {
      assert s == [s[0]] + s[1..];
      CleanedFixed(s[1..]);
    }
  }

  function Underscores(s: string): nat {
    multiset(s)['_']
  }

  /** An underscore joins two texts unambiguously once it is known how many of them follow it. */
  lemma JoinedOnce(x: string, u: string, y: string, v: string)
    requires Underscores(u) == Underscores(v)
    ensures x + SEPARATOR + u == y + SEPARATOR + v <==> x == y && u == v
  {
    var a, b := x + SEPARATOR + u, y + SEPARATOR + v;
    if a == b {
      if |u| < |v| {
        Suffix(x, u, y, v);
      } else if |v| < |u| {
        Suffix(y, v, x, u);
      } else {
        assert a[..|x|] == x && a[|x| + 1..] == u && b[..|y|] == y && b[|y| + 1..] == v;
      }
    }
  }

  lemma Suffix(x: string, u: string, y: string, v: string)
    requires x + SEPARATOR + u == y + SEPARATOR + v && |u| < |v|
    ensures Underscores(v) > Underscores(u)
  {
    var a := x + SEPARATOR + u;
    var k := |v| - |u| - 1;
    assert v == a[|y| + 1..] && v[k..] == SEPARATOR + u;
    assert v == v[..k] + (SEPARATOR + u);
    assert multiset(v) == multiset(v[..k]) + (multiset(SEPARATOR) + multiset(u));
  }

  lemma EndsAlike(x: string, y: string, end: string)
    ensures x + end == y + end <==> x == y
  {
    if x + end == y + end {
      assert |x| == |y|;
      assert (x + end)[..|x|] == x && (y + end)[..|y|] == y;
    }
  }

  lemma SameName(x: string, u: string, y: string, v: string, digest: string)
    ensures var end := Digest(digest);
            "/" + (x + SEPARATOR + u + end + SUFFIX) == "/" + (y + SEPARATOR + v + end + SUFFIX) <==>
              x + SEPARATOR + u == y + SEPARATOR + v
  {
    var a, b, end := x + SEPARATOR + u, y + SEPARATOR + v, Digest(digest) + SUFFIX;
    EndsAlike(a, b, end);
    StartsAlike("/", a + end, b + end);
    assert a + Digest(digest) + SUFFIX == a + end && b + Digest(digest) + SUFFIX == b + end;
  }

  lemma StartsAlike(start: string, u: string, v: string)
    ensures start + u == start + v <==> u == v
  {
    assert (start + u)[|start|..] == u && (start + v)[|start|..] == v;
  }

  /** What stands behind the cleaned name: the cleaned tag, and the digest if there is one. */
  function Rest(raw: string): string {
    Cleaned(TagOf(raw)) + Digest(Behind(raw, '@'))
  }

  /** The two halves agree, or the one in front takes over, behind an underscore, what the one behind loses. */
  ghost predicate Shifted(x: string, u: string, y: string, v: string) {
    || (x == y && u == v)
    || (exists w: string :: y == x + SEPARATOR + w && u == w + SEPARATOR + v)
    || (exists w: string :: x == y + SEPARATOR + w && v == w + SEPARATOR + u)
  }

  lemma LongerHalf(x: string, u: string, y: string, v: string) returns (w: string)
    requires x + SEPARATOR + u == y + SEPARATOR + v && |x| < |y|
    ensures y == x + SEPARATOR + w && u == w + SEPARATOR + v
  {
    var a, b := x + SEPARATOR + u, y + SEPARATOR + v;
    w := y[|x| + 1..];
    assert y == b[..|y|] == a[..|y|];
    assert a[..|x| + 1] == x + SEPARATOR;
    assert y == y[..|x| + 1] + w && y[..|x| + 1] == a[..|x| + 1];
    assert u == a[|x| + 1..] == b[|x| + 1..];
    assert b[|x| + 1..] == b[|x| + 1..|y|] + b[|y|..] && b[|y|..] == SEPARATOR + v && b[|x| + 1..|y|] == w;
    assert w + (SEPARATOR + v) == w + SEPARATOR + v;
  }

  lemma JoinedExactly(x: string, u: string, y: string, v: string)
    ensures x + SEPARATOR + u == y + SEPARATOR + v <==> Shifted(x, u, y, v)
  {
    if x + SEPARATOR + u == y + SEPARATOR + v {
      if |x| < |y| {
        var w := LongerHalf(x, u, y, v);
      } else if |y| < |x| {
        var w := LongerHalf(y, v, x, u);
      } else {
        var a, b := x + SEPARATOR + u, y + SEPARATOR + v;
        assert a[..|x|] == x && a[|x| + 1..] == u && b[..|y|] == y && b[|y| + 1..] == v;
      }
    }
    if w: string :| y == x + SEPARATOR + w && u == w + SEPARATOR + v {
      Regroup(x, w, v);
    }
    if w: string :| x == y + SEPARATOR + w && v == w + SEPARATOR + u {
      Regroup(y, w, u);
    }
  }

  lemma Regroup(x: string, w: string, v: string)
    ensures x + SEPARATOR + (w + SEPARATOR + v) == (x + SEPARATOR + w) + SEPARATOR + v
  {
  }

  lemma WholeName(raw: string)
    requires raw != ""
    ensures ParseImageName(raw) == "/" + (Cleaned(RefOf(raw)) + SEPARATOR + Rest(raw)) + SUFFIX
    ensures ParseImageName(raw) != ParseImageName("")
  {
    var x, u, d := Cleaned(RefOf(raw)), Cleaned(TagOf(raw)), Digest(Behind(raw, '@'));
    assert ParseImageName(raw) == "/" + (x + SEPARATOR + u + d + SUFFIX);
    Regrouped(x, u, d);
    NotUnnamed(x, Rest(raw));
  }

  lemma Regrouped(x: string, u: string, d: string)
    ensures "/" + (x + SEPARATOR + u + d + SUFFIX) == "/" + (x + SEPARATOR + (u + d)) + SUFFIX
  {
    assert x + SEPARATOR + u + d == x + SEPARATOR + (u + d);
    assert "/" + ((x + SEPARATOR + (u + d)) + SUFFIX) == "/" + (x + SEPARATOR + (u + d)) + SUFFIX;
  }

  lemma NotUnnamed(x: string, rest: string)
    ensures "/" + (x + SEPARATOR + rest) + SUFFIX != "/unnamed.sif"
  {
    var name := "/" + (x + SEPARATOR + rest) + SUFFIX;
    assert name[1 + |x|] == '_';
    assert '_' !in "/unnamed.sif";
  }

  /** Two references share a file exactly when both are empty, or when, cleaned, they agree in what stands
      in front of the first colon and what comes behind, or differ only in how much of what comes behind,
      from one underscore to another, stands in front. */
  lemma SharedExactly(a: string, b: string)
    ensures ParseImageName(a) == ParseImageName(b) <==>
              if a == "" || b == "" then a == b
              else Shifted(Cleaned(RefOf(a)), Rest(a), Cleaned(RefOf(b)), Rest(b))
  {
    if a != "" {
      WholeName(a);
    }
    if b != "" {
      WholeName(b);
    }
    if a != "" && b != "" {
      var s, t := Cleaned(RefOf(a)) + SEPARATOR + Rest(a), Cleaned(RefOf(b)) + SEPARATOR + Rest(b);
      EndsAlike("/" + s, "/" + t, SUFFIX);
      StartsAlike("/", s, t);
      JoinedExactly(Cleaned(RefOf(a)), Rest(a), Cleaned(RefOf(b)), Rest(b));
    }
  }

  /** So images of different names and tags can share one, even when nothing has to be cleaned: "a:b_c" and
      "a_b:c" do. */
  lemma SharedShifted(x: string, w: string, v: string)
    requires AllAllowed(x) && AllAllowed(w) && AllAllowed(v)
    ensures ParseImageName(x + ":" + (w + SEPARATOR + v)) == ParseImageName((x + SEPARATOR + w) + ":" + v)
  {
    var a, b := x + ":" + (w + SEPARATOR + v), (x + SEPARATOR + w) + ":" + v;
    TaggedRest(x, w + SEPARATOR + v);
    TaggedRest(x + SEPARATOR + w, v);
    assert Rest(a) == w + SEPARATOR + Rest(b);
    SharedExactly(a, b);
  }

  lemma TaggedRest(ref: string, tag: string)
    requires AllAllowed(ref) && AllAllowed(tag)
    ensures var raw := ref + ":" + tag; raw != "" && Cleaned(RefOf(raw)) == ref && Rest(raw) == tag
  {
    TaggedParts(ref, tag);
    CleanedFixed(ref);
    CleanedFixed(tag);
  }

  /** Two references with the same digest, or without one, whose cleaned tags hold as many underscores
      (none, in particular) share a file exactly when the text in front of their first colon and their
      tag clean to the same. */
  lemma SharedEvenly(a: string, b: string)
    requires a != "" && b != "" && Behind(a, '@') == Behind(b, '@')
    requires Underscores(Cleaned(TagOf(a))) == Underscores(Cleaned(TagOf(b)))
    ensures ParseImageName(a) == ParseImageName(b) <==>
              Cleaned(RefOf(a)) == Cleaned(RefOf(b)) && Cleaned(TagOf(a)) == Cleaned(TagOf(b))
  {
    var x, u := Cleaned(RefOf(a)), Cleaned(TagOf(a));
    var y, v := Cleaned(RefOf(b)), Cleaned(TagOf(b));
    var digest := Behind(a, '@');
    SameName(x, u, y, v, digest);
    JoinedOnce(x, u, y, v);
    assert ParseImageName(a) == "/" + (x + SEPARATOR + u + Digest(digest) + SUFFIX);
    assert ParseImageName(b) == "/" + (y + SEPARATOR + v + Digest(digest) + SUFFIX);
  }

  /** The parts of a reference that ends in a tag. */
  lemma TaggedParts(ref: string, tag: string)
    requires '@' !in ref && '@' !in tag && ':' !in tag
    ensures var raw := ref + ":" + tag;
            && raw != "" && Behind(raw, '@') == "" && RefOf(raw) == RefOf(ref)
            && TagOf(raw) == (if ':' in ref then TagOf(ref) else tag)
    ensures ':' !in ref ==> RefOf(ref) == ref
  {
    var raw := ref + ":" + tag;
    FrontWhole(raw, '@');
    FrontWhole(ref, '@');
    if ':' in ref {
      ColonAt(ref, tag);
    } else {
      assert raw == ref + [':'] + tag;
      SplitAfter(ref, tag, ':');
      SplitWhole(tag, ':');
      SplitWhole(ref, ':');
    }
  }

  /** The tag behind a text that has a colon already is neither the first nor the second part. */
  lemma ColonAt(ref: string, tag: string)
    requires ':' in ref
    ensures var parts, whole := Split(ref, ':'), Split(ref + ":" + tag, ':');
            |parts| > 1 && |whole| > 1 && whole[..2] == parts[..2]
  {
    var head, tail := Front(ref, ':'), Behind(ref, ':');
    FrontBehind(ref, ':');
    SplitAfter(head, tail, ':');
    SplitAfter(head, tail + ":" + tag, ':');
    assert ref + ":" + tag == head + [':'] + (tail + ":" + tag);
    FirstPart(tail, tag);
  }

  lemma {:induction false} FirstPart(tail: string, tag: string)
    ensures Split(tail + ":" + tag, ':')[0] == Split(tail, ':')[0]
  {
    if tail == "" {
      assert tail + ":" + tag == [':'] + tag;
      SplitCons(':', tag, ':');
    } else {
      FirstPart(tail[1..], tag);
      assert tail + ":" + tag == [tail[0]] + (tail[1..] + ":" + tag);
      SplitCons(tail[0], tail[1..] + ":" + tag, ':');
    }
  }

  lemma {:induction false} FrontBehind(s: string, c: char)
    requires c in s
    ensures s == Front(s, c) + [c] + Behind(s, c) && c !in Front(s, c)
  {
    if s[0] != c {
      FrontBehind(s[1..], c);
      assert s == [s[0]] + s[1..];
    }
  }

  /** Images that differ only in their tags get two files exactly when the reference names no port and
      the tags do not clean to the same.  What stands between the first and the second colon counts as
      the tag, and behind a port that is the path. */
  lemma TagsShareExactly(ref: string, tag: string, other: string)
    requires '@' !in ref && '@' !in tag && '@' !in other && ':' !in tag && ':' !in other
    ensures ParseImageName(ref + ":" + tag) == ParseImageName(ref + ":" + other) <==>
              ':' in ref || Cleaned(tag) == Cleaned(other)
    ensures AllAllowed(tag) && AllAllowed(other) ==>
              (ParseImageName(ref + ":" + tag) == ParseImageName(ref + ":" + other) <==> ':' in ref || tag == other)
  {
    TaggedParts(ref, tag);
    TaggedParts(ref, other);
    CleanedFixed(tag);
    CleanedFixed(other);
    if ':' !in ref {
      var x, u, v := Cleaned(ref), Cleaned(tag), Cleaned(other);
      SameName(x, u, x, v, "");
      StartsAlike(x + SEPARATOR, u, v);
      assert ParseImageName(ref + ":" + tag) == "/" + (x + SEPARATOR + u + Digest("") + SUFFIX);
      assert ParseImageName(ref + ":" + other) == "/" + (x + SEPARATOR + v + Digest("") + SUFFIX);
    }
  }

  /** Images with the same tag share a file exactly when their names clean to the same, as "a/b" and
      "a_b" do. */
  lemma NamesShareExactly(a: string, b: string, tag: string)
    requires '@' !in a && '@' !in b && '@' !in tag && ':' !in a && ':' !in b && ':' !in tag
    ensures ParseImageName(a + ":" + tag) == ParseImageName(b + ":" + tag) <==> Cleaned(a) == Cleaned(b)
  {
    TaggedParts(a, tag);
    TaggedParts(b, tag);
    SharedEvenly(a + ":" + tag, b + ":" + tag);
  }

  lemma {:induction false} FrontOf(s: string, c: char, t: string)
    requires c !in s
    ensures Front(s + [c] + t, c) == s && Behind(s + [c] + t, c) == t
  {
    var whole := s + [c] + t;
    if s == "" {
      assert whole == [c] + t;
    } else {
      FrontOf(s[1..], c, t);
      assert whole[1..] == s[1..] + [c] + t;
    }
  }

  /** A reference as it is written: the name, a tag, and a digest, of which the last two may be missing. */
  function Written(ref: string, tag: string, digest: string): string {
    ref + (if tag == "" then "" else ":" + tag) + (if digest == "" then "" else "@" + digest)
  }

  lemma TagParts(ref: string, tag: string)
    requires ':' !in ref && ':' !in tag
    ensures Split(ref + (if tag == "" then "" else ":" + tag), ':') == if tag == "" then [ref] else [ref, tag]
  {
    SplitWhole(ref, ':');
    SplitWhole(tag, ':');
    SplitAfter(ref, tag, ':');
    assert ref + (":" + tag) == ref + [':'] + tag && ref + "" == ref;
  }

  lemma DigestParts(front: string, digest: string)
    requires '@' !in front
    ensures var raw := front + (if digest == "" then "" else "@" + digest);
            Front(raw, '@') == front && Behind(raw, '@') == digest
  {
    FrontWhole(front, '@');
    FrontOf(front, '@', digest);
    assert front + ("@" + digest) == front + ['@'] + digest && front + "" == front;
  }

  lemma InFront(a: string, b: string, c: string, d: string, e: string)
    ensures "/" + (a + b + c + d + e) == "/" + a + b + c + d + e
  {
  }

  /** The file of a reference: its cleaned parts with underscores between them, "latest" for a tag that is
      missing, and nothing for a missing digest. */
  lemma FileExactly(ref: string, tag: string, digest: string)
    requires ref != "" && '@' !in ref && ':' !in ref && '@' !in tag && ':' !in tag
    ensures ParseImageName(Written(ref, tag, digest)) ==
              "/" + Cleaned(ref) + "_" + Cleaned(if tag == "" then "latest" else tag)
              + (if digest == "" then "" else "_" + Cleaned(digest)) + ".sif"
  {
    TagParts(ref, tag);
    DigestParts(ref + (if tag == "" then "" else ":" + tag), digest);
    InFront(Cleaned(ref), "_", Cleaned(if tag == "" then "latest" else tag), Digest(digest), ".sif");
  }
}
