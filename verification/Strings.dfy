/** Splitting and joining of strings, as strings.Split and strings.Join do it. */
module Strings {

  /** The parts of a string once one more character is put in front of it. */
  function Push(c: char, parts: seq<string>, sep: char): (r: seq<string>)
    requires |parts| >= 1
    ensures |r| >= 1
  {
    if c == sep then [""] + parts else [[c] + parts[0]] + parts[1..]
  }

  function Split(s: string, sep: char): (parts: seq<string>)
    ensures |parts| >= 1
  {
    if s == "" then [""] else Push(s[0], Split(s[1..], sep), sep)
  }

  function Join(parts: seq<string>, sep: char): string
    requires |parts| >= 1
  {
    if |parts| == 1 then parts[0] else parts[0] + [sep] + Join(parts[1..], sep)
  }

  predicate StartsWith(s: string, prefix: string) {
    prefix <= s
  }

  lemma PushJoin(c: char, parts: seq<string>, sep: char)
    requires |parts| >= 1
    ensures Join(Push(c, parts, sep), sep) == [c] + Join(parts, sep)
  {
    if c == sep {
      assert ([""] + parts)[1..] == parts;
    } else {
      var r := [[c] + parts[0]] + parts[1..];
      assert r[1..] == parts[1..];
      if |parts| > 1 {
        assert [c] + (parts[0] + [sep] + Join(parts[1..], sep)) == ([c] + parts[0]) + [sep] + Join(parts[1..], sep);
      }
    }
  }

  /** Splitting loses nothing and leaves no separator inside a part. */
  lemma {:induction false} JoinSplit(s: string, sep: char)
    ensures Join(Split(s, sep), sep) == s
    ensures forall i | 0 <= i < |Split(s, sep)| :: sep !in Split(s, sep)[i]
  {
    if s != "" {
      JoinSplit(s[1..], sep);
      PushJoin(s[0], Split(s[1..], sep), sep);
      assert s == [s[0]] + s[1..];
    }
  }

  lemma SplitCons(c: char, rest: string, sep: char)
    ensures Split([c] + rest, sep) == Push(c, Split(rest, sep), sep)
  {
    assert ([c] + rest)[1..] == rest;
  }

  lemma PushConcat(c: char, a: seq<string>, b: seq<string>, sep: char)
    requires |a| >= 1
    ensures Push(c, a + b, sep) == Push(c, a, sep) + b
  {
    assert (a + b)[1..] == a[1..] + b;
  }

  /** A string without separators splits off as one part. */
  lemma {:induction false} SplitAfter(head: string, tail: string, sep: char)
    requires sep !in head
    ensures Split(head + [sep] + tail, sep) == [head] + Split(tail, sep)
    decreases |head|
  {
    if head == "" {
      SplitCons(sep, tail, sep);
      assert head + [sep] + tail == [sep] + tail;
    } else {
      var c, rest := head[0], head[1..];
      SplitAfter(rest, tail, sep);
      assert head + [sep] + tail == [c] + (rest + [sep] + tail);
      SplitCons(c, rest + [sep] + tail, sep);
      assert ([rest] + Split(tail, sep))[1..] == Split(tail, sep);
      assert [c] + rest == head;
    }
  }

  lemma {:induction false} SplitWhole(s: string, sep: char)
    requires sep !in s
    ensures Split(s, sep) == [s]
  {
    if s != "" {
      SplitWhole(s[1..], sep);
      assert [s[0]] + s[1..] == s;
    }
  }

  lemma {:induction false} SplitConcat(a: string, b: string, sep: char)
    ensures Split(a + [sep] + b, sep) == Split(a, sep) + Split(b, sep)
    decreases |a|
  {
    if a == "" {
      assert a + [sep] + b == [sep] + b;
      SplitCons(sep, b, sep);
    } else {
      var c, rest := a[0], a[1..];
      SplitConcat(rest, b, sep);
      assert a + [sep] + b == [c] + (rest + [sep] + b);
      SplitCons(c, rest + [sep] + b, sep);
      PushConcat(c, Split(rest, sep), Split(b, sep), sep);
    }
  }

  lemma {:induction false} JoinConcat(a: seq<string>, b: seq<string>, sep: char)
    requires a != [] && b != []
    ensures Join(a + b, sep) == Join(a, sep) + [sep] + Join(b, sep)
    decreases |a|
  {
    assert (a + b)[1..] == a[1..] + b;
    if |a| > 1 {
      JoinConcat(a[1..], b, sep);
      assert a[0] + [sep] + (Join(a[1..], sep) + [sep] + Join(b, sep)) ==
             (a[0] + [sep] + Join(a[1..], sep)) + [sep] + Join(b, sep);
    }
  }

  /** Joining loses nothing either, when no part holds a separator. */
  lemma {:induction false} SplitJoin(parts: seq<string>, sep: char)
    requires parts != [] && forall i | 0 <= i < |parts| :: sep !in parts[i]
    ensures Split(Join(parts, sep), sep) == parts
  {
    if |parts| == 1 {
      SplitWhole(parts[0], sep);
    } else {
      SplitJoin(parts[1..], sep);
      SplitAfter(parts[0], Join(parts[1..], sep), sep);
    }
  }

  /** A text followed by a separator begins another exactly if its parts are the first, and not all, of the
      other's. */
  lemma PrefixParts(a: string, b: string, sep: char)
    ensures a + [sep] <= b <==> Split(a, sep) < Split(b, sep)
  {
    if a + [sep] <= b {
      var rest := b[|a| + 1..];
      assert b == a + [sep] + rest;
      SplitConcat(a, rest, sep);
    }
    if Split(a, sep) < Split(b, sep) {
      var rest := Split(b, sep)[|Split(a, sep)|..];
      assert Split(b, sep) == Split(a, sep) + rest;
      JoinConcat(Split(a, sep), rest, sep);
      JoinSplit(a, sep);
      JoinSplit(b, sep);
    }
  }

  /** The part before the first separator of `tail` is all that text put in front of it can change. */
  lemma {:induction false} SplitInFront(front: string, tail: string, sep: char)
    ensures Split(front + tail, sep) == Split(front + Split(tail, sep)[0], sep) + Split(tail, sep)[1..]
    decreases |front|
  {
    var first, others := Split(tail, sep)[0], Split(tail, sep)[1..];
    if front == "" {
      JoinSplit(tail, sep);
      SplitWhole(first, sep);
      assert front + tail == tail && front + first == first;
      assert [first] + others == Split(tail, sep);
    } else {
      var c, rest := front[0], front[1..];
      SplitInFront(rest, tail, sep);
      assert front + tail == [c] + (rest + tail) && front + first == [c] + (rest + first);
      SplitCons(c, rest + tail, sep);
      SplitCons(c, rest + first, sep);
      PushConcat(c, Split(rest + first, sep), others, sep);
    }
  }
}
