/** The last lines of a log file, found by reading it backwards page by page. */
module LogTail {
  import opened Wrappers
  import opened Strings

  // ---------------------------------------------------------------- the specification

  function NonEmpty(lines: seq<string>): seq<string> {
    if lines == [] then [] else (if lines[0] == "" then [] else [lines[0]]) + NonEmpty(lines[1..])
  }

  function Last<T>(n: nat, xs: seq<T>): seq<T> {
    if |xs| <= n then xs else xs[|xs| - n..]
  }

  /** The non-empty lines of a whole file. */
  function Lines(content: string): seq<string> {
    NonEmpty(Split(content, '\n'))
  }

  // ---------------------------------------------------------------- pages

  /** Where the part of the file begins that the first `done` reads have given; below zero when it is
      less than that many reads to the beginning of the file. */
  function ReadFrom(size: nat, pageSize: nat, done: nat): (pos: int)
    requires pageSize >= 1
    ensures pos <= size
  {
    if done == 0 then size
    else if done == 1 then size - size % pageSize
    else ReadFrom(size, pageSize, done - 1) - pageSize
  }

  lemma {:induction false} ReadFromFalls(size: nat, pageSize: nat, i: nat, j: nat)
    requires pageSize >= 1 && i <= j
    ensures ReadFrom(size, pageSize, j) <= ReadFrom(size, pageSize, i)
    decreases j
  {
    if i < j {
      ReadFromFalls(size, pageSize, i, j - 1);
      LastBoundary(size, pageSize);
    }
  }

  /** Where the page that starts at `offset` ends. */
  function PageEnd(offset: int, pageSize: nat, size: nat): int {
    if offset + pageSize < size then offset + pageSize else size
  }

  /** A whole number of pages from the beginning of the file. */
  ghost predicate OnBoundary(offset: nat, pageSize: nat)
    requires pageSize >= 1
  {
    offset == 0 || (offset >= pageSize && OnBoundary(offset - pageSize, pageSize))
  }

  lemma {:induction false} PagesOnBoundary(pages: nat, pageSize: nat)
    requires pageSize >= 1
    ensures 0 <= pageSize * pages && OnBoundary(pageSize * pages, pageSize)
  {
    if pages > 0 {
      PagesOnBoundary(pages - 1, pageSize);
      assert pageSize * pages == pageSize * (pages - 1) + pageSize;
    }
  }

  lemma LastBoundary(size: nat, pageSize: nat)
    requires pageSize >= 1
    ensures 0 <= size - size % pageSize <= size < size - size % pageSize + pageSize
    ensures OnBoundary(size - size % pageSize, pageSize)
  {
    assert size - size % pageSize == pageSize * (size / pageSize);
    PagesOnBoundary(size / pageSize, pageSize);
  }

  /** After `done` reads the part already read begins at `pos`, and the next page at `offset`. */
  ghost predicate Reading(size: nat, pageSize: nat, done: nat, pos: nat, offset: int)
    requires pageSize >= 1
  {
    && pos == ReadFrom(size, pageSize, done) && offset == ReadFrom(size, pageSize, done + 1)
    && (offset >= 0 ==> OnBoundary(offset, pageSize) && pos == PageEnd(offset, pageSize, size))
    && (offset < 0 ==> pos == 0)
  }

  lemma ReadingGoesOn(size: nat, pageSize: nat, done: nat, pos: nat, offset: nat)
    requires pageSize >= 1 && Reading(size, pageSize, done, pos, offset)
    ensures Reading(size, pageSize, done + 1, offset, offset - pageSize)
  {
    ReadFromFalls(size, pageSize, 0, done + 1);
  }

  // ---------------------------------------------------------------- the reader

  datatype Chunk = Data(bytes: string) | Eof | Fault

  /** The number of the read at which the file system fails, counted from zero, is `faultAt`. */
  class ReverseReader {
    const content: string
    const readSize: nat
    const faultAt: Option<nat>
    var offset: int
    var done: nat
    // Where the part already read begins.
    ghost var pos: nat

    ghost predicate Valid()
      reads this
    {
      && readSize >= 1 && Reading(|content|, readSize, done, pos, offset)
      && offset <= |content| && pos <= |content| && (faultAt.Some? ==> done <= faultAt.value)
    }

    /** The first read starts at the last page boundary, which is the end of the file itself when the
        file is a whole number of pages. */
    constructor (content: string, pageSize: nat, faultAt: Option<nat>)
      requires pageSize >= 1
      ensures Valid() && this.content == content && readSize == pageSize && this.faultAt == faultAt
      ensures done == 0 && pos == |content| && 0 <= offset && |content| < offset + pageSize
    {
      this.content := content;
      readSize := pageSize;
      this.faultAt := faultAt;
      offset := |content| - |content| % pageSize;
      done := 0;
      pos := |content|;
      LastBoundary(|content|, pageSize);
    }

    /** The page in front of what has been read already, until the beginning of the file is reached. */
    method Read() returns (c: Chunk)
      requires Valid()
      modifies this
      ensures Valid()
      ensures c.Eof? <==> old(offset) < 0
      ensures c.Fault? <==> old(offset) >= 0 && faultAt == Some(old(done))
      ensures c.Eof? ==> old(pos) == 0
      ensures c.Data? ==> pos == old(offset) <= old(pos) && c.bytes == content[pos..old(pos)] && done == old(done) + 1
      ensures offset == if c.Data? then old(offset) - readSize else old(offset)
      ensures !c.Data? ==> done == old(done) && pos == old(pos)
    {
      if offset < 0 {
        return Eof;
      }
      if faultAt == Some(done) {
        return Fault;
      }
      ReadingGoesOn(|content|, readSize, done, pos, offset);
      c := Data(content[offset..PageEnd(offset, readSize, |content|)]);
      pos := offset;
      offset := offset - readSize;
      done := done + 1;
    }
  }

  // ---------------------------------------------------------------- lemmas on lines

  lemma NonEmptyFrom(lines: seq<string>, j: nat)
    requires j < |lines|
    ensures NonEmpty(lines[j..]) == (if lines[j] == "" then [] else [lines[j]]) + NonEmpty(lines[j + 1..])
  {
    assert lines[j..][1..] == lines[j + 1..];
  }

  lemma NonEmptyCons(x: string, rest: seq<string>)
    ensures NonEmpty([x] + rest) == (if x == "" then [] else [x]) + NonEmpty(rest)
  {
    assert ([x] + rest)[1..] == rest;
  }

  lemma Associate<T>(a: seq<T>, b: seq<T>, c: seq<T>)
    ensures (a + b) + c == a + (b + c)
  {
  }

  lemma {:induction false} NonEmptyConcat(a: seq<string>, b: seq<string>)
    ensures NonEmpty(a + b) == NonEmpty(a) + NonEmpty(b)
    decreases |a|
  {
    if a == [] {
      assert a + b == b;
    } else {
      var x, rest := a[0], a[1..];
      NonEmptyConcat(rest, b);
      NonEmptyCons(x, rest + b);
      NonEmptyCons(x, rest);
      Associate([x], rest, b);
      Associate(if x == "" then [] else [x], NonEmpty(rest), NonEmpty(b));
      assert a == [x] + rest;
    }
  }

  /** The lines of two texts with a line break between them are those of the one and then those of the
      other, and a text without a line break is a line unless it is empty. */
  lemma LinesInTurn(a: string, b: string)
    ensures Lines(a + "\n" + b) == Lines(a) + Lines(b)
    ensures '\n' !in a ==> Lines(a) == if a == "" then [] else [a]
  {
    assert a + "\n" + b == a + ['\n'] + b;
    SplitConcat(a, b, '\n');
    NonEmptyConcat(Split(a, '\n'), Split(b, '\n'));
    if '\n' !in a {
      SplitWhole(a, '\n');
      assert [a][1..] == [];
    }
  }

  /** The last elements: as many as were asked for, or all there are, and nothing behind them is left out. */
  lemma LastExactly<T>(n: nat, xs: seq<T>)
    ensures |Last(n, xs)| == if |xs| < n then |xs| else n
    ensures exists front :: xs == front + Last(n, xs)
  {
    assert xs == xs[..|xs| - |Last(n, xs)|] + Last(n, xs);
  }

  /** Taking the last lines in two goes. */
  lemma LastOfConcat<T>(n: nat, front: seq<T>, back: seq<T>)
    ensures Last(n, front + back) == if |back| >= n then Last(n, back) else Last(n - |back|, front) + back
  {
  }

  lemma LastWhole<T>(front: seq<T>, back: seq<T>)
    ensures Last(|back|, front + back) == back
  {
  }

  lemma LastAgain<T>(n: nat, xs: seq<T>)
    ensures Last(|Last(n, xs)|, xs) == Last(n, xs)
  {
  }

  function Reversed<T>(s: seq<T>): (r: seq<T>)
    ensures |r| == |s| && forall i | 0 <= i < |s| :: r[i] == s[|s| - 1 - i]
  {
    seq(|s|, i requires 0 <= i < |s| => s[|s| - 1 - i])
  }

  // ---------------------------------------------------------------- the tail

  /** One batch of lines is consumed from its end: empty lines are passed over, and the walk stops as
      soon as there are enough. */
  method Consume(batch: seq<string>, tail: nat, collected: seq<string>) returns (more: seq<string>)
    requires |collected| < tail
    ensures Reversed(more) == Last(tail, NonEmpty(batch) + Reversed(collected))
    ensures |more| <= tail
  {
    more := collected;
    var j := |batch|;
    CollectedNone(batch, collected);
    while j > 0
      invariant 0 <= j <= |batch|
      invariant |more| < tail
      invariant CollectedFrom(more, batch, j, collected)
    {
      j := j - 1;
      CollectedNext(more, batch, j, collected);
      if batch[j] != "" {
        more := PushFront(more, batch[j]);
        if |more| >= tail {
          EnoughCollected(batch, j, tail, collected, more);
          return;
        }
      }
    }
    assert batch[0..] == batch;
  }

  /** What has been collected when the lines from `j` on were looked at. */
  predicate CollectedFrom(more: seq<string>, batch: seq<string>, j: nat, collected: seq<string>)
    requires j <= |batch|
  {
    Reversed(more) == NonEmpty(batch[j..]) + Reversed(collected)
  }

  lemma CollectedNone(batch: seq<string>, collected: seq<string>)
    ensures CollectedFrom(collected, batch, |batch|, collected)
  {
    assert batch[|batch|..] == [];
  }

  lemma CollectedNext(more: seq<string>, batch: seq<string>, j: nat, collected: seq<string>)
    requires j < |batch| && CollectedFrom(more, batch, j + 1, collected)
    ensures CollectedFrom(if batch[j] == "" then more else PushFront(more, batch[j]), batch, j, collected)
  {
    NonEmptyFrom(batch, j);
    if batch[j] == "" {
      assert [] + NonEmpty(batch[j + 1..]) == NonEmpty(batch[j + 1..]);
    } else {
      Associate([batch[j]], NonEmpty(batch[j + 1..]), Reversed(collected));
    }
  }

  /** Appending to the list that is turned round at the end. */
  function PushFront<T>(xs: seq<T>, x: T): (r: seq<T>)
    ensures Reversed(r) == [x] + Reversed(xs) && |r| == |xs| + 1
  {
    xs + [x]
  }

  lemma NonEmptySplit(lines: seq<string>, j: nat)
    requires j <= |lines|
    ensures NonEmpty(lines) == NonEmpty(lines[..j]) + NonEmpty(lines[j..])
  {
    assert lines == lines[..j] + lines[j..];
    NonEmptyConcat(lines[..j], lines[j..]);
  }

  lemma EnoughOf<T>(front: seq<T>, back: seq<T>, collected: seq<T>)
    ensures Last(|back + collected|, (front + back) + collected) == back + collected
  {
    Associate(front, back, collected);
    LastWhole(front, back + collected);
  }

  lemma EnoughCollected(batch: seq<string>, j: nat, tail: nat, collected: seq<string>, more: seq<string>)
    requires j <= |batch| && |more| == tail
    requires CollectedFrom(more, batch, j, collected)
    ensures Reversed(more) == Last(tail, NonEmpty(batch) + Reversed(collected))
  {
    NonEmptySplit(batch, j);
    EnoughOf(NonEmpty(batch[..j]), NonEmpty(batch[j..]), Reversed(collected));
  }

  /** The slice is turned round in place. */
  method Reverse(lines: seq<string>) returns (r: seq<string>)
    ensures r == Reversed(lines)
  {
    r := lines;
    var k, l := 0, |r| - 1;
    while k < l
      invariant |r| == |lines| && 0 <= k <= l + 1 && l == |r| - 1 - k
      invariant forall i | 0 <= i < k :: r[i] == lines[|lines| - 1 - i] && r[|lines| - 1 - i] == lines[i]
      invariant forall i | k <= i <= l :: r[i] == lines[i]
    {
      var front, back := r[k], r[l];
      r := r[k := back];
      r := r[l := front];
      k, l := k + 1, l - 1;
    }
    forall i | 0 <= i < |r| ensures r[i] == lines[|lines| - 1 - i] {
      if i > l {
        assert r[|lines| - 1 - (|lines| - 1 - i)] == lines[|lines| - 1 - i];
      }
    }
  }

  /** What has been read so far ends the split of the whole file. */
  lemma SeenIsSuffix(content: string, pos: nat, leftover: string, seen: seq<string>)
    requires pos <= |content| && Split(content[pos..], '\n') == [leftover] + seen
    ensures Lines(content) == NonEmpty(Split(content[..pos] + leftover, '\n')) + NonEmpty(seen)
  {
    assert content == content[..pos] + content[pos..];
    SplitInFront(content[..pos], content[pos..], '\n');
    assert Split(content[pos..], '\n')[1..] == seen;
    NonEmptyConcat(Split(content[..pos] + leftover, '\n'), seen);
  }

  /** Once enough of the lines read so far are not empty, they are the answer; and they are the end of
      the file's lines in any case. */
  lemma SeenAnswers(content: string, pos: nat, leftover: string, seen: seq<string>, tail: nat)
    requires pos <= |content| && Split(content[pos..], '\n') == [leftover] + seen
    ensures |NonEmpty(seen)| >= tail ==> Last(tail, Lines(content)) == Last(tail, NonEmpty(seen))
    ensures NonEmpty(seen) == Last(|NonEmpty(seen)|, Lines(content))
  {
    SeenIsSuffix(content, pos, leftover, seen);
    LastOfConcat(tail, NonEmpty(Split(content[..pos] + leftover, '\n')), NonEmpty(seen));
  }

  /** The split of the file from `offset` on, once the page there is put in front of what was left over. */
  lemma ReadPage(content: string, offset: nat, pos: nat, leftover: string, seen: seq<string>, line: seq<string>)
    requires offset <= pos <= |content|
    requires Split(content[pos..], '\n') == [leftover] + seen
    requires line == Split(content[offset..pos] + leftover, '\n')
    ensures Split(content[offset..], '\n') == [line[0]] + (line[1..] + seen)
  {
    var page := content[offset..pos];
    assert content[offset..] == page + content[pos..];
    SplitInFront(page, content[pos..], '\n');
    assert ([leftover] + seen)[1..] == seen;
    Associate([line[0]], line[1..], seen);
    assert [line[0]] + line[1..] == line;
  }

  /** The very beginning of the file is what was left over. */
  lemma ReadAll(content: string, leftover: string, seen: seq<string>)
    requires Split(content, '\n') == [leftover] + seen
    ensures Lines(content) == NonEmpty([leftover]) + NonEmpty(seen)
  {
    NonEmptyConcat([leftover], seen);
  }

  /** Reading on changes nothing once enough lines are there. */
  lemma SeenEnough(content: string, pos: nat, later: nat, tail: nat)
    requires later <= pos <= |content| && |NonEmpty(Split(content[pos..], '\n')[1..])| >= tail
    ensures Last(tail, NonEmpty(Split(content[later..], '\n')[1..])) == Last(tail, Lines(content))
  {
    var first, seen := Split(content[pos..], '\n')[0], Split(content[pos..], '\n')[1..];
    var line := Split(content[later..pos] + first, '\n');
    assert Split(content[pos..], '\n') == [first] + seen;
    ReadPage(content, later, pos, first, seen, line);
    assert Split(content[later..], '\n')[1..] == line[1..] + seen;
    NonEmptyConcat(line[1..], seen);
    SeenAnswers(content, later, line[0], line[1..] + seen, tail);
  }

  /** The fault is met: the file is not read to its beginning before it. */
  predicate FaultMet(size: nat, pageSize: nat, faultAt: Option<nat>)
    requires pageSize >= 1
  {
    faultAt.Some? && ReadFrom(size, pageSize, faultAt.value + 1) >= 0
  }

  /** The answer: the last lines of the file, or, when a read fails, the last of the lines that were
      complete by then. */
  function Tail(content: string, pageSize: nat, tail: nat, faultAt: Option<nat>): seq<string>
    requires pageSize >= 1
  {
    if FaultMet(|content|, pageSize, faultAt) then
      ReadFromFalls(|content|, pageSize, faultAt.value, faultAt.value + 1);
      Last(tail, NonEmpty(Split(content[ReadFrom(|content|, pageSize, faultAt.value)..], '\n')[1..]))
    else Last(tail, Lines(content))
  }

  /** The parts of the file read so far: a piece of a line, and lines that are complete. */
  predicate Seen(content: string, pos: nat, leftover: string, seen: seq<string>) {
    pos <= |content| && Split(content[pos..], '\n') == [leftover] + seen
  }

  /** What is returned is the answer, and the end of the file's lines in any case. */
  predicate Answers(content: string, pageSize: nat, tail: nat, faultAt: Option<nat>, lines: seq<string>)
    requires pageSize >= 1
  {
    && lines == Tail(content, pageSize, tail, faultAt)
    && |lines| <= tail && lines == Last(|lines|, Lines(content))
  }

  /** Enough lines are the answer, fault or no fault. */
  lemma EnoughRead(content: string, pageSize: nat, tail: nat, faultAt: Option<nat>, done: nat, leftover: string,
                   seen: seq<string>)
    requires pageSize >= 1 && (faultAt.Some? ==> done <= faultAt.value)
    requires var pos := ReadFrom(|content|, pageSize, done); pos >= 0 && Seen(content, pos, leftover, seen)
    requires |NonEmpty(seen)| >= tail
    ensures Answers(content, pageSize, tail, faultAt, Last(tail, NonEmpty(seen)))
  {
    var pos := ReadFrom(|content|, pageSize, done);
    assert ([leftover] + seen)[1..] == seen;
    if FaultMet(|content|, pageSize, faultAt) {
      ReadFromFalls(|content|, pageSize, done, faultAt.value);
      ReadFromFalls(|content|, pageSize, faultAt.value, faultAt.value + 1);
      SeenEnough(content, pos, ReadFrom(|content|, pageSize, faultAt.value), tail);
    }
    SeenEnough(content, pos, pos, tail);
    LastAgain(tail, Lines(content));
  }

  /** A fault leaves the lines that are complete. */
  lemma StoppedShort(content: string, pageSize: nat, tail: nat, done: nat, leftover: string, seen: seq<string>)
    requires pageSize >= 1 && ReadFrom(|content|, pageSize, done + 1) >= 0
    requires var pos := ReadFrom(|content|, pageSize, done); pos >= 0 && Seen(content, pos, leftover, seen)
    requires |NonEmpty(seen)| < tail
    ensures Answers(content, pageSize, tail, Some(done), NonEmpty(seen))
  {
    var pos := ReadFrom(|content|, pageSize, done);
    assert ([leftover] + seen)[1..] == seen;
    SeenAnswers(content, pos, leftover, seen, tail);
  }

  /** At the beginning of the file what was left over is its first line. */
  lemma ReadThrough(content: string, pageSize: nat, tail: nat, faultAt: Option<nat>, done: nat, leftover: string,
                    seen: seq<string>)
    requires pageSize >= 1 && ReadFrom(|content|, pageSize, done + 1) < 0
    requires Seen(content, 0, leftover, seen) && (faultAt.Some? ==> done <= faultAt.value)
    ensures Answers(content, pageSize, tail, faultAt, Last(tail, NonEmpty([leftover]) + NonEmpty(seen)))
  {
    assert content[0..] == content;
    ReadAll(content, leftover, seen);
    if faultAt.Some? {
      ReadFromFalls(|content|, pageSize, done + 1, faultAt.value + 1);
    }
    LastAgain(tail, Lines(content));
  }

  /** One more page has been read. */
  lemma SeenMore(content: string, offset: nat, pos: nat, leftover: string, seen: seq<string>, line: seq<string>)
    requires offset <= pos && Seen(content, pos, leftover, seen)
    requires line == Split(content[offset..pos] + leftover, '\n')
    ensures Seen(content, offset, line[0], line[1..] + seen)
    ensures NonEmpty(line[1..] + seen) == NonEmpty(line[1..]) + NonEmpty(seen)
  {
    ReadPage(content, offset, pos, leftover, seen, line);
    NonEmptyConcat(line[1..], seen);
  }

  /** The last `tail` non-empty lines of the file, in order, for every content and page size.  When a
      read fails, the lines that were complete by then; they still are the end of that answer. */
  method GetTailLog(content: string, pageSize: nat, tail: nat, faultAt: Option<nat>) returns (lines: seq<string>)
    requires pageSize >= 1 && tail >= 1
    ensures Answers(content, pageSize, tail, faultAt, lines)
    ensures faultAt.None? ==> lines == Last(tail, Lines(content))
  {
    var rr := new ReverseReader(content, pageSize, faultAt);
    var leftover := "";
    var tailLog: seq<string> := [];
    // The lines of the part already read that are complete.
    ghost var seen: seq<string> := [];
    assert content[rr.pos..] == "";
    while true
      invariant rr.Valid() && rr.content == content && rr.readSize == pageSize && rr.faultAt == faultAt
      invariant Seen(content, rr.pos, leftover, seen)
      invariant |tailLog| < tail && Reversed(tailLog) == NonEmpty(seen)
      decreases rr.offset
    {
      ghost var pos := rr.pos;
      var c := rr.Read();
      if c.Fault? {
        StoppedShort(content, pageSize, tail, rr.done, leftover, seen);
        break;
      }
      if c.Eof? {
        tailLog := Consume([leftover], tail, tailLog);
        ReadThrough(content, pageSize, tail, faultAt, rr.done, leftover, seen);
        break;
      }
      var line := Split(c.bytes + leftover, '\n');
      SeenMore(content, rr.pos, pos, leftover, seen, line);
      if |line| > 1 {
        tailLog := Consume(line[1..], tail, tailLog);
      }
      leftover := line[0];
      seen := line[1..] + seen;
      if |tailLog| >= tail {
        EnoughRead(content, pageSize, tail, faultAt, rr.done, leftover, seen);
        break;
      }
    }
    lines := Reverse(tailLog);
  }
}
