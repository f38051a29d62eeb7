/** Typed process identifiers: printing, parsing, and collecting them from control files. */
module JobId {
  import opened Wrappers
  import opened Strings

  // ---------------------------------------------------------------- numbers and white space

  predicate Digit(c: char) {
    '0' <= c <= '9'
  }

  predicate AllDigits(s: string) {
    forall i | 0 <= i < |s| :: Digit(s[i])
  }

  function DigitValue(c: char): (d: nat)
    requires Digit(c)
    ensures d < 10
  {
    c as int - '0' as int
  }

  function Number(s: string): nat
    requires AllDigits(s)
  {
    if s == "" then 0 else 10 * Number(s[..|s| - 1]) + DigitValue(s[|s| - 1])
  }

  function DigitChar(d: nat): (c: char)
    requires d < 10
    ensures Digit(c) && DigitValue(c) == d
  {
    ('0' as int + d) as char
  }

  function Print(n: nat): (s: string)
    ensures |s| > 0 && AllDigits(s) && Number(s) == n
  {
    if n < 10 then [DigitChar(n)]
    else
      var front, last := Print(n / 10), DigitChar(n % 10);
      assert (front + [last])[..|front|] == front;
      front + [last]
  }

  /** White space as Unicode lists it. */
  predicate Space(c: char) {
    var n := c as int;
    || 9 <= n <= 13 || n == 32 || n == 0x85 || n == 0xA0
    || n == 0x1680 || 0x2000 <= n <= 0x200A || n == 0x2028 || n == 0x2029
    || n == 0x202F || n == 0x205F || n == 0x3000
  }

  function TrimLeft(s: string): (r: string)
    ensures |r| <= |s|
  {
    if s != "" && Space(s[0]) then TrimLeft(s[1..]) else s
  }

  function TrimRight(s: string): (r: string)
    ensures |r| <= |s|
  {
    if s != "" && Space(s[|s| - 1]) then TrimRight(s[..|s| - 1]) else s
  }

  function Trim(s: string): string {
    TrimRight(TrimLeft(s))
  }

  const INT_LIMIT := 0x8000_0000_0000_0000
  const UINT_LIMIT := 0x1_0000_0000_0000_0000

  /** A signed decimal number that fits 64 bits. */
  function Atoi(s: string): Option<int> {
    var signed := s != "" && (s[0] == '+' || s[0] == '-');
    var digits := if signed then s[1..] else s;
    if digits == "" || !AllDigits(digits) then None
    else
      var n: int := if signed && s[0] == '-' then 0 - Number(digits) else Number(digits);
      if -INT_LIMIT <= n < INT_LIMIT then Some(n) else None
  }

  function ParseUint(s: string): Option<nat> {
    if s == "" || !AllDigits(s) || Number(s) >= UINT_LIMIT then None else Some(Number(s))
  }

  // ---------------------------------------------------------------- identifiers

  /** A process and the time it was started, zero if that is not known. */
  datatype Id = Id(pid: nat, startTime: nat) {
    predicate Valid() {
      0 < pid < INT_LIMIT && startTime < UINT_LIMIT
    }
  }

  const PREFIX := "pid://"

  /** The short form that is kept while the pod is being terminated. */
  function Normal(id: Id): string {
    if id.startTime > 0 then Print(id.pid) + ":" + Print(id.startTime) else Print(id.pid)
  }

  function FormatProcessJobID(id: Id): string {
    PREFIX + Normal(id)
  }

  /** The process number and, if there is one, the start time. */
  function FromParts(parts: seq<string>): (r: Option<Id>)
    requires |parts| > 0
    ensures r.Some? ==> r.value.Valid()
  {
    if |parts| > 2 then None
    else
      var p := Atoi(parts[0]);
      if p.None? || p.value <= 0 then None
      else if |parts| == 2 then
        var st := ParseUint(parts[1]);
        if st.None? then None else Some(Id(p.value, st.value))
      else Some(Id(p.value, 0))
  }

  /** What is left once white space and the type prefix are removed. */
  function Bare(raw: string): string {
    var trimmed := Trim(raw);
    if StartsWith(trimmed, PREFIX) then Trim(trimmed[|PREFIX|..]) else trimmed
  }

  function ParseProcessJobID(raw: string): (r: Option<Id>)
    ensures r.Some? ==> r.value.Valid()
  {
    var val := Bare(raw);
    if val == "" then None else FromParts(Split(val, ':'))
  }

  function ParseProcessPID(raw: string): Option<string> {
    var id := ParseProcessJobID(raw);
    if id.None? then None else Some(Normal(id.value))
  }

  lemma TrimNothing(s: string)
    requires s != "" && !Space(s[0]) && !Space(s[|s| - 1])
    ensures Trim(s) == s
  {
  }

  predicate AllSpace(s: string) {
    forall i | 0 <= i < |s| :: Space(s[i])
  }

  lemma {:induction false} TrimLeftOf(a: string, s: string)
    requires AllSpace(a) && s != "" && !Space(s[0])
    ensures TrimLeft(a + s) == s
  {
    if a == "" {
      assert a + s == s;
    } else {
      TrimLeftOf(a[1..], s);
      assert (a + s)[1..] == a[1..] + s;
    }
  }

  lemma {:induction false} TrimRightOf(s: string, b: string)
    requires AllSpace(b) && s != "" && !Space(s[|s| - 1])
    ensures TrimRight(s + b) == s
    decreases |b|
  {
    if b == "" {
      assert s + b == s;
    } else {
      TrimRightOf(s, b[..|b| - 1]);
      assert (s + b)[..|s + b| - 1] == s + b[..|b| - 1];
    }
  }

  /** White space around a text is taken off, on both sides. */
  lemma TrimAround(a: string, s: string, b: string)
    requires AllSpace(a) && AllSpace(b) && s != "" && !Space(s[0]) && !Space(s[|s| - 1])
    ensures Trim(a + s + b) == s
  {
    TrimLeftOf(a, s + b);
    TrimRightOf(s, b);
    assert a + s + b == a + (s + b);
  }

  lemma NoColon(s: string)
    requires AllDigits(s)
    ensures ':' !in s
  {
  }

  lemma PrintedParses(n: nat)
    ensures n < INT_LIMIT ==> Atoi(Print(n)) == Some(n)
    ensures n < UINT_LIMIT ==> ParseUint(Print(n)) == Some(n)
  {
    assert Digit(Print(n)[0]);
  }

  lemma NormalEnds(id: Id)
    ensures var s := Normal(id); s != "" && Digit(s[0]) && Digit(s[|s| - 1])
  {
  }

  lemma NormalSplits(id: Id)
    requires id.Valid()
    ensures FromParts(Split(Normal(id), ':')) == Some(id)
  {
    var p, st := Print(id.pid), Print(id.startTime);
    NoColon(p);
    NoColon(st);
    PrintedParses(id.pid);
    PrintedParses(id.startTime);
    SplitWhole(p, ':');
    SplitWhole(st, ':');
    SplitAfter(p, st, ':');
    assert FromParts([p, st]) == Some(Id(id.pid, id.startTime)) && FromParts([p]) == Some(Id(id.pid, 0));
  }

  lemma BareNormal(s: string)
    requires s != "" && Digit(s[0]) && Digit(s[|s| - 1])
    ensures Bare(s) == s && Bare(PREFIX + s) == s
  {
    TrimNothing(s);
    assert PREFIX[0] == 'p' && |PREFIX| == 6;
    assert !StartsWith(s, PREFIX);
    var raw := PREFIX + s;
    assert raw[0] == 'p' && raw[|raw| - 1] == s[|s| - 1];
    TrimNothing(raw);
    assert StartsWith(raw, PREFIX) && raw[|PREFIX|..] == s;
  }

  /** The normal form says all there is to say. */
  lemma NormalParses(id: Id)
    requires id.Valid()
    ensures ParseProcessJobID(Normal(id)) == Some(id)
  {
    NormalEnds(id);
    BareNormal(Normal(id));
    NormalSplits(id);
  }

  /** Parsing undoes printing, for every process number and every start time. */
  lemma FormatParses(id: Id)
    requires id.Valid()
    ensures ParseProcessJobID(FormatProcessJobID(id)) == Some(id)
  {
    NormalEnds(id);
    BareNormal(Normal(id));
    NormalSplits(id);
  }

  lemma BarePadded(s: string, a: string, b: string)
    requires s != "" && Digit(s[0]) && Digit(s[|s| - 1]) && AllSpace(a) && AllSpace(b)
    ensures Bare(a + s + b) == s
  {
    TrimAround(a, s, b);
    assert PREFIX[0] == 'p' && !StartsWith(s, PREFIX);
  }

  lemma BareTyped(s: string, a: string, b: string, c: string)
    requires s != "" && Digit(s[0]) && Digit(s[|s| - 1]) && AllSpace(a) && AllSpace(b) && AllSpace(c)
    ensures Bare(a + ("pid://" + c + s) + b) == s
  {
    var t := "pid://" + c + s;
    assert t[0] == 'p' && t[|t| - 1] == s[|s| - 1];
    TrimAround(a, t, b);
    assert t[|PREFIX|..] == c + s + "";
    TrimAround(c, s, "");
  }

  /** Nor does it matter what white space stands around it, or whether the type prefix does. */
  lemma PaddedParses(id: Id, a: string, b: string, c: string)
    requires id.Valid() && AllSpace(a) && AllSpace(b) && AllSpace(c)
    ensures ParseProcessJobID(a + Normal(id) + b) == Some(id)
    ensures ParseProcessJobID(a + ("pid://" + c + Normal(id)) + b) == Some(id)
  {
    NormalEnds(id);
    NormalSplits(id);
    BarePadded(Normal(id), a, b);
    BareTyped(Normal(id), a, b, c);
  }

  /** The text is a decimal number, and this one. */
  predicate Spells(s: string, n: nat) {
    s != "" && AllDigits(s) && Number(s) == n
  }

  /** Which texts are parsed, and as what: bare of white space and prefix, one positive number that may carry
      a plus sign, or such a number, a colon and another number, each within its 64 bits. */
  lemma ParsesExactly(raw: string, id: Id)
    ensures var parts := Split(Bare(raw), ':');
            ParseProcessJobID(raw) == Some(id) <==>
              && id.Valid()
              && (Spells(parts[0], id.pid) || (parts[0] != "" && parts[0][0] == '+' && Spells(parts[0][1..], id.pid)))
              && (|parts| == 1 || |parts| == 2)
              && (if |parts| == 1 then id.startTime == 0 else Spells(parts[1], id.startTime))
  {
    if Bare(raw) == "" {
      assert Split("", ':') == [""];
    } else if id.pid > 0 {
      AtoiExactly(Split(Bare(raw), ':')[0], id.pid);
    }
  }

  lemma AtoiExactly(s: string, n: nat)
    requires n > 0
    ensures Atoi(s) == Some(n) <==>
              n < INT_LIMIT && (Spells(s, n) || (s != "" && s[0] == '+' && Spells(s[1..], n)))
  {
  }

  /** However an identifier was written, its normal form stands for the same process, and different
      processes have different normal forms. */
  lemma NormalFormExact(raw: string, other: string)
    ensures ParseProcessPID(raw).Some? <==> ParseProcessJobID(raw).Some?
    ensures ParseProcessPID(raw).Some? ==> ParseProcessJobID(ParseProcessPID(raw).value) == ParseProcessJobID(raw)
    ensures ParseProcessPID(raw) == ParseProcessPID(other) <==> ParseProcessJobID(raw) == ParseProcessJobID(other)
  {
    var a, b := ParseProcessJobID(raw), ParseProcessJobID(other);
    if a.Some? {
      NormalParses(a.value);
    }
    if b.Some? {
      NormalParses(b.value);
    }
  }

  // ---------------------------------------------------------------- collecting them

  /** The contents of the job-id files of some containers, in order; `None` where there is none. */
  type Files = seq<Option<string>>

  /** What a file names: the normal form, if it can be parsed. */
  function Parsed(file: Option<string>): Option<string> {
    if file.None? then None else ParseProcessPID(file.value)
  }

  type Ids = seq<Option<string>>

  function Identifiers(files: Files): (ids: Ids)
    ensures |ids| == |files| && forall i | 0 <= i < |files| :: ids[i] == Parsed(files[i])
  {
    seq(|files|, i requires 0 <= i < |files| => Parsed(files[i]))
  }

  /** Each identifier that was not seen before, where it first stands. */
  function Fresh(ids: Ids, seen: set<string>): seq<string> {
    if ids == [] then []
    else if ids[0].Some? && ids[0].value !in seen then [ids[0].value] + Fresh(ids[1..], seen + {ids[0].value})
    else Fresh(ids[1..], seen)
  }

  /** What `seen` has grown to once the identifiers are read. */
  function SeenAfter(ids: Ids, seen: set<string>): set<string> {
    if ids == [] then seen
    else SeenAfter(ids[1..], if ids[0].Some? && ids[0].value !in seen then seen + {ids[0].value} else seen)
  }

  lemma {:induction false} FreshConcat(a: Ids, b: Ids, seen: set<string>)
    ensures Fresh(a + b, seen) == Fresh(a, seen) + Fresh(b, SeenAfter(a, seen))
    ensures SeenAfter(a + b, seen) == SeenAfter(b, SeenAfter(a, seen))
    decreases |a|
  {
    if a == [] {
      assert a + b == b;
    } else {
      assert (a + b)[1..] == a[1..] + b;
      FreshConcat(a[1..], b, if a[0].Some? && a[0].value !in seen then seen + {a[0].value} else seen);
    }
  }

  lemma OneMore(ids: Ids, i: nat, seen: set<string>)
    requires i < |ids|
    ensures var s := SeenAfter(ids[..i], seen);
            var isNew := ids[i].Some? && ids[i].value !in s;
            && Fresh(ids[..i + 1], seen) == Fresh(ids[..i], seen) + (if isNew then [ids[i].value] else [])
            && SeenAfter(ids[..i + 1], seen) == (if isNew then s + {ids[i].value} else s)
  {
    assert ids[..i] + [ids[i]] == ids[..i + 1] && [ids[i]][1..] == [];
    FreshConcat(ids[..i], [ids[i]], seen);
  }

  /** The loop over the identifiers found for some containers, one after the other. */
  method Collect(ids: Ids, before: set<string>) returns (secondary: seq<string>, seen: set<string>)
    ensures secondary == Fresh(ids, before) && seen == SeenAfter(ids, before)
  {
    secondary, seen := [], before;
    var i := 0;
    while i < |ids|
      invariant 0 <= i <= |ids|
      invariant secondary == Fresh(ids[..i], before) && seen == SeenAfter(ids[..i], before)
    {
      OneMore(ids, i, before);
      if ids[i].Some? && ids[i].value !in seen {
        seen := seen + {ids[i].value};
        secondary := secondary + [ids[i].value];
      }
      i := i + 1;
    }
    assert ids[..i] == ids;
  }

  /** The containers' processes besides the one signalled first. */
  method ResolveSecondaryContainerPIDs(containers: Files, inits: Files, primary: string)
      returns (secondary: seq<string>)
    ensures secondary == Fresh(Identifiers(containers) + Identifiers(inits), if primary == "" then {} else {primary})
  {
    var seen: set<string> := if primary == "" then {} else {primary};
    FreshConcat(Identifiers(containers), Identifiers(inits), seen);
    var mains, others;
    mains, seen := Collect(Identifiers(containers), seen);
    others, seen := Collect(Identifiers(inits), seen);
    secondary := mains + others;
  }

  predicate NoDuplicates(xs: seq<string>) {
    forall i, j | 0 <= i < j < |xs| :: xs[i] != xs[j]
  }

  /** The list has exactly the identifiers that were not seen before, each of them once. */
  lemma {:induction false} FreshExactly(ids: Ids, seen: set<string>, id: string)
    ensures id in Fresh(ids, seen) <==> id !in seen && Some(id) in ids
    ensures NoDuplicates(Fresh(ids, seen))
    decreases |ids|
  {
    if ids != [] {
      var isNew := ids[0].Some? && ids[0].value !in seen;
      var rest := if isNew then seen + {ids[0].value} else seen;
      assert ids == [ids[0]] + ids[1..];
      FreshExactly(ids[1..], rest, id);
      if isNew {
        FreshExactly(ids[1..], rest, ids[0].value);
      }
    }
  }

  /** In the order of the containers: each identifier is listed where it first stands. */
  lemma {:induction false} FreshInOrder(ids: Ids, seen: set<string>) returns (at: seq<int>)
    ensures |at| == |Fresh(ids, seen)|
    ensures forall k | 0 <= k < |at| :: 0 <= at[k] < |ids| && ids[at[k]] == Some(Fresh(ids, seen)[k])
    ensures forall j, k | 0 <= j < k < |at| :: at[j] < at[k]
    decreases |ids|
  {
    if ids == [] {
      at := [];
    } else {
      var isNew := ids[0].Some? && ids[0].value !in seen;
      var rest := FreshInOrder(ids[1..], if isNew then seen + {ids[0].value} else seen);
      var shifted := seq(|rest|, k requires 0 <= k < |rest| => rest[k] + 1);
      assert forall k | 0 <= k < |rest| :: ids[1..][rest[k]] == ids[shifted[k]];
      at := if isNew then [0] + shifted else shifted;
    }
  }

  /** The index of the first identifier that was found, or the length if none was. */
  function FirstFound(ids: Ids): (i: nat)
    ensures i <= |ids| && (i < |ids| ==> ids[i].Some?)
    ensures forall j | 0 <= j < i :: ids[j].None?
  {
    if ids == [] || ids[0].Some? then 0 else 1 + FirstFound(ids[1..])
  }

  function Pick(ids: Ids): Option<string> {
    if FirstFound(ids) < |ids| then ids[FirstFound(ids)] else None
  }

  method FindFirst(ids: Ids) returns (r: Option<string>)
    ensures r == Pick(ids)
  {
    var i := 0;
    while i < |ids| && ids[i].None?
      invariant 0 <= i <= |ids|
      invariant forall j | 0 <= j < i :: ids[j].None?
    {
      i := i + 1;
    }
    r := if i < |ids| then ids[i] else None;
  }

  /** The process to signal first: the pause process, else that of a container, else of an init container,
      else the wrapper's; the first in this order whose identifier can be parsed. */
  method ResolveProcessPID(pause: Option<string>, containers: Files, inits: Files, wrapper: Option<string>)
    returns (r: Option<string>)
    ensures var ids := [Parsed(pause)] + Identifiers(containers) + Identifiers(inits) + [Parsed(wrapper)];
            r == Pick(ids)
  {
    ghost var ids := [Parsed(pause)] + Identifiers(containers) + Identifiers(inits) + [Parsed(wrapper)];
    r := Parsed(pause);
    if r.None? {
      r := FindFirst(Identifiers(containers));
    }
    if r.None? {
      r := FindFirst(Identifiers(inits));
    }
    if r.None? {
      r := Parsed(wrapper);
    }
    FirstOfFour([Parsed(pause)], Identifiers(containers), Identifiers(inits), [Parsed(wrapper)]);
  }

  lemma FirstOfTwo(a: Ids, b: Ids)
    ensures Pick(a + b) == if Pick(a).Some? then Pick(a) else Pick(b)
  {
    var i, ab := FirstFound(a), a + b;
    if i < |a| {
      assert ab[i] == a[i] && forall j | 0 <= j < i :: ab[j] == a[j];
    } else {
      var k := FirstFound(b);
      assert forall j | 0 <= j < |a| :: ab[j] == a[j];
      assert forall j | 0 <= j < |b| :: ab[|a| + j] == b[j];
      assert k < |b| ==> ab[|a| + k].Some?;
    }
  }

  lemma FirstOfFour(a: Ids, b: Ids, c: Ids, d: Ids)
    ensures Pick(a + b + c + d) ==
            if Pick(a).Some? then Pick(a)
            else if Pick(b).Some? then Pick(b)
            else if Pick(c).Some? then Pick(c)
            else Pick(d)
  {
    FirstOfTwo(a, b);
    FirstOfTwo(a + b, c);
    FirstOfTwo(a + b + c, d);
  }
}
