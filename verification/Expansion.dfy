/** Expansion of variable references in strings of bytes. */
module Expansion {
  import opened Wrappers

  // Every law below holds of all integers; the values from 0 to 255 are the ones meant.
  type Byte = int
  type Text = seq<Byte>

  const OPERATOR: Byte := 36
  const OPENER: Byte := 40
  const CLOSER: Byte := 41

  // ---------------------------------------------------------------- what the text says

  /** One pass over a text meets plain bytes, escaped operators, references, operators followed by an
      opener that is never closed, and operators followed by some other byte. */
  datatype Token = Lit(b: Byte) | Escaped | Ref(name: Text) | Open | Other(b: Byte)

  /** The first closer at or after `i`, or the length if there is none. */
  function CloserFrom(s: Text, i: nat): (j: nat)
    requires i <= |s|
    ensures i <= j <= |s| && (j < |s| ==> s[j] == CLOSER)
    decreases |s| - i
  {
    if i == |s| || s[i] == CLOSER then i else CloserFrom(s, i + 1)
  }

  /** The token that begins at `i`. */
  function TokenAt(s: Text, i: nat): Token
    requires i < |s|
  {
    if s[i] != OPERATOR || i + 1 == |s| then Lit(s[i])
    else if s[i + 1] == OPERATOR then Escaped
    else if s[i + 1] == OPENER then
      var j := CloserFrom(s, i + 2);
      if j < |s| then Ref(s[i + 2..j]) else Open
    else Other(s[i + 1])
  }

  /** The bytes a token was read from. */
  function Raw(t: Token): Text {
    match t
      case Lit(b) => [b]
      case Escaped => [OPERATOR, OPERATOR]
      case Ref(name) => [OPERATOR, OPENER] + name + [CLOSER]
      case Open => [OPERATOR, OPENER]
      case Other(b) => [OPERATOR, b]
  }

  /** Where the token that begins at `i` ends. */
  function Next(s: Text, i: nat): (j: nat)
    requires i < |s|
    ensures i < j <= |s|
  {
    match TokenAt(s, i)
      case Lit(_) => i + 1
      case Ref(name) => i + |name| + 3
      case _ => i + 2
  }

  /** A byte that stands behind an operator is converted to a character, and from there to UTF-8. */
  function Utf8(b: Byte): Text {
    if b < 128 then [b] else if b < 192 then [194, b] else [195, b - 64]
  }

  /** What is copied for a token that is no reference. */
  function Copied(t: Token): Text
    requires !t.Ref?
  {
    match t
      case Lit(b) => [b]
      case Escaped => [OPERATOR]
      case Open => [OPERATOR, OPENER]
      case Other(b) => [OPERATOR] + Utf8(b)
  }

  function Ask(mapping: Text -> Text, name: Text): Text {
    mapping(name)
  }

  function Written(t: Token, mapping: Text -> Text): Text {
    if t.Ref? then Ask(mapping, t.name) else Copied(t)
  }

  /** The expansion of the text from `i` on. */
  function Expanded(s: Text, i: nat, mapping: Text -> Text): Text
    requires i <= |s|
    decreases |s| - i, 1
  {
    if i == |s| then [] else ExpandedToken(s, i, mapping)
  }

  function ExpandedToken(s: Text, i: nat, mapping: Text -> Text): Text
    requires i < |s|
    decreases |s| - i, 0
  {
    Written(TokenAt(s, i), mapping) + Expanded(s, Next(s, i), mapping)
  }

  function Names(t: Token): seq<Text> {
    if t.Ref? then [t.name] else []
  }

  /** The names referred to from `i` on, in order. */
  function Asked(s: Text, i: nat): seq<Text>
    requires i <= |s|
    decreases |s| - i, 1
  {
    if i == |s| then [] else AskedToken(s, i)
  }

  function AskedToken(s: Text, i: nat): seq<Text>
    requires i < |s|
    decreases |s| - i, 0
  {
    Names(TokenAt(s, i)) + Asked(s, Next(s, i))
  }

  lemma AtToken(s: Text, i: nat, mapping: Text -> Text)
    requires i < |s|
    ensures Expanded(s, i, mapping) == Written(TokenAt(s, i), mapping) + Expanded(s, Next(s, i), mapping)
    ensures Asked(s, i) == Names(TokenAt(s, i)) + Asked(s, Next(s, i))
  {
    assert Expanded(s, i, mapping) == ExpandedToken(s, i, mapping);
    assert Asked(s, i) == AskedToken(s, i);
  }

  lemma TokenRaw(s: Text, i: nat)
    requires i < |s|
    ensures s[i..] == Raw(TokenAt(s, i)) + s[Next(s, i)..]
  {
    var t, j := TokenAt(s, i), Next(s, i);
    assert s[i..] == s[i..j] + s[j..];
    assert s[i..j] == Raw(t) by {
      if t.Ref? {
        assert s[i..j] == [s[i], s[i + 1]] + s[i + 2..j - 1] + [s[j - 1]];
      } else if t.Lit? {
        assert s[i..j] == [s[i]];
      } else {
        assert s[i..j] == [s[i], s[i + 1]];
      }
    }
  }

  /** `b` is what `s` holds from `k` on. */
  predicate Ends(s: Text, k: nat, b: Text) {
    k + |b| == |s| && forall x | 0 <= x < |b| :: s[k + x] == b[x]
  }

  /** What stands before a position plays no part in what is read from there. */
  lemma {:induction false} CloserShift(s: Text, k: nat, b: Text, i: nat)
    requires Ends(s, k, b) && i <= |b|
    ensures CloserFrom(s, k + i) == k + CloserFrom(b, i)
    decreases |b| - i
  {
    if i < |b| {
      assert s[k + i] == b[i];
      if b[i] != CLOSER {
        CloserShift(s, k, b, i + 1);
      }
    }
  }

  lemma TokenShift(s: Text, k: nat, b: Text, i: nat)
    requires Ends(s, k, b) && i < |b|
    ensures TokenAt(s, k + i) == TokenAt(b, i)
    ensures Next(s, k + i) == k + Next(b, i)
  {
    assert s[k + i] == b[i];
    if i + 1 < |b| {
      assert s[k + (i + 1)] == b[i + 1];
      CloserShift(s, k, b, i + 2);
      var j := CloserFrom(b, i + 2);
      assert s[k + i + 2..k + j] == b[i + 2..j];
    }
  }

  lemma SameStart(s: Text, i: nat, b: Text, j: nat, mapping: Text -> Text)
    requires i < |s| && j < |b| && TokenAt(s, i) == TokenAt(b, j)
    requires Expanded(s, Next(s, i), mapping) == Expanded(b, Next(b, j), mapping)
    ensures Expanded(s, i, mapping) == Expanded(b, j, mapping)
  {
    AtToken(s, i, mapping);
    AtToken(b, j, mapping);
  }

  lemma NothingLeft(s: Text, mapping: Text -> Text)
    ensures Expanded(s, |s|, mapping) == []
  {
  }

  lemma {:induction false} ExpandedShift(s: Text, k: nat, b: Text, i: nat, mapping: Text -> Text)
    requires Ends(s, k, b) && i <= |b|
    ensures Expanded(s, k + i, mapping) == Expanded(b, i, mapping)
    decreases |b| - i
  {
    if i == |b| {
      NothingLeft(s, mapping);
      NothingLeft(b, mapping);
    } else {
      TokenShift(s, k, b, i);
      var j := Next(b, i);
      assert Expanded(s, k + j, mapping) == Expanded(b, j, mapping) by { ExpandedShift(s, k, b, j, mapping); }
      SameStart(s, k + i, b, i, mapping);
    }
  }

  // ---------------------------------------------------------------- the code

  /** Reads what follows an operator at position `at - 1`: the text to copy or the name to look up,
      which of the two it is, and how many bytes were consumed. */
  method TryReadVariableName(input: Text, at: nat) returns (read: Text, isVar: bool, advance: nat)
    requires 0 < at < |input| && input[at - 1] == OPERATOR
    ensures isVar ==> TokenAt(input, at - 1) == Ref(read)
    ensures !isVar ==> !TokenAt(input, at - 1).Ref? && read == Copied(TokenAt(input, at - 1))
    ensures at + advance == Next(input, at - 1)
  {
    if input[at] == OPERATOR {
      read, isVar, advance := input[at..at + 1], false, 1;
    } else if input[at] == OPENER {
      var i := at + 1;
      while i < |input| && input[i] != CLOSER
        invariant at + 1 <= i <= |input|
        invariant CloserFrom(input, at + 1) == CloserFrom(input, i)
      {
        i := i + 1;
      }
      if i < |input| {
        read, isVar, advance := input[at + 1..i], true, i - at + 1;
      } else {
        read, isVar, advance := [OPERATOR, OPENER], false, 1;
      }
    } else {
      read, isVar, advance := [OPERATOR] + Utf8(input[at]), false, 1;
    }
  }

  /** What is written and asked for so far, together with what the rest of the text calls for, is the
      whole expansion. */
  ghost predicate Expected(input: Text, mapping: Text -> Text, done: Text, calls: seq<Text>, cursor: nat)
    requires cursor <= |input|
  {
    && Expanded(input, 0, mapping) == done + Expanded(input, cursor, mapping)
    && Asked(input, 0) == calls + Asked(input, cursor)
  }

  lemma Associate<T>(a: seq<T>, b: seq<T>, c: seq<T>)
    ensures (a + b) + c == a + (b + c)
  {
  }

  lemma OneToken(input: Text, mapping: Text -> Text, done: Text, calls: seq<Text>, cursor: nat)
    requires cursor < |input| && Expected(input, mapping, done, calls, cursor)
    ensures var t := TokenAt(input, cursor);
            Expected(input, mapping, done + Written(t, mapping), calls + Names(t), Next(input, cursor))
  {
    var t, next := TokenAt(input, cursor), Next(input, cursor);
    AtToken(input, cursor, mapping);
    Associate(done, Written(t, mapping), Expanded(input, next, mapping));
    Associate(calls, Names(t), Asked(input, next));
  }

  lemma OneReference(input: Text, mapping: Text -> Text, done: Text, calls: seq<Text>, cursor: nat, name: Text)
    requires cursor < |input| && Expected(input, mapping, done, calls, cursor)
    requires TokenAt(input, cursor) == Ref(name)
    ensures Expected(input, mapping, done + Ask(mapping, name), calls + [name], Next(input, cursor))
  {
    OneToken(input, mapping, done, calls, cursor);
  }

  lemma OneCopy(input: Text, mapping: Text -> Text, done: Text, calls: seq<Text>, cursor: nat, copy: Text)
    requires cursor < |input| && Expected(input, mapping, done, calls, cursor)
    requires !TokenAt(input, cursor).Ref? && copy == Copied(TokenAt(input, cursor))
    ensures Expected(input, mapping, done + copy, calls, Next(input, cursor))
  {
    OneToken(input, mapping, done, calls, cursor);
    assert calls + [] == calls;
  }

  /** Between checkpoint and cursor stand bytes that have been read but not yet written. */
  ghost predicate Pending(input: Text, mapping: Text -> Text, buf: Text, calls: seq<Text>, checkpoint: nat,
                          cursor: nat)
  {
    checkpoint <= cursor <= |input| && Expected(input, mapping, buf + input[checkpoint..cursor], calls, cursor)
  }

  lemma PlainByte(input: Text, mapping: Text -> Text, buf: Text, calls: seq<Text>, checkpoint: nat, cursor: nat)
    requires cursor < |input| && (input[cursor] != OPERATOR || cursor + 1 == |input|)
    requires Pending(input, mapping, buf, calls, checkpoint, cursor)
    ensures Pending(input, mapping, buf, calls, checkpoint, cursor + 1)
  {
    OneCopy(input, mapping, buf + input[checkpoint..cursor], calls, cursor, [input[cursor]]);
    assert buf + input[checkpoint..cursor] + [input[cursor]] == buf + input[checkpoint..cursor + 1];
  }

  lemma NothingPending(input: Text, mapping: Text -> Text, buf: Text, calls: seq<Text>, cursor: nat)
    requires cursor <= |input| && Expected(input, mapping, buf, calls, cursor)
    ensures Pending(input, mapping, buf, calls, cursor, cursor)
  {
    assert buf + input[cursor..cursor] == buf;
  }

  lemma AllRead(input: Text, mapping: Text -> Text, buf: Text, calls: seq<Text>, checkpoint: nat)
    requires Pending(input, mapping, buf, calls, checkpoint, |input|)
    ensures buf + input[checkpoint..] == Expanded(input, 0, mapping) && calls == Asked(input, 0)
  {
  }

  /** The loop's step at an operator: what is still unwritten is written out, then what the operator
      stands for. */
  method AtOperator(input: Text, mapping: Text -> Text, pending: Text, asked: seq<Text>, cursor: nat)
      returns (buf: Text, calls: seq<Text>, next: nat)
    requires cursor + 1 < |input| && input[cursor] == OPERATOR && Expected(input, mapping, pending, asked, cursor)
    ensures next == Next(input, cursor)
    ensures Expected(input, mapping, buf, calls, next)
  {
    var read, isVar, advance := TryReadVariableName(input, cursor + 1);
    if isVar {
      OneReference(input, mapping, pending, asked, cursor, read);
      calls := asked + [read];
      buf := pending + Ask(mapping, read);
    } else {
      OneCopy(input, mapping, pending, asked, cursor, read);
      calls := asked;
      buf := pending + read;
    }
    next := cursor + 1 + advance;
  }

  /** The cursor and checkpoint loop.  `calls` lists the names the mapping was asked for, in order. */
  method Expand(input: Text, mapping: Text -> Text) returns (out: Text, calls: seq<Text>)
    ensures out == Expanded(input, 0, mapping)
    ensures calls == Asked(input, 0)
  {
    var buf: Text := [];
    calls := [];
    var checkpoint := 0;
    var cursor := 0;
    NothingPending(input, mapping, buf, calls, cursor);
    while cursor < |input|
      invariant 0 <= checkpoint <= cursor <= |input|
      invariant Pending(input, mapping, buf, calls, checkpoint, cursor)
    {
      if input[cursor] == OPERATOR && cursor + 1 < |input| {
        buf, calls, cursor := AtOperator(input, mapping, buf + input[checkpoint..cursor], calls, cursor);
        checkpoint := cursor;
        NothingPending(input, mapping, buf, calls, cursor);
      } else {
        PlainByte(input, mapping, buf, calls, checkpoint, cursor);
        cursor := cursor + 1;
      }
    }
    AllRead(input, mapping, buf, calls, checkpoint);
    out := buf + input[checkpoint..];
  }

  // ---------------------------------------------------------------- mappings

  function Wrap(name: Text): Text {
    [OPERATOR, OPENER] + name + [CLOSER]
  }

  /** The first context that knows the name wins; a name no context knows is written back as it was. */
  function MappingFor(contexts: seq<map<Text, Text>>): Text -> Text {
    (name: Text) => Find(contexts, name)
  }

  function Find(contexts: seq<map<Text, Text>>, name: Text): Text {
    if contexts == [] then Wrap(name)
    else if name in contexts[0] then contexts[0][name]
    else Find(contexts[1..], name)
  }

  lemma OneContext(m: map<Text, Text>, name: Text)
    ensures Find([m], name) == if name in m then m[name] else Wrap(name)
  {
    var contexts := [m];
    assert contexts[1..] == [];
  }

  datatype EnvVar = EnvVar(name: Text, value: Text)

  /** The value the last variable of that name has. */
  function LastValue(envs: seq<EnvVar>, name: Text): Option<Text> {
    if envs == [] then None
    else if envs[|envs| - 1].name == name then Some(envs[|envs| - 1].value)
    else LastValue(envs[..|envs| - 1], name)
  }

  method EnvVarsToMap(envs: seq<EnvVar>) returns (m: map<Text, Text>)
    ensures forall n :: LastValue(envs, n) == if n in m then Some(m[n]) else None
  {
    m := map[];
    var i := 0;
    while i < |envs|
      invariant 0 <= i <= |envs|
      invariant forall n :: LastValue(envs[..i], n) == if n in m then Some(m[n]) else None
    {
      m := m[envs[i].name := envs[i].value];
      assert envs[..i + 1][..i] == envs[..i];
      i := i + 1;
    }
    assert envs[..i] == envs;
  }

  function ValueOrEmpty(m: map<Text, Text>): Text -> Text {
    (name: Text) => if name in m then m[name] else []
  }

  /** A referenced name that is missing, or whose value is empty. */
  predicate Lacks(envs: seq<EnvVar>, name: Text) {
    LastValue(envs, name).None? || LastValue(envs, name).value == []
  }

  /** The sub-path of a volume mount is expanded, or refused if and only if some name it refers to is
      missing or empty; the names at fault are all reported. */
  method ExpandContainerVolumeMounts(expr: Text, envs: seq<EnvVar>) returns (out: Option<Text>, missing: set<Text>)
    ensures forall n :: n in missing <==> n in Asked(expr, 0) && Lacks(envs, n)
    ensures out.None? <==> exists n :: n in Asked(expr, 0) && Lacks(envs, n)
    ensures out.Some? ==> out.value == Expanded(expr, 0, EnvValue(envs))
  {
    var m := EnvVarsToMap(envs);
    var expanded, calls := Expand(expr, ValueOrEmpty(m));
    SameMapping(expr, 0, ValueOrEmpty(m), EnvValue(envs));
    missing := MissingKeys(calls, m);
    out := if |missing| > 0 then None else Some(expanded);
  }

  /** The mapping's side effect: every name it was asked for and could not give a value is noted. */
  method MissingKeys(calls: seq<Text>, m: map<Text, Text>) returns (missing: set<Text>)
    ensures forall n :: n in missing <==> n in calls && (n in m ==> m[n] == [])
  {
    missing := {};
    var i := 0;
    while i < |calls|
      invariant 0 <= i <= |calls|
      invariant forall n :: n in missing <==> n in calls[..i] && (n in m ==> m[n] == [])
    {
      var key := calls[i];
      if key !in m || |m[key]| == 0 {
        missing := missing + {key};
      }
      assert calls[..i + 1] == calls[..i] + [key];
      i := i + 1;
    }
    assert calls[..i] == calls;
  }

  function EnvValue(envs: seq<EnvVar>): Text -> Text {
    (name: Text) => if LastValue(envs, name).Some? then LastValue(envs, name).value else []
  }

  lemma {:induction false} SameMapping(s: Text, i: nat, f: Text -> Text, g: Text -> Text)
    requires i <= |s| && forall n :: f(n) == g(n)
    ensures Expanded(s, i, f) == Expanded(s, i, g)
    decreases |s| - i
  {
    if i < |s| {
      SameMapping(s, Next(s, i), f, g);
      AtToken(s, i, f);
      AtToken(s, i, g);
    }
  }

  /** The last value of a variable, or the reference itself where there is none. */
  function StaticValue(envs: seq<EnvVar>): Text -> Text {
    (name: Text) => if LastValue(envs, name).Some? then LastValue(envs, name).value else Wrap(name)
  }

  /** Every part of a command is expanded; references to unknown names stay as they are. */
  method ExpandContainerCommandOnlyStatic(command: seq<Text>, envs: seq<EnvVar>) returns (out: seq<Text>)
    ensures |out| == |command| && forall i | 0 <= i < |command| :: out[i] == Expanded(command[i], 0, StaticValue(envs))
  {
    var m := EnvVarsToMap(envs);
    var mapping := MappingFor([m]);
    forall n ensures mapping(n) == StaticValue(envs)(n) {
      OneContext(m, n);
      assert LastValue(envs, n) == if n in m then Some(m[n]) else None;
    }
    out := [];
    var i := 0;
    while i < |command|
      invariant 0 <= i <= |command| && |out| == i
      invariant forall j | 0 <= j < i :: out[j] == Expanded(command[j], 0, StaticValue(envs))
    {
      var expanded, calls := Expand(command[i], mapping);
      SameMapping(command[i], 0, mapping, StaticValue(envs));
      out := out + [expanded];
      i := i + 1;
    }
  }

  // ---------------------------------------------------------------- what expansion means, text by text

  lemma {:induction false} AskedShift(s: Text, k: nat, b: Text, i: nat)
    requires Ends(s, k, b) && i <= |b|
    ensures Asked(s, k + i) == Asked(b, i)
    decreases |b| - i
  {
    if i < |b| {
      TokenShift(s, k, b, i);
      AskedShift(s, k, b, Next(b, i));
      assert Asked(s, k + i) == AskedToken(s, k + i) && Asked(b, i) == AskedToken(b, i);
    }
  }

  /** The first token of a text, and the text behind it. */
  lemma ExpandFirst(head: Text, back: Text, mapping: Text -> Text)
    requires head != [] && Next(head + back, 0) == |head|
    ensures Expanded(head + back, 0, mapping) ==
            Written(TokenAt(head + back, 0), mapping) + Expanded(back, 0, mapping)
    ensures Asked(head + back, 0) == Names(TokenAt(head + back, 0)) + Asked(back, 0)
  {
    AtToken(head + back, 0, mapping);
    ExpandedShift(head + back, |head|, back, 0, mapping);
    AskedShift(head + back, |head|, back, 0);
  }

  lemma {:induction false} ExpandPlain(front: Text, back: Text, mapping: Text -> Text)
    requires OPERATOR !in front
    ensures Expanded(front + back, 0, mapping) == front + Expanded(back, 0, mapping)
    ensures Asked(front + back, 0) == Asked(back, 0)
    decreases |front|
  {
    if front == [] {
      assert front + back == back;
    } else {
      var head, rest := [front[0]], front[1..];
      assert front == head + rest;
      Associate(head, rest, back);
      assert TokenAt(head + (rest + back), 0) == Lit(front[0]);
      ExpandFirst(head, rest + back, mapping);
      ExpandPlain(rest, back, mapping);
      Associate(head, rest, Expanded(back, 0, mapping));
    }
  }

  lemma {:induction false} FirstCloser(s: Text, i: nat, j: nat)
    requires i <= j < |s| && s[j] == CLOSER && forall k | i <= k < j :: s[k] != CLOSER
    ensures CloserFrom(s, i) == j
    decreases j - i
  {
    if i < j {
      FirstCloser(s, i + 1, j);
    }
  }

  lemma {:induction false} NoCloser(s: Text, i: nat)
    requires i <= |s| && forall k | i <= k < |s| :: s[k] != CLOSER
    ensures CloserFrom(s, i) == |s|
    decreases |s| - i
  {
    if i < |s| {
      NoCloser(s, i + 1);
    }
  }

  /** The first reference of a text is replaced by what the mapping gives for its name, and is the first
      name that is asked for. */
  lemma ExpandReference(front: Text, name: Text, back: Text, mapping: Text -> Text)
    requires OPERATOR !in front && CLOSER !in name
    ensures Expanded(front + ([OPERATOR, OPENER] + name + [CLOSER] + back), 0, mapping) ==
            front + (mapping(name) + Expanded(back, 0, mapping))
    ensures Asked(front + ([OPERATOR, OPENER] + name + [CLOSER] + back), 0) == [name] + Asked(back, 0)
  {
    var head := [OPERATOR, OPENER] + name + [CLOSER];
    var s := head + back;
    ExpandPlain(front, s, mapping);
    assert forall k | 2 <= k < 2 + |name| :: s[k] == name[k - 2];
    FirstCloser(s, 2, 2 + |name|);
    assert s[2..2 + |name|] == name;
    ExpandFirst(head, back, mapping);
  }

  /** An operator at the end is left alone. */
  lemma ExpandAlone(front: Text, mapping: Text -> Text)
    requires OPERATOR !in front
    ensures Expanded(front + [OPERATOR], 0, mapping) == front + [OPERATOR] && Asked(front + [OPERATOR], 0) == []
  {
    ExpandPlain(front, [OPERATOR], mapping);
    AtToken([OPERATOR], 0, mapping);
  }

  /** An operator before another byte: doubled, it stands for itself; before an opener that is never closed
      and before any other ASCII byte it is kept with it, while a byte beyond ASCII is encoded again.  No
      name is asked for. */
  lemma ExpandPair(front: Text, b: Byte, back: Text, mapping: Text -> Text)
    requires OPERATOR !in front && (b == OPENER ==> CLOSER !in back) && b < 256
    ensures Expanded(front + ([OPERATOR, b] + back), 0, mapping) ==
            front + ((if b == OPERATOR then [OPERATOR]
                      else if b < 128 then [OPERATOR, b]
                      else [OPERATOR, 192 + b / 64, 128 + b % 64]) + Expanded(back, 0, mapping))
    ensures Asked(front + ([OPERATOR, b] + back), 0) == Asked(back, 0)
  {
    PairToken(b, back);
    PairWritten(b, mapping);
    ExpandPlain(front, [OPERATOR, b] + back, mapping);
    ExpandFirst([OPERATOR, b], back, mapping);
  }

  lemma PairWritten(b: Byte, mapping: Text -> Text)
    requires b < 256
    ensures Written(if b == OPERATOR then Escaped else if b == OPENER then Open else Other(b), mapping) ==
            if b == OPERATOR then [OPERATOR]
            else if b < 128 then [OPERATOR, b]
            else [OPERATOR, 192 + b / 64, 128 + b % 64]
  {
  }

  lemma PairToken(b: Byte, back: Text)
    requires b == OPENER ==> CLOSER !in back
    ensures var s := [OPERATOR, b] + back;
            && TokenAt(s, 0) == (if b == OPERATOR then Escaped else if b == OPENER then Open else Other(b))
            && Next(s, 0) == 2
  {
    var s := [OPERATOR, b] + back;
    if b == OPENER {
      assert forall k | 2 <= k < |s| :: s[k] == back[k - 2];
      NoCloser(s, 2);
    }
  }

  /** The last variable of a name, if there is any, gives its value. */
  lemma {:induction false} LastValueExactly(envs: seq<EnvVar>, i: nat)
    requires i < |envs| && forall j | i < j < |envs| :: envs[j].name != envs[i].name
    ensures LastValue(envs, envs[i].name) == Some(envs[i].value)
    decreases |envs|
  {
    var k := |envs| - 1;
    if i < k {
      LastValueExactly(envs[..k], i);
    }
  }

  lemma {:induction false} NoValueExactly(envs: seq<EnvVar>, name: Text)
    ensures LastValue(envs, name).None? <==> forall j | 0 <= j < |envs| :: envs[j].name != name
  {
    if envs != [] {
      NoValueExactly(envs[..|envs| - 1], name);
    }
  }

  /** In a command a reference to a variable becomes its last value, and one to any other name stays. */
  lemma CommandReference(front: Text, envs: seq<EnvVar>, i: nat, back: Text)
    requires OPERATOR !in front && i < |envs| && CLOSER !in envs[i].name
    requires forall j | i < j < |envs| :: envs[j].name != envs[i].name
    ensures Expanded(front + ([OPERATOR, OPENER] + envs[i].name + [CLOSER] + back), 0, StaticValue(envs)) ==
            front + (envs[i].value + Expanded(back, 0, StaticValue(envs)))
  {
    LastValueExactly(envs, i);
    ExpandReference(front, envs[i].name, back, StaticValue(envs));
  }

  lemma CommandUnknown(front: Text, envs: seq<EnvVar>, name: Text, back: Text)
    requires OPERATOR !in front && CLOSER !in name && forall j | 0 <= j < |envs| :: envs[j].name != name
    ensures Expanded(front + ([OPERATOR, OPENER] + name + [CLOSER] + back), 0, StaticValue(envs)) ==
            front + ([OPERATOR, OPENER] + name + [CLOSER] + Expanded(back, 0, StaticValue(envs)))
  {
    NoValueExactly(envs, name);
    ExpandReference(front, name, back, StaticValue(envs));
  }

  /** In a mount that is not refused it becomes that value, too. */
  lemma MountReference(front: Text, envs: seq<EnvVar>, i: nat, back: Text)
    requires OPERATOR !in front && i < |envs| && CLOSER !in envs[i].name
    requires forall j | i < j < |envs| :: envs[j].name != envs[i].name
    ensures Expanded(front + ([OPERATOR, OPENER] + envs[i].name + [CLOSER] + back), 0, EnvValue(envs)) ==
            front + (envs[i].value + Expanded(back, 0, EnvValue(envs)))
  {
    LastValueExactly(envs, i);
    ExpandReference(front, envs[i].name, back, EnvValue(envs));
  }

  /** The first context that knows a name gives its value. */
  lemma {:induction false} FirstContext(contexts: seq<map<Text, Text>>, i: nat, name: Text)
    requires i < |contexts| && name in contexts[i] && forall j | 0 <= j < i :: name !in contexts[j]
    ensures MappingFor(contexts)(name) == contexts[i][name]
    decreases i
  {
    if i > 0 {
      FirstContext(contexts[1..], i - 1, name);
    }
  }

  // ---------------------------------------------------------------- laws

  /** Every operator doubled. */
  function Escape(s: Text): Text {
    if s == [] then [] else (if s[0] == OPERATOR then [OPERATOR, OPERATOR] else [s[0]]) + Escape(s[1..])
  }

  /** Expansion undoes escaping, whatever the mapping. */
  lemma {:induction false} ExpandEscape(s: Text, mapping: Text -> Text)
    ensures Expanded(Escape(s), 0, mapping) == s
    decreases |s|
  {
    if s != [] {
      var head := if s[0] == OPERATOR then [OPERATOR, OPERATOR] else [s[0]];
      var tail := Escape(s[1..]);
      var e := head + tail;
      assert Next(e, 0) == |head|;
      AtToken(e, 0, mapping);
      ExpandedShift(e, |head|, tail, 0, mapping);
      ExpandEscape(s[1..], mapping);
      assert s == [s[0]] + s[1..];
    }
  }

  /** The expansion, from position `i`, in which no name is known. */
  function Unmapped(s: Text, i: nat): Text
    requires i <= |s|
  {
    Expanded(s, i, MappingFor([]))
  }

  /** A text that refers to unknown names only is expanded as if no name were known. */
  lemma {:induction false} UnknownNames(s: Text, i: nat, envs: seq<EnvVar>)
    requires i <= |s| && forall n | n in Asked(s, i) :: LastValue(envs, n).None?
    ensures Expanded(s, i, StaticValue(envs)) == Unmapped(s, i)
    decreases |s| - i
  {
    if i < |s| {
      AtToken(s, i, StaticValue(envs));
      AtToken(s, i, MappingFor([]));
      assert TokenAt(s, i).Ref? ==> TokenAt(s, i).name in Asked(s, i);
      UnknownNames(s, Next(s, i), envs);
    }
  }

  /** A token that such an expansion writes differently from how it was read. */
  predicate Alters(t: Token) {
    t.Escaped? || (t.Other? && t.b >= 128)
  }

  /** The scan from `i` on meets no such token. */
  predicate NoneAlters(s: Text, i: nat)
    requires i <= |s|
    decreases |s| - i
  {
    i < |s| ==> !Alters(TokenAt(s, i)) && NoneAlters(s, Next(s, i))
  }

  lemma UnmappedStep(s: Text, i: nat)
    requires i < |s|
    ensures Unmapped(s, i) == Written(TokenAt(s, i), MappingFor([])) + Unmapped(s, Next(s, i))
    ensures s[i..] == Raw(TokenAt(s, i)) + s[Next(s, i)..]
    ensures !Alters(TokenAt(s, i)) ==> Written(TokenAt(s, i), MappingFor([])) == Raw(TokenAt(s, i))
  {
    AtToken(s, i, MappingFor([]));
    TokenRaw(s, i);
  }

  function Operators(k: nat): (r: Text)
    ensures |r| == k && forall i | 0 <= i < k :: r[i] == OPERATOR
  {
    seq(k, i => OPERATOR)
  }

  /** How an expansion without names begins, at an operator. */
  lemma SecondByte(s: Text, i: nat)
    requires i + 1 < |s| && s[i] == OPERATOR && !TokenAt(s, i).Escaped?
    ensures |Unmapped(s, i)| > 1 && Unmapped(s, i)[1] != OPERATOR
  {
    UnmappedStep(s, i);
    var w := Written(TokenAt(s, i), MappingFor([]));
    assert |w| > 1 && w[1] != OPERATOR;
  }

  lemma MoreOperators(r: Text, k: nat)
    ensures Operators(k) + ([OPERATOR, OPERATOR] + r) == [OPERATOR] + (Operators(k + 1) + r)
  {
  }

  lemma TailsDiffer(b: Byte, x: Text, y: Text)
    requires x != y
    ensures [b] + x != [b] + y
  {
    assert ([b] + x)[1..] == x && ([b] + y)[1..] == y;
  }

  lemma AddedDiffers(x: Text, y: Text, z: Text)
    requires y != z
    ensures x + y != x + z
  {
    assert (x + y)[|x|..] == y && (x + z)[|x|..] == z;
  }

  /** An escaped operator leaves one operator more to make up for. */
  lemma EscapedDiffers(s: Text, i: nat, k: nat)
    requires i < |s| && TokenAt(s, i).Escaped?
    requires Unmapped(s, i + 2) != Operators(k + 1) + s[i + 2..]
    ensures Unmapped(s, i) != Operators(k) + s[i..]
  {
    UnmappedStep(s, i);
    MoreOperators(s[i + 2..], k);
    TailsDiffer(OPERATOR, Unmapped(s, i + 2), Operators(k + 1) + s[i + 2..]);
  }

  /** Dropped operators cannot be made up for later. */
  lemma {:induction false} NoExtraOperators(s: Text, i: nat, k: nat)
    requires i <= |s| && k >= 1
    ensures Unmapped(s, i) != Operators(k) + s[i..]
    decreases |s| - i
  {
    if i == |s| {
      assert |Unmapped(s, i)| == 0;
    } else if TokenAt(s, i).Escaped? {
      NoExtraOperators(s, i + 2, k + 1);
      EscapedDiffers(s, i, k);
    } else if s[i] == OPERATOR && i + 1 < |s| {
      SecondByte(s, i);
      assert (Operators(k) + s[i..])[1] == OPERATOR;
    } else {
      UnmappedStep(s, i);
      assert Unmapped(s, i)[0] == s[i];
      assert (Operators(k) + s[i..])[0] == OPERATOR;
      assert s[i] == OPERATOR ==> |Unmapped(s, i)| == 1 && |Operators(k) + s[i..]| > 1;
    }
  }

  /** Nor can an added continuation byte be absorbed. */
  lemma {:induction false} NoExtraContinuation(s: Text, i: nat, b: Byte)
    requires i <= |s| && b >= 128
    ensures s[i..] != [b] + Unmapped(s, i)
    decreases |s| - i
  {
    if i < |s| {
      if s[i] == b {
        UnmappedStep(s, i);
        NoExtraContinuation(s, i + 1, b);
        assert s[i..] == [b] + s[i + 1..];
        TailsDiffer(b, s[i + 1..], Unmapped(s, i));
      } else {
        assert s[i..][0] == s[i];
      }
    }
  }

  lemma AlteredByte(s: Text, i: nat, b: Byte)
    requires i <= |s| && b >= 128
    ensures [OPERATOR] + Utf8(b) + Unmapped(s, i) != [OPERATOR, b] + s[i..]
  {
    var x, y := if b < 192 then 194 else 195, if b < 192 then b else b - 64;
    var l, r := [OPERATOR] + Utf8(b) + Unmapped(s, i), [OPERATOR, b] + s[i..];
    assert l[1] == x && r[1] == b;
    NoExtraContinuation(s, i, y);
    assert l[2..] == [y] + Unmapped(s, i) && r[2..] == s[i..];
  }

  /** With no name known, expansion is the identity exactly on the texts in which the scan meets neither
      an escaped operator nor an operator followed by a byte beyond ASCII. */
  lemma {:induction false} IdentityExactly(s: Text, i: nat)
    requires i <= |s|
    ensures Unmapped(s, i) == s[i..] <==> NoneAlters(s, i)
    decreases |s| - i
  {
    if i < |s| {
      var t, n := TokenAt(s, i), Next(s, i);
      UnmappedStep(s, i);
      IdentityExactly(s, n);
      if !Alters(t) {
        if Unmapped(s, n) != s[n..] {
          AddedDiffers(Raw(t), Unmapped(s, n), s[n..]);
        }
      } else if t.Escaped? {
        NoExtraOperators(s, n, 1);
        EscapedDiffers(s, i, 0);
        assert Operators(0) + s[i..] == s[i..];
      } else {
        AlteredByte(s, n, t.b);
      }
    }
  }

  /** In particular it is the identity on ASCII texts without two operators in a row. */
  lemma {:induction false} IdentityOnPlain(s: Text, i: nat)
    requires i <= |s|
    requires forall j | 0 <= j < |s| :: s[j] < 128
    requires forall j | 0 <= j < |s| - 1 :: !(s[j] == OPERATOR && s[j + 1] == OPERATOR)
    ensures Unmapped(s, i) == s[i..]
    decreases |s| - i
  {
    if i < |s| {
      UnmappedStep(s, i);
      IdentityOnPlain(s, Next(s, i));
    }
  }
}
