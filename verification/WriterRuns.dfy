/** What whole sequences of writes, and writes after a crash, leave on a volume. */
module WriterRuns {
  import opened Wrappers
  import opened Strings
  import opened VolumeTree
  import opened PayloadPaths
  import opened AtomicWriter
  import opened WriteOutcomes

  /** The effect of one successful write that keeps the data link, as AtomicWriter.Write ensures it. */
  ghost predicate WriteEffect(before: Tree, payload: Payload, o: Oversight, after: Tree) {
    if LooksUpToDate(before, payload, o.unread) then after == before
    else exists ts :: Published(before, payload, ts, o, after)
  }

  ghost predicate Run(trees: seq<Tree>, payloads: seq<Payload>, os: seq<Oversight>) {
    && |trees| == |payloads| + 1 && |os| == |payloads|
    && (payloads != [] ==>
          var k := |payloads| - 1;
          && Run(trees[..k + 1], payloads[..k], os[..k])
          && SafeKeys(payloads[k]) && WriteEffect(trees[k], payloads[k], os[k], trees[k + 1]))
  }

  // ---------------------------------------------------------------- one write on a settled volume

  /** Nothing a successful write on a volume settled on `current` passed over leaves a trace: the payload
      was there already, or it was not overlooked that it is another one, no visible name is blocked by a
      foreign entry of `t`, every absent one got its link, and no stale one was missed. */
  ghost predicate WellWritten(t: Tree, current: Option<Payload>, payload: Payload, o: Oversight) {
    || current == Some(payload)
    || (&& !Overlooked(current, payload, o.unread) && Unblocked(t, payload)
        && o.unlinked == {} && NoneMissed(current, payload, o))
  }

  lemma SettledOnce(t: Tree, current: Option<Payload>, payload: Payload)
    requires Settled(t, current) && Settled(t, Some(payload))
    ensures current == Some(payload)
  {
    SettledSound(t, current);
    SettledSound(t, Some(payload));
  }

  /** A write that succeeds on a settled volume, whatever it holds, leaves it settled on its payload
      exactly when all went well, and unchanged exactly when the payload was there or was overlooked. */
  lemma WriteSettles(before: Tree, current: Option<Payload>, payload: Payload, o: Oversight, after: Tree)
    requires Settled(before, current) && SafeKeys(payload) && WriteEffect(before, payload, o, after)
    ensures Settled(after, Some(payload)) <==> WellWritten(before, current, payload, o)
    ensures after == before <==> current == Some(payload) || Overlooked(current, payload, o.unread)
  {
    SkippedExactly(before, current, payload, o.unread);
    if LooksUpToDate(before, payload, o.unread) {
      if Settled(before, Some(payload)) {
        SettledOnce(before, current, payload);
      }
    } else {
      var ts :| Published(before, payload, ts, o, after);
      PublishedSettles(before, current, payload, ts, o, after);
      assert ts in after && ts !in before;
    }
  }

  /** What a write that misses a stale name leaves: a link that dangles, and belongs to no version. */
  lemma MissedDangles(before: Tree, current: Payload, payload: Payload, o: Oversight, after: Tree, n: Name)
    requires Settled(before, Some(current)) && SafeKeys(payload) && WriteEffect(before, payload, o, after)
    requires !Overlooked(Some(current), payload, o.unread)
    requires [] in o.unread && n in Tops(current) && n !in Tops(payload)
    ensures n in after && after[n] == Link([DATA, n]) && Resolve(after, [n], MAX_HOPS) == None
    ensures Foreign(after, n)
  {
    SkippedExactly(before, Some(current), payload, o.unread);
    var ts :| Published(before, payload, ts, o, after);
    assert !OwnName(n) && EntryPublished(before, payload, o, after, n) by {
      ReservedOwn(before, Some(current), ts);
    }
    ClosureOfTop(payload, n);
    ThroughData(after, ts, [n]);
    assert CurrentFiles(after) == Some(after[ts].files);
  }

  /** A name that a foreign entry of the volume blocks. */
  predicate Blocks(t: Tree, n: Name) {
    n in t && t[n] != Link([DATA, n])
  }

  lemma BlocksKept(before: Tree, current: Option<Payload>, payload: Payload, o: Oversight, after: Tree, n: Name)
    requires Settled(before, current) && SafeKeys(payload) && WriteEffect(before, payload, o, after) && !OwnName(n)
    ensures Blocks(before, n) <==> Blocks(after, n)
  {
    if !LooksUpToDate(before, payload, o.unread) {
      var ts :| Published(before, payload, ts, o, after);
      ReservedOwn(before, current, ts);
      StaleName(before, current, payload, n);
      assert EntryPublished(before, payload, o, after, n);
    }
  }

  // ---------------------------------------------------------------- runs of successful writes

  function LastOf(payloads: seq<Payload>): Option<Payload> {
    if payloads == [] then None else Some(payloads[|payloads| - 1])
  }

  /** After each of the writes the volume was settled on its payload. */
  ghost predicate SettledThrough(trees: seq<Tree>, payloads: seq<Payload>)
    requires |trees| == |payloads| + 1
  {
    payloads != [] ==>
      var k := |payloads| - 1;
      SettledThrough(trees[..k + 1], payloads[..k]) && Settled(trees[k + 1], Some(payloads[k]))
  }

  /** Each of the writes went well. */
  ghost predicate WellThrough(t: Tree, payloads: seq<Payload>, os: seq<Oversight>)
    requires |os| == |payloads|
  {
    payloads != [] ==>
      var k := |payloads| - 1;
      WellThrough(t, payloads[..k], os[..k]) && WellWritten(t, LastOf(payloads[..k]), payloads[k], os[k])
  }

  /** The same names are blocked in both volumes. */
  ghost predicate SameBlocked(t: Tree, t': Tree) {
    forall m :: !OwnName(m) ==> (Blocks(t, m) <==> Blocks(t', m))
  }

  /** Over any sequence of successful writes to a fresh volume, each of them leaves its payload, its visible
      links and one timestamp directory, and nothing else of the writer's, if and only if each went well;
      and what blocks a name was there before the first write. */
  lemma {:induction false} RunSettles(trees: seq<Tree>, payloads: seq<Payload>, os: seq<Oversight>)
    requires Run(trees, payloads, os) && Settled(trees[0], None)
    ensures SettledThrough(trees, payloads) <==> WellThrough(trees[0], payloads, os)
    ensures SettledThrough(trees, payloads) ==>
              Settled(trees[|payloads|], LastOf(payloads)) && SameBlocked(trees[0], trees[|payloads|])
    decreases |payloads|
  {
    if payloads != [] {
      var k := |payloads| - 1;
      RunSettles(trees[..k + 1], payloads[..k], os[..k]);
      if SettledThrough(trees[..k + 1], payloads[..k]) {
        OneMoreSettles(trees[0], trees[k], LastOf(payloads[..k]), payloads[k], os[k], trees[k + 1]);
      }
    }
  }

  lemma OneMoreSettles(first: Tree, before: Tree, current: Option<Payload>, payload: Payload, o: Oversight, after: Tree)
    requires SafeKeys(payload) && WriteEffect(before, payload, o, after)
    requires Settled(before, current) && SameBlocked(first, before)
    ensures Settled(after, Some(payload)) <==> WellWritten(first, current, payload, o)
    ensures SameBlocked(first, after)
  {
    WriteSettles(before, current, payload, o, after);
    SameBlocks(first, before, payload);
    forall m | !OwnName(m) ensures Blocks(first, m) <==> Blocks(after, m) {
      BlocksKept(before, current, payload, o, after, m);
    }
  }

  lemma SameBlocks(t: Tree, t': Tree, payload: Payload)
    requires SafeKeys(payload) && SameBlocked(t, t')
    ensures Unblocked(t, payload) <==> Unblocked(t', payload)
  {
    forall m | m in Tops(payload) ensures !OwnName(m) && (Blocks(t, m) <==> Blocks(t', m)) {
    }
  }

  /** A reader who follows the visible names after such a run sees the last payload and nothing else. */
  lemma RunView(trees: seq<Tree>, payloads: seq<Payload>, os: seq<Oversight>, p: Path)
    requires Run(trees, payloads, os) && payloads != [] && Settled(trees[0], None)
    requires WellThrough(trees[0], payloads, os)
    requires |p| >= 1 && !OwnName(p[0])
    requires var t := trees[|payloads|]; p[0] in t ==> t[p[0]].Link? && DATA in t[p[0]].target
    ensures var last := payloads[|payloads| - 1];
            Resolve(trees[|payloads|], p, MAX_HOPS) == if p in last then Some(last[p]) else None
  {
    RunSettles(trees, payloads, os);
    SettledView(trees[|payloads|], payloads[|payloads| - 1], p);
  }

  // ---------------------------------------------------------------- writes that may fail

  /** A crash at or anywhere behind the switch.  The next write of the same payload finds its files in
      place and does nothing, so the whole payload is visible if and only if all its top-level names
      were linked before the crash; what was still to be pruned stays. */
  lemma RetryRepairsNothing(t: Tree, payload: Payload, ts: Name)
    requires Keyed(payload) && Serving(t, payload, ts) && Unblocked(t, payload)
    ensures forall o, after :: WriteEffect(t, payload, o, after) <==> after == t
    ensures (forall p :: p in payload ==> Resolve(t, p, MAX_HOPS) == Some(payload[p])) <==> Tops(payload) <= t.Keys
  {
    ServingShows(t, payload, ts);
    assert forall unread :: LooksUpToDate(t, payload, unread);
    forall p | p in payload ensures Resolve(t, p, MAX_HOPS) == Some(payload[p]) <==> p[0] in t {
      ReadThrough(t, payload, ts, p);
    }
    forall n | n in Tops(payload) ensures exists p :: p in payload && p[0] == n {
    }
  }

  /** A file of the payload that is served can be read just if its top-level name is there. */
  lemma ReadThrough(t: Tree, payload: Payload, ts: Name, p: Path)
    requires Keyed(payload) && Serving(t, payload, ts) && Unblocked(t, payload) && p in payload
    ensures Resolve(t, p, MAX_HOPS) == Some(payload[p]) <==> p[0] in t
  {
    assert p[0] in Tops(payload);
    if p[0] in t {
      ThroughData(t, ts, p);
    }
  }

  /** Whatever failed writes have left behind, a write that succeeds makes a file of its payload readable
      exactly if its visible name got its link. */
  lemma SuccessReads(before: Tree, payload: Payload, ts: Name, o: Oversight, after: Tree, p: Path)
    requires Sound(before) && SafeKeys(payload) && Unblocked(before, payload) && p in payload
    requires Published(before, payload, ts, o, after)
    ensures Resolve(after, p, MAX_HOPS) == if p[0] in o.unlinked then None else Some(payload[p])
  {
    var n := p[0];
    assert n in Tops(payload);
    ClosureOfTop(payload, n);
    assert EntryPublished(before, payload, o, after, n);
    if n !in o.unlinked {
      ThroughData(after, ts, p);
    }
  }

  /** The volume is sound, and the current version has none of the writer's own names at its top. */
  ghost predicate Harmless(t: Tree) {
    Sound(t) && (CurrentFiles(t).Some? ==> forall n :: OwnName(n) ==> [n] !in CurrentFiles(t).value)
  }

  lemma HarmlessKeepsLink(t: Tree, payload: Payload, ts: Name)
    requires Harmless(t)
    ensures TimestampName(ts) ==> forall o :: KeepsLink(t, payload, ts, o)
  {
  }

  lemma ServingHarmless(t: Tree, payload: Payload, ts: Name)
    requires SafeKeys(payload) && Serving(t, payload, ts)
    ensures Harmless(t)
  {
    ServingShows(t, payload, ts);
    forall n | OwnName(n) ensures [n] !in t[ts].files {
      ClosureOfTop(payload, n);
    }
  }

  lemma SettledHarmless(t: Tree, current: Option<Payload>)
    requires Settled(t, current)
    ensures Harmless(t)
  {
    SettledSound(t, current);
    if current.Some? {
      ServingHarmless(t, current.value, CurrentDir(t).value);
    }
  }

  /** No key that passes validation hides one of the writer's own names. */
  ghost predicate NothingHidden(raw: map<string, Bytes>) {
    forall k :: k in raw && ValidPath(k) ==> !OwnName(Clean(k)[0])
  }

  /** No valid key of any payload is cleaned to a path at or below this name. */
  ghost predicate NeverTop(raws: seq<map<string, Bytes>>, n: Name) {
    forall i, k | 0 <= i < |raws| :: k in raws[i] && ValidPath(k) ==> Clean(k)[0] != n
  }

  lemma NotATop(raw: map<string, Bytes>, clean: Payload, n: Name)
    requires IsCleaned(raw, clean) && forall k :: k in raw && ValidPath(k) ==> Clean(k)[0] != n
    ensures n !in Tops(clean)
  {
    forall p | p in clean && |p| >= 1 ensures p[0] != n {
      var k :| k in raw && Clean(k) == p && raw[k] == clean[p];
    }
  }

  /** Foreign entries whose names no payload uses stay. */
  ghost predicate KeepsForgotten(t: Tree, t': Tree, raws: seq<map<string, Bytes>>) {
    forall n :: Foreign(t, n) && NeverTop(raws, n) ==> Foreign(t', n) && t'[n] == t[n]
  }

  lemma ForgottenStays(t: Tree, t': Tree, raw: map<string, Bytes>, clean: Payload, ts: Name)
    requires KeepsForeign(t, t')
    requires CurrentFiles(t') == CurrentFiles(t) || (IsCleaned(raw, clean) && Serving(t', clean, ts))
    ensures KeepsForgotten(t, t', [raw])
  {
    forall n | Foreign(t, n) && NeverTop([raw], n) ensures Foreign(t', n) && t'[n] == t[n] {
      if CurrentFiles(t') != CurrentFiles(t) {
        NoTopOf(t', raw, clean, ts, n);
      }
    }
  }

  lemma NoTopOf(t: Tree, raw: map<string, Bytes>, clean: Payload, ts: Name, n: Name)
    requires IsCleaned(raw, clean) && Serving(t, clean, ts) && NeverTop([raw], n)
    ensures CurrentFiles(t).Some? && [n] !in CurrentFiles(t).value
  {
    assert forall k :: k in [raw][0] && ValidPath(k) ==> Clean(k)[0] != n;
    NotATop(raw, clean, n);
    ClosureOfTop(clean, n);
  }

  lemma ForgottenInTurn(t: Tree, mid: Tree, last: Tree, raws: seq<map<string, Bytes>>, i: nat)
    requires i < |raws| && KeepsForgotten(t, mid, raws) && KeepsForgotten(mid, last, [raws[i]])
    ensures KeepsForgotten(t, last, raws)
  {
    forall n | NeverTop(raws, n) ensures NeverTop([raws[i]], n) {
    }
  }

  /** What the states of a history show: the state at `i` the payload number `which[i]`, or what was shown
      at first if that is -1; and no state goes back to an earlier payload. */
  ghost predicate Story(h: seq<Tree>, from: nat, which: seq<int>, first: Option<Payload>, cleans: seq<Payload>) {
    && |h| == from + |which|
    && (forall i | 0 <= i < |which| :: -1 <= which[i] < |cleans|)
    && (forall i, j | 0 <= i <= j < |which| :: which[i] <= which[j])
    && forall i | 0 <= i < |which| :: ShowsOne(h[from + i], which[i], first, cleans)
  }

  ghost predicate ShowsOne(t: Tree, k: int, first: Option<Payload>, cleans: seq<Payload>)
    requires -1 <= k < |cleans|
  {
    Sound(t) && Projected(t) == if k < 0 then first else Some(cleans[k])
  }

  function Copies(n: nat, k: int): seq<int> {
    seq(n, _ => k)
  }

  lemma StoryGoesOn(h: seq<Tree>, h2: seq<Tree>, from: nat, which: seq<int>, first: Option<Payload>,
                    cleans: seq<Payload>, last: int, old_: nat, new_: nat, clean: Payload)
    requires Story(h, from, which, first, cleans) && h <= h2 && |h2| == |h| + old_ + new_
    requires -1 <= last < |cleans| && forall k | k in which :: k <= last
    requires forall i | |h| <= i < |h| + old_ :: ShowsOne(h2[i], last, first, cleans)
    requires forall i | |h| + old_ <= i < |h2| :: Sound(h2[i]) && Projected(h2[i]) == Some(clean)
    ensures Story(h2, from, which + Copies(old_, last) + Copies(new_, |cleans|), first, cleans + [clean])
  {
    var w := which + Copies(old_, last) + Copies(new_, |cleans|);
    assert forall i | 0 <= i < |which| :: which[i] in which;
    forall i | 0 <= i < |w| ensures ShowsOne(h2[from + i], w[i], first, cleans + [clean]) {
      if i < |which| {
        assert ShowsOne(h[from + i], which[i], first, cleans);
      }
    }
  }

  /** What the payloads named in `which` were validated from; none is later than `last`. */
  ghost predicate FromRaw(which: seq<int>, last: int, raws: seq<map<string, Bytes>>, cleans: seq<Payload>) {
    && |cleans| <= |raws| && -1 <= last < |cleans|
    && forall k | k in which :: k <= last && (k >= 0 ==> IsCleaned(raws[k], cleans[k]))
  }

  lemma FromRawGoesOn(which: seq<int>, last: int, raws: seq<map<string, Bytes>>, cleans: seq<Payload>,
                      old_: nat, new_: nat, clean: Payload)
    requires FromRaw(which + [last], last, raws, cleans) && |cleans| < |raws|
    requires new_ > 0 ==> IsCleaned(raws[|cleans|], clean)
    ensures var next := if new_ > 0 then |cleans| else last;
            FromRaw(which + Copies(old_, last) + Copies(new_, |cleans|) + [next], next, raws, cleans + [clean])
  {
    var next := if new_ > 0 then |cleans| else last;
    assert last in which + [last];
    forall k | k in which + Copies(old_, last) + Copies(new_, |cleans|) + [next]
      ensures k <= next && (k >= 0 ==> IsCleaned(raws[k], (cleans + [clean])[k]))
    {
      assert k in which + [last] || (k == |cleans| && new_ > 0);
    }
  }

  /** A single write as an observer sees it: for so many states what was there, for so many the payload. */
  method WriteObserved(v: Volume, raw: map<string, Bytes>)
      returns (ghost clean: Payload, ghost before: nat, ghost after: nat)
    requires v.Valid() && Harmless(v.tree) && NothingHidden(raw)
    modifies v
    ensures v.Valid() && Harmless(v.tree) && old(v.history) <= v.history
    ensures |v.history| == |old(v.history)| + before + after
    ensures Shows(v.history, |old(v.history)|, |old(v.history)| + before, Projected(old(v.tree)))
    ensures Shows(v.history, |old(v.history)| + before, |v.history|, Some(clean))
    ensures after > 0 ==> IsCleaned(raw, clean)
    ensures Projected(v.tree) == if after > 0 then Some(clean) else Projected(old(v.tree))
    ensures KeepsForgotten(old(v.tree), v.tree, [raw])
  {
    var status, ts;
    ghost var swap, order, o;
    ghost var was := v.tree;
    status, ts, clean, swap, order, o := Write(v, raw);
    before, after := swap - |old(v.history)|, |v.history| - swap;
    if after > 0 {
      HarmlessKeepsLink(was, clean, ts);
      assert SafeKeys(clean);
      ServingHarmless(v.tree, clean, ts);
      ServingShows(v.tree, clean, ts);
      forall i | swap <= i < |v.history| ensures Sound(v.history[i]) && Projected(v.history[i]) == Some(clean) {
        ServingShows(v.history[i], clean, ts);
      }
    }
    ForgottenStays(was, v.tree, raw, clean, ts);
  }

  /** Writes one after the other, whichever calls of them fail and whatever that leaves behind.  At every
      moment an observer sees what was there at first or one of the payloads, whole, and never an
      earlier one after a later one.  And no write, failed or not, ever removes an entry that is neither
      the writer's own nor a top-level name of the version that was there at first or of a payload: a stale
      link that one write has missed stays until its name is used again. */
  method WriteInTurn(v: Volume, raws: seq<map<string, Bytes>>)
      returns (ghost cleans: seq<Payload>, ghost which: seq<int>)
    requires v.Valid() && Harmless(v.tree) && forall i | 0 <= i < |raws| :: NothingHidden(raws[i])
    modifies v
    ensures v.Valid() && Harmless(v.tree) && |cleans| == |raws|
    ensures Story(v.history, |old(v.history)|, which, Projected(old(v.tree)), cleans)
    ensures forall k | k in which && k >= 0 :: IsCleaned(raws[k], cleans[k])
    ensures KeepsForgotten(old(v.tree), v.tree, raws)
  {
    cleans, which := [], [];
    var i := 0;
    ghost var last := -1;
    while i < |raws|
      invariant 0 <= i <= |raws| && |cleans| == i && v.Valid() && Harmless(v.tree)
      invariant Story(v.history, |old(v.history)|, which, Projected(old(v.tree)), cleans)
      invariant FromRaw(which + [last], last, raws, cleans)
      invariant ShowsOne(v.tree, last, Projected(old(v.tree)), cleans)
      invariant KeepsForgotten(old(v.tree), v.tree, raws)
    {
      ghost var h, first, was := v.history, Projected(old(v.tree)), v.tree;
      ghost var clean, from, to;
      clean, from, to := WriteObserved(v, raws[i]);
      ForgottenInTurn(old(v.tree), was, v.tree, raws, i);
      StoryGoesOn(h, v.history, |old(v.history)|, which, first, cleans, last, from, to, clean);
      FromRawGoesOn(which, last, raws, cleans, from, to, clean);
      which := which + Copies(from, last) + Copies(to, i);
      cleans := cleans + [clean];
      if to > 0 {
        last := i;
      }
      i := i + 1;
    }
  }

  // ---------------------------------------------------------------- successful writes in turn

  /** A single successful write on a harmless volume has the effect that runs are made of. */
  method WriteEffected(v: Volume, raw: map<string, Bytes>)
      returns (ok: bool, ghost clean: Payload, ghost o: Oversight)
    requires v.Valid() && Harmless(v.tree) && NothingHidden(raw)
    modifies v
    ensures v.Valid() && Harmless(v.tree)
    ensures ok ==> IsCleaned(raw, clean) && SafeKeys(clean) && WriteEffect(old(v.tree), clean, o, v.tree)
    ensures v.reliable ==> o == NOTHING_MISSED
  {
    var status, ts;
    ghost var swap, order;
    ghost var was := v.tree;
    status, ts, clean, swap, order, o := Write(v, raw);
    ok := status.Success?;
    if swap < |v.history| {
      HarmlessKeepsLink(was, clean, ts);
      assert SafeKeys(clean);
      ServingHarmless(v.tree, clean, ts);
    }
  }

  /** A run from `start` over the first of the raw payloads, in which a reliable volume missed nothing. */
  ghost predicate Recorded(start: Tree, raws: seq<map<string, Bytes>>, reliable: bool,
                           trees: seq<Tree>, cleans: seq<Payload>, os: seq<Oversight>) {
    && Run(trees, cleans, os) && trees[0] == start && AllCleaned(raws, cleans)
    && (reliable ==> forall k | 0 <= k < |os| :: os[k] == NOTHING_MISSED)
  }

  ghost predicate AllCleaned(raws: seq<map<string, Bytes>>, cleans: seq<Payload>) {
    |cleans| <= |raws| && forall k | 0 <= k < |cleans| :: IsCleaned(raws[k], cleans[k])
  }

  lemma AllCleanedGrows(raws: seq<map<string, Bytes>>, cleans: seq<Payload>, clean: Payload)
    requires AllCleaned(raws, cleans) && |cleans| < |raws| && IsCleaned(raws[|cleans|], clean)
    ensures AllCleaned(raws, cleans + [clean])
  {
    forall k | 0 <= k < |cleans + [clean]| ensures IsCleaned(raws[k], (cleans + [clean])[k]) {
      if k == |cleans| {
        assert (cleans + [clean])[k] == clean;
      } else {
        assert (cleans + [clean])[k] == cleans[k];
      }
    }
  }

  lemma RecordGrows(start: Tree, raws: seq<map<string, Bytes>>, reliable: bool,
                    trees: seq<Tree>, cleans: seq<Payload>, os: seq<Oversight>, clean: Payload, o: Oversight, t: Tree)
    requires Recorded(start, raws, reliable, trees, cleans, os) && |cleans| < |raws|
    requires IsCleaned(raws[|cleans|], clean) && SafeKeys(clean) && WriteEffect(trees[|cleans|], clean, o, t)
    requires reliable ==> o == NOTHING_MISSED
    ensures Recorded(start, raws, reliable, trees + [t], cleans + [clean], os + [o])
  {
    RunGrows(trees, cleans, os, clean, o, t);
    AllCleanedGrows(raws, cleans, clean);
  }

  /** Writes in turn, until one fails.  What the successful ones leave is a run. */
  method WriteAll(v: Volume, raws: seq<map<string, Bytes>>)
      returns (ok: bool, ghost trees: seq<Tree>, ghost cleans: seq<Payload>, ghost os: seq<Oversight>)
    requires v.Valid() && Harmless(v.tree) && forall i | 0 <= i < |raws| :: NothingHidden(raws[i])
    modifies v
    ensures v.Valid() && Harmless(v.tree) && Recorded(old(v.tree), raws, v.reliable, trees, cleans, os)
    ensures ok ==> |cleans| == |raws| && v.tree == trees[|cleans|]
  {
    ok, trees, cleans, os := true, [v.tree], [], [];
    var i := 0;
    while i < |raws| && ok
      invariant i == |cleans| <= |raws| && v.Valid() && Harmless(v.tree)
      invariant Recorded(old(v.tree), raws, v.reliable, trees, cleans, os) && (ok ==> v.tree == trees[i])
      decreases |raws| - i, ok
    {
      ghost var clean, o;
      ok, clean, o := WriteEffected(v, raws[i]);
      if ok {
        RecordGrows(old(v.tree), raws, v.reliable, trees, cleans, os, clean, o, v.tree);
        trees, cleans, os := trees + [v.tree], cleans + [clean], os + [o];
        i := i + 1;
      }
    }
  }

  lemma RunGrows(trees: seq<Tree>, payloads: seq<Payload>, os: seq<Oversight>, payload: Payload, o: Oversight, t: Tree)
    requires Run(trees, payloads, os) && SafeKeys(payload) && WriteEffect(trees[|payloads|], payload, o, t)
    ensures Run(trees + [t], payloads + [payload], os + [o])
  {
    var k := |payloads|;
    assert (trees + [t])[..k + 1] == trees && (payloads + [payload])[..k] == payloads && (os + [o])[..k] == os;
  }

  /** All writes on a fresh volume that go through leave it settled on the last payload, unless a foreign
      entry of that fresh volume blocks a name, or a call fails without being reported. */
  method WriteAllSettles(v: Volume, raws: seq<map<string, Bytes>>)
      returns (ok: bool, ghost cleans: seq<Payload>, ghost os: seq<Oversight>)
    requires v.Valid() && Settled(v.tree, None) && raws != []
    requires forall i | 0 <= i < |raws| :: NothingHidden(raws[i])
    modifies v
    ensures v.Valid() && Harmless(v.tree)
    ensures ok ==> |cleans| == |os| == |raws| && forall i | 0 <= i < |raws| :: IsCleaned(raws[i], cleans[i])
    ensures ok && WellThrough(old(v.tree), cleans, os) ==> Settled(v.tree, Some(cleans[|raws| - 1]))
    ensures ok && v.reliable && (forall i | 0 <= i < |raws| :: Unblocked(old(v.tree), cleans[i])) ==>
              Settled(v.tree, Some(cleans[|raws| - 1]))
  {
    ghost var trees;
    SettledHarmless(v.tree, None);
    ok, trees, cleans, os := WriteAll(v, raws);
    if ok {
      RunSettles(trees, cleans, os);
      if v.reliable && forall i | 0 <= i < |raws| :: Unblocked(trees[0], cleans[i]) {
        NothingMissed(trees, cleans, os);
      }
    }
  }

  /** When nothing is missed, only blocked names matter. */
  lemma {:induction false} NothingMissed(trees: seq<Tree>, payloads: seq<Payload>, os: seq<Oversight>)
    requires Run(trees, payloads, os) && Settled(trees[0], None)
    requires forall i | 0 <= i < |payloads| :: Unblocked(trees[0], payloads[i]) && os[i] == NOTHING_MISSED
    ensures WellThrough(trees[0], payloads, os)
    decreases |payloads|
  {
    if payloads != [] {
      var k := |payloads| - 1;
      NothingMissed(trees[..k + 1], payloads[..k], os[..k]);
      RunSettles(trees[..k + 1], payloads[..k], os[..k]);
      NothingOverlooked(trees[k], LastOf(payloads[..k]), payloads[k]);
    }
  }

  lemma NothingOverlooked(t: Tree, current: Option<Payload>, payload: Payload)
    requires Settled(t, current) && SafeKeys(payload)
    ensures !Overlooked(current, payload, {})
  {
    SkippedExactly(t, current, payload, {});
    if current.Some? {
      UpToDateExactly(t, current.value, payload);
    }
  }

  // ---------------------------------------------------------------- hidden keys

  /** What endangers the link, told by the payloads: the previous one had a key at the top that is called
      like the data link, and the new one has none; or the new one is empty, and the previous one had a
      key that is called like the new version.  Only a version that could not be listed spares it. */
  lemma LinkKeptExactly(before: Tree, previous: Payload, at: Name, payload: Payload, ts: Name, o: Oversight)
    requires Keyed(previous) && Serving(before, previous, at)
    ensures KeepsLink(before, payload, ts, o) <==>
              || [] in o.unread
              || (&& (DATA in Tops(previous) ==> DATA in Tops(payload))
                  && (payload == map[] ==> ts !in Tops(previous)))
  {
    ServingShows(before, previous, at);
    ClosureOfTop(previous, DATA);
    ClosureOfTop(payload, DATA);
    ClosureOfTop(previous, ts);
    ClosureOfTop(payload, ts);
  }

  const HIDDEN := "./..data"

  lemma OnlyKey(raw: map<string, Bytes>, key: string, data: Bytes, clean: Payload)
    requires raw == map[key := data] && IsCleaned(raw, clean)
    ensures clean == map[Clean(key) := data]
  {
    assert key in raw && Clean(key) in clean;
    forall p | p in clean ensures p == Clean(key) && clean[p] == data {
      FromKey(raw, key, data, clean, p);
    }
  }

  lemma FromKey(raw: map<string, Bytes>, key: string, data: Bytes, clean: Payload, p: Path)
    requires raw == map[key := data] && IsCleaned(raw, clean) && p in clean
    ensures p == Clean(key) && clean[p] == data
  {
    var k :| k in raw && Clean(k) == p && raw[k] == clean[p];
    assert k == key;
  }

  /** The hidden key can be published on a fresh volume. */
  lemma HiddenWritable(t: Tree, data: Bytes, order: seq<Path>, ts: Name)
    requires Settled(t, None) && Enumerates(order, map[[DATA] := data])
    ensures Succeeds(t, map[[DATA] := data], order, ts) && !UpToDate(t, map[[DATA] := data])
    ensures KeepsLink(t, map[[DATA] := data], ts, NOTHING_MISSED)
  {
    FreshUnlinked(t);
    OwnNamesThere(t, None);
    assert DATA != ".";
  }

  /** The volume holds one version, and that holds the hidden key alone. */
  ghost predicate OnlyHidden(t: Tree, data: Bytes, ts: Name) {
    && CurrentDir(t) == Some(ts) && ts in t && t[ts].Directory?
    && t[ts].files.Keys == {[DATA]} && t[ts].files[[DATA]] == File(data)
    && DATA in t && t[DATA].Link? && DATA_TMP !in t
  }

  lemma HiddenPublished(before: Tree, data: Bytes, ts: Name, t: Tree)
    requires Settled(before, None) && Published(before, map[[DATA] := data], ts, NOTHING_MISSED, t)
    ensures OnlyHidden(t, data, ts) && Sound(t)
  {
    var payload: Payload := map[[DATA] := data];
    ServingShows(t, payload, ts);
    OneFile(t, ts, DATA, data);
    ReservedNamesDiffer(ts);
    assert EntryPublished(before, payload, NOTHING_MISSED, t, DATA_TMP) && OwnName(DATA_TMP);
    assert [DATA] in payload;
  }

  lemma HiddenStale(t: Tree, data: Bytes, ts: Name, key: Name, other: Bytes, n: Name)
    requires OnlyHidden(t, data, ts) && key != DATA
    ensures IsStale(t, map[[key] := other], n) <==> n == DATA
  {
    ClosureOfTop(map[[key] := other], n);
  }

  /** Once the hidden key is published, any other key can be, and takes the data link away. */
  lemma LinkEndangered(t: Tree, data: Bytes, at: Name, key: Name, other: Bytes, order: seq<Path>, ts: Name)
    requires OnlyHidden(t, data, at) && key != DATA && key != "." && ts != DATA
    requires Enumerates(order, map[[key] := other])
    ensures Succeeds(t, map[[key] := other], order, ts) && !UpToDate(t, map[[key] := other])
    ensures !KeepsLink(t, map[[key] := other], ts, NOTHING_MISSED)
  {
    var payload: Payload := map[[key] := other];
    forall n ensures IsStale(t, payload, n) <==> n == DATA {
      HiddenStale(t, data, at, key, other, n);
    }
    assert [key] in payload && [key] !in t[at].files;
    ComparedWell(order, payload, t[at].files);
    assert StaleRemovable(t, payload, ts) && Placeable(t, payload);
  }

  lemma OneFile(t: Tree, ts: Name, n: Name, data: Bytes)
    requires ts in t && t[ts].Directory? && LaidOut(t[ts].files, map[[n] := data])
    ensures t[ts].files.Keys == {[n]}
  {
    var payload: Payload := map[[n] := data];
    assert [n] in payload;
    forall q | q in t[ts].files ensures q == [n] {
      var p :| p in payload && q <= p;
      assert p == [n] && |q| == 1;
    }
  }

  /** On a volume that was settled, and with no call failing, two writes of valid payloads leave an observer
      with nothing to see: the first publishes the hidden key, the second prunes the data link. */
  method LoseTheView(v: Volume, data: Bytes, other: Bytes) returns (first: Status, second: Status)
    requires v.Valid() && v.reliable && Settled(v.tree, None)
    modifies v
    ensures ValidPath(HIDDEN) && ValidPath("a")
    ensures first == Success && second == Success && Projected(v.tree) == None
  {
    HiddenReservedKey();
    PlainKey();
    SettledSound(v.tree, None);
    ghost var start := v.tree;
    var ts;
    ghost var clean, swap, order, o;
    first, ts, clean, swap, order, o := Write(v, map[HIDDEN := data]);
    OnlyKey(map[HIDDEN := data], HIDDEN, data, clean);
    HiddenWritable(start, data, order, ts);
    HiddenPublished(start, data, ts, v.tree);
    ghost var at, hidden := ts, v.tree;
    second, ts, clean, swap, order, o := Write(v, map["a" := other]);
    OnlyKey(map["a" := other], "a", other, clean);
    ReservedNamesDiffer(at);
    LinkEndangered(hidden, data, at, "a", other, order, ts);
  }

  lemma PlainKey()
    ensures ValidPath("a") && Clean("a") == ["a"]
  {
    SplitWhole("a", '/');
    assert ["a"][1..] == [];
  }
}
