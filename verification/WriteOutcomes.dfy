/** Which payloads a settled volume lets be written, when no call fails of itself. */
module WriteOutcomes {
  import opened Wrappers
  import opened VolumeTree
  import opened AtomicWriter

  // ---------------------------------------------------------------- the order of the comparison

  lemma {:induction false} ComparedWell(order: seq<Path>, payload: Payload, files: Files)
    requires forall p | p in order :: p in payload && !FileCompared(files, p, payload[p]).CannotRead?
    ensures !Compared(order, payload, files).CannotRead?
  {
    if order != [] {
      assert order[0] in order;
      ComparedWell(order[1..], payload, files);
    }
  }

  lemma {:induction false} ComparedIll(order: seq<Path>, payload: Payload, files: Files, bad: Path)
    requires forall p | p in order :: p in payload && !FileCompared(files, p, payload[p]).Differs?
    requires bad in order && FileCompared(files, bad, payload[bad]).CannotRead?
    ensures Compared(order, payload, files).CannotRead?
  {
    assert order[0] in order;
    if FileCompared(files, order[0], payload[order[0]]).Same? {
      ComparedIll(order[1..], payload, files, bad);
    }
  }

  /** Some order that begins with a given key. */
  ghost function Beginning(payload: Payload, p: Path): (order: seq<Path>)
    requires p in payload
    ensures Enumerates(order, payload) && order != [] && order[0] == p
  {
    var rest := AnyOrder(payload.Keys - {p});
    DistinctConcat([p], rest);
    [p] + rest
  }

  ghost predicate AlwaysComparable(files: Files, payload: Payload) {
    forall order | Enumerates(order, payload) :: !Compared(order, payload, files).CannotRead?
  }

  ghost predicate NeverComparable(files: Files, payload: Payload) {
    forall order | Enumerates(order, payload) :: Compared(order, payload, files).CannotRead?
  }

  lemma AlwaysComparableExactly(files: Files, payload: Payload)
    ensures AlwaysComparable(files, payload) <==>
              forall p | p in payload :: !FileCompared(files, p, payload[p]).CannotRead?
  {
    if AlwaysComparable(files, payload) {
      forall p | p in payload ensures !FileCompared(files, p, payload[p]).CannotRead? {
        var order := Beginning(payload, p);
        assert !Compared(order, payload, files).CannotRead?;
      }
    } else {
      var order :| Enumerates(order, payload) && Compared(order, payload, files).CannotRead?;
      if forall p | p in payload :: !FileCompared(files, p, payload[p]).CannotRead? {
        ComparedWell(order, payload, files);
      }
    }
  }

  lemma NeverComparableExactly(files: Files, payload: Payload)
    ensures NeverComparable(files, payload) <==>
              && (exists p :: p in payload && FileCompared(files, p, payload[p]).CannotRead?)
              && forall p | p in payload :: !FileCompared(files, p, payload[p]).Differs?
  {
    if NeverComparable(files, payload) {
      forall p | p in payload ensures !FileCompared(files, p, payload[p]).Differs? {
        var order := Beginning(payload, p);
        assert Compared(order, payload, files).CannotRead?;
      }
      var order := AnyOrder(payload.Keys);
      assert Compared(order, payload, files).CannotRead?;
      if forall p | p in payload :: !FileCompared(files, p, payload[p]).CannotRead? {
        ComparedWell(order, payload, files);
      }
    } else if p :| p in payload && FileCompared(files, p, payload[p]).CannotRead? {
      var order :| Enumerates(order, payload) && !Compared(order, payload, files).CannotRead?;
      if forall p | p in payload :: !FileCompared(files, p, payload[p]).Differs? {
        ComparedIll(order, payload, files, p);
      }
    }
  }

  // ---------------------------------------------------------------- told by the payloads

  /** A file can be compared with a version: no file of it stands for a folder above, and no folder in its
      own place. */
  ghost predicate CanRead(previous: Payload, p: Path) {
    && p != ["."]
    && (forall i | 0 < i < |p| :: p[..i] !in previous)
    && (InClosure(previous, p) ==> p in previous)
  }

  ghost predicate Holds(previous: Payload, p: Path, data: Bytes) {
    p in previous && previous[p] == data
  }

  ghost predicate Fits(previous: Payload, payload: Payload) {
    forall p | p in payload :: CanRead(previous, p)
  }

  ghost predicate Clashes(previous: Payload, payload: Payload) {
    && (exists p :: p in payload && !CanRead(previous, p))
    && forall p | p in payload :: CanRead(previous, p) ==> Holds(previous, p, payload[p])
  }

  /** In particular a payload whose every key lies beneath a file of the previous one, as {a/b} after {a},
      clashes with it: it is never written, however often it is tried. */
  lemma BeneathClashes(previous: Payload, payload: Payload)
    requires payload != map[] && forall p | p in payload :: exists i | 0 < i < |p| :: p[..i] in previous
    ensures Clashes(previous, payload)
  {
    var p :| p in payload;
    assert !CanRead(previous, p);
  }

  /** The payload can be laid out in a fresh directory. */
  predicate LayoutFits(payload: Payload) {
    PrefixFree(payload) && ["."] !in payload
  }

  lemma FileComparedExactly(files: Files, previous: Payload, p: Path, data: Bytes)
    requires LaidOut(files, previous)
    ensures FileCompared(files, p, data).CannotRead? <==> !CanRead(previous, p)
    ensures CanRead(previous, p) ==> (FileCompared(files, p, data).Differs? <==> !Holds(previous, p, data))
  {
    assert ThroughFile(files, p) <==> exists i | 0 < i < |p| :: p[..i] in previous by {
      forall i | 0 < i < |p| ensures p[..i] in files && files[p[..i]].File? <==> p[..i] in previous {
      }
    }
    assert p in files <==> InClosure(previous, p);
  }

  lemma OwnNamesThere(t: Tree, current: Option<Payload>)
    requires Settled(t, current)
    ensures DATA_TMP !in t
  {
    assert OwnName(DATA_TMP);
    if current.Some? {
      ReservedNamesDiffer(CurrentDir(t).value);
    }
  }

  /** On a settled volume everything else than the comparison is decided by the payloads. */
  lemma SucceedsSettled(t: Tree, current: Option<Payload>, payload: Payload, order: seq<Path>, ts: Name)
    requires Settled(t, current) && SafeKeys(payload) && TimestampName(ts) && Enumerates(order, payload)
    ensures Succeeds(t, payload, order, ts) <==>
              Comparable(t, payload, order) && (current == Some(payload) || LayoutFits(payload))
  {
    OwnNamesThere(t, current);
    SkippedExactly(t, current, payload, {});
    if current.Some? {
      UpToDateExactly(t, current.value, payload);
    }
    forall n | IsStale(t, payload, n) ensures n != ts && n in t && !Solid(t, n) {
      StaleName(t, current, payload, n);
    }
  }

  /** Whatever order the comparison takes, a payload is written, exactly if its files can be compared with
      those that are there, and none of them is a folder of another; or it is there already. */
  lemma AlwaysSucceedsExactly(t: Tree, current: Option<Payload>, payload: Payload, ts: Name)
    requires Settled(t, current) && SafeKeys(payload) && TimestampName(ts)
    ensures (forall order | Enumerates(order, payload) :: Succeeds(t, payload, order, ts)) <==>
              (current.Some? ==> Fits(current.value, payload)) && (current == Some(payload) || LayoutFits(payload))
  {
    forall order | Enumerates(order, payload)
      ensures Succeeds(t, payload, order, ts) <==>
                Comparable(t, payload, order) && (current == Some(payload) || LayoutFits(payload))
    {
      SucceedsSettled(t, current, payload, order, ts);
    }
    assert Enumerates(AnyOrder(payload.Keys), payload);
    if current.Some? {
      FitsExactly(t, current.value, payload);
    } else {
      FreshUnlinked(t);
    }
  }

  /** Whatever the order, it is not written, exactly if it cannot be laid out, or some file cannot be
      compared and those that can are there with the same bytes. */
  lemma NeverSucceedsExactly(t: Tree, current: Option<Payload>, payload: Payload, ts: Name)
    requires Settled(t, current) && SafeKeys(payload) && TimestampName(ts)
    ensures (forall order | Enumerates(order, payload) :: !Succeeds(t, payload, order, ts)) <==>
              || (current.Some? && Clashes(current.value, payload))
              || !(current == Some(payload) || LayoutFits(payload))
  {
    forall order | Enumerates(order, payload)
      ensures Succeeds(t, payload, order, ts) <==>
                Comparable(t, payload, order) && (current == Some(payload) || LayoutFits(payload))
    {
      SucceedsSettled(t, current, payload, order, ts);
    }
    assert Enumerates(AnyOrder(payload.Keys), payload);
    if current.Some? {
      ClashesExactly(t, current.value, payload);
    } else {
      FreshUnlinked(t);
    }
  }

  lemma FitsExactly(t: Tree, current: Payload, payload: Payload)
    requires Settled(t, Some(current))
    ensures (forall order | Enumerates(order, payload) :: Comparable(t, payload, order)) <==> Fits(current, payload)
  {
    var files := CurrentFiles(t).value;
    AlwaysComparableExactly(files, payload);
    forall p | p in payload ensures FileCompared(files, p, payload[p]).CannotRead? <==> !CanRead(current, p) {
      FileComparedExactly(files, current, p, payload[p]);
    }
    assert AlwaysComparable(files, payload) <==>
           forall order | Enumerates(order, payload) :: Comparable(t, payload, order);
  }

  lemma ClashesExactly(t: Tree, current: Payload, payload: Payload)
    requires Settled(t, Some(current))
    ensures (forall order | Enumerates(order, payload) :: !Comparable(t, payload, order)) <==> Clashes(current, payload)
  {
    var files := CurrentFiles(t).value;
    NeverComparableExactly(files, payload);
    forall p | p in payload
      ensures FileCompared(files, p, payload[p]).CannotRead? <==> !CanRead(current, p)
      ensures FileCompared(files, p, payload[p]).Differs? <==> CanRead(current, p) && !Holds(current, p, payload[p])
    {
      FileComparedExactly(files, current, p, payload[p]);
    }
    assert NeverComparable(files, payload) <==>
           forall order | Enumerates(order, payload) :: !Comparable(t, payload, order);
  }
}
