/** The list of pod conditions and the one way it is changed. */
module Conditions {
  import opened Wrappers

  type Time = int

  /** The zero value of a timestamp, which means "not set". */
  const NO_TIME: Time := 0

  datatype Kind = Initialized | ContainersReady | PodReady | OtherKind(name: string)
  datatype Condition = Condition(kind: Kind, status: bool, lastTransition: Time, reason: Reason)

  /** The reasons given for phases and conditions. */
  datatype Reason =
    | NoReason
    | ReasonInitialized | ReasonContainersReady | ReasonPodReady | ReasonContainersUnready | ReasonPodUnready
    | ContainerCreating | ContainerFailed | Completed | RunningReason | InQueue | PodFailure
    | UnsupportedFeatures | InitializationError | SysErr
    | OtherReason(text: string)

  /** The position of the first condition of the given kind, or the length if there is none. */
  function IndexOf(cs: seq<Condition>, kind: Kind): (i: nat)
    ensures i <= |cs|
    ensures i < |cs| ==> cs[i].kind == kind
    ensures forall j | 0 <= j < i :: cs[j].kind != kind
  {
    if cs == [] || cs[0].kind == kind then 0 else 1 + IndexOf(cs[1..], kind)
  }

  function Lookup(cs: seq<Condition>, kind: Kind): Option<Condition> {
    var i := IndexOf(cs, kind);
    if i < |cs| then Some(cs[i]) else None
  }

  predicate HasStatus(cs: seq<Condition>, kind: Kind, status: bool) {
    Lookup(cs, kind).Some? && Lookup(cs, kind).value.status == status
  }

  ghost predicate UniqueKinds(cs: seq<Condition>) {
    forall i, j | 0 <= i < j < |cs| :: cs[i].kind != cs[j].kind
  }

  /** The condition that stands in place of `old_` once `c` is set. */
  function Merged(old_: Option<Condition>, c: Condition, now: Time): Condition {
    var stamp := if c.lastTransition == NO_TIME then now else c.lastTransition;
    if old_.Some? && old_.value.status == c.status then old_.value.(reason := c.reason)
    else c.(lastTransition := stamp)
  }

  function SetCondition(cs: seq<Condition>, c: Condition, now: Time): seq<Condition> {
    var i := IndexOf(cs, c.kind);
    if i < |cs| then cs[i := Merged(Some(cs[i]), c, now)] else cs + [Merged(None, c, now)]
  }

  class ConditionList {
    var items: seq<Condition>

    constructor (items: seq<Condition>)
      ensures this.items == items
    {
      this.items := items;
    }

    method FindStatusCondition(kind: Kind) returns (i: nat)
      ensures i == IndexOf(items, kind)
    {
      i := 0;
      while i < |items|
        invariant 0 <= i <= |items|
        invariant forall j | 0 <= j < i :: items[j].kind != kind
      {
        if items[i].kind == kind {
          return;
        }
        i := i + 1;
      }
    }

    method SetPodStatusCondition(c: Condition, now: Time)
      modifies this
      ensures items == SetCondition(old(items), c, now)
    {
      var i := FindStatusCondition(c.kind);
      if i == |items| {
        var added := c;
        if added.lastTransition == NO_TIME {
          added := added.(lastTransition := now);
        }
        items := items + [added];
        return;
      }
      if items[i].status != c.status {
        items := items[i := items[i].(status := c.status)];
        if c.lastTransition != NO_TIME {
          items := items[i := items[i].(lastTransition := c.lastTransition)];
        } else {
          items := items[i := items[i].(lastTransition := now)];
        }
      }
      items := items[i := items[i].(reason := c.reason)];
    }
  }

  /** The first match is the only possible one. */
  lemma IndexUnique(cs: seq<Condition>, kind: Kind, i: nat)
    requires i < |cs| && cs[i].kind == kind && forall j | 0 <= j < i :: cs[j].kind != kind
    ensures IndexOf(cs, kind) == i
  {
  }

  /** What setting a condition does to the list, position by position. */
  lemma SetAt(cs: seq<Condition>, c: Condition, now: Time)
    ensures var i, after := IndexOf(cs, c.kind), SetCondition(cs, c, now);
            && |after| == (if i < |cs| then |cs| else |cs| + 1)
            && after[i] == Merged(if i < |cs| then Some(cs[i]) else None, c, now) && after[i].kind == c.kind
            && forall j | 0 <= j < |cs| && j != i :: after[j] == cs[j]
  {
  }

  lemma SetUnique(cs: seq<Condition>, c: Condition, now: Time)
    requires UniqueKinds(cs)
    ensures UniqueKinds(SetCondition(cs, c, now))
  {
    SetAt(cs, c, now);
    var after, k := SetCondition(cs, c, now), IndexOf(cs, c.kind);
    forall i, j | 0 <= i < j < |after| ensures after[i].kind != after[j].kind {
      if i != k && j != k {
        assert after[i] == cs[i] && after[j] == cs[j];
      }
    }
  }

  /** Setting a condition shows it under its kind, touches no other kind, and keeps kinds unique. */
  lemma SetLookup(cs: seq<Condition>, c: Condition, now: Time, kind: Kind)
    requires UniqueKinds(cs)
    ensures UniqueKinds(SetCondition(cs, c, now))
    ensures Lookup(SetCondition(cs, c, now), kind) ==
            if kind == c.kind then Some(Merged(Lookup(cs, kind), c, now)) else Lookup(cs, kind)
  {
    SetUnique(cs, c, now);
    SetFound(cs, c, now, kind);
  }

  lemma SetFound(cs: seq<Condition>, c: Condition, now: Time, kind: Kind)
    requires UniqueKinds(cs)
    ensures Lookup(SetCondition(cs, c, now), kind) ==
            if kind == c.kind then Some(Merged(Lookup(cs, kind), c, now)) else Lookup(cs, kind)
  {
    SetAt(cs, c, now);
    var after := SetCondition(cs, c, now);
    var k := if kind == c.kind then IndexOf(cs, c.kind) else IndexOf(cs, kind);
    if k < |after| && after[k].kind == kind {
      IndexUnique(after, kind, k);
    }
  }

  /** A condition that is set shows the status and the reason given; its transition time stays if it was
      there with that status, and otherwise is the one given, or now if none is. */
  lemma SetExactly(cs: seq<Condition>, c: Condition, now: Time)
    ensures var was, after := Lookup(cs, c.kind), Lookup(SetCondition(cs, c, now), c.kind);
            && after.Some? && after.value.kind == c.kind
            && after.value.status == c.status && after.value.reason == c.reason
            && after.value.lastTransition == (if was.Some? && was.value.status == c.status then was.value.lastTransition
                                            else if c.lastTransition == NO_TIME then now
                                            else c.lastTransition)
  {
    SetAt(cs, c, now);
    var after, i := SetCondition(cs, c, now), IndexOf(cs, c.kind);
    assert forall j | 0 <= j < i :: after[j] == cs[j];
    IndexUnique(after, c.kind, i);
  }

  /** A condition's transition time moves only when its status does. */
  ghost predicate TimesKept(before: seq<Condition>, after: seq<Condition>, kind: Kind) {
    var b, a := Lookup(before, kind), Lookup(after, kind);
    b.Some? ==> a.Some? && (a.value.status == b.value.status ==> a.value.lastTransition == b.value.lastTransition)
  }
}
