/** The status conditions of a custom resource: a list keyed by condition type, written only
    through SetStandardConditions. */
module Conditions {
  import opened Text

  datatype Truth = IsTrue | IsFalse | IsUnknown

  datatype Condition = Condition(kind: string, status: Truth, reason: string, message: string)

  datatype State = Available | Degraded | Progressing

  const AVAILABLE := "Available"
  const PROGRESSING := "Progressing"
  const DEGRADED := "Degraded"
  const READY := "Ready"

  // ---------- The list ----------

  function Lookup(cs: seq<Condition>, kind: string): Option<Condition> {
    if |cs| == 0 then None
    else if cs[0].kind == kind then Some(cs[0])
    else Lookup(cs[1..], kind)
  }

  ghost predicate UniqueKinds(cs: seq<Condition>) {
    forall i, j | 0 <= i < j < |cs| :: cs[i].kind != cs[j].kind
  }

  function WithCondition(cs: seq<Condition>, c: Condition): seq<Condition> {
    if |cs| == 0 then [c]
    else if cs[0].kind == c.kind then [c] + cs[1..]
    else [cs[0]] + WithCondition(cs[1..], c)
  }

  function WithoutCondition(cs: seq<Condition>, kind: string): seq<Condition> {
    if |cs| == 0 then []
    else if cs[0].kind == kind then WithoutCondition(cs[1..], kind)
    else [cs[0]] + WithoutCondition(cs[1..], kind)
  }

  predicate StandardKind(kind: string) {
    kind == AVAILABLE || kind == PROGRESSING || kind == DEGRADED || kind == READY
  }

  /** The conditions this module never writes, in order. */
  function NonStandard(cs: seq<Condition>): seq<Condition> {
    if |cs| == 0 then []
    else if StandardKind(cs[0].kind) then NonStandard(cs[1..])
    else [cs[0]] + NonStandard(cs[1..])
  }

  // ---------- SetStandardConditions ----------

  /** One call, as the new list. */
  function Standard(cs: seq<Condition>, state: State, reason: string, message: string): seq<Condition> {
    match state
    case Available =>
      WithCondition(WithoutCondition(WithCondition(WithCondition(cs,
        Condition(AVAILABLE, IsTrue, reason, message)),
        Condition(PROGRESSING, IsFalse, "Reconciled", "")),
        DEGRADED),
        Condition(READY, IsTrue, reason, message))
    case Degraded =>
      WithCondition(WithCondition(WithoutCondition(WithCondition(cs,
        Condition(AVAILABLE, IsFalse, reason, message)),
        PROGRESSING),
        Condition(DEGRADED, IsTrue, reason, message)),
        Condition(READY, IsFalse, reason, message))
    case Progressing =>
      WithCondition(WithoutCondition(WithCondition(WithCondition(cs,
        Condition(AVAILABLE, IsFalse, reason, message)),
        Condition(PROGRESSING, IsTrue, reason, message)),
        DEGRADED),
        Condition(READY, IsFalse, reason, message))
  }

  /** The list as the handlers hold it: behind a reference, updated in place. */
  class ConditionList {
    var items: seq<Condition>

    constructor (cs: seq<Condition>)
      ensures items == cs
    {
      items := cs;
    }

    method SetStatusCondition(c: Condition)
      modifies this
      ensures items == WithCondition(old(items), c)
    {
      var i := 0;
      while i < |items|
        invariant 0 <= i <= |items| && items == old(items)
        invariant WithCondition(items, c) == items[..i] + WithCondition(items[i..], c)
      {
        if items[i].kind == c.kind {
          items := items[..i] + [c] + items[i + 1..];
          return;
        }
        assert items[i..][1..] == items[i + 1..];
        i := i + 1;
      }
      items := items + [c];
    }

    method RemoveStatusCondition(kind: string)
      modifies this
      ensures items == WithoutCondition(old(items), kind)
    {
      var out := [];
      for i := 0 to |items|
        invariant items == old(items)
        invariant WithoutCondition(items, kind) == out + WithoutCondition(items[i..], kind)
      {
        assert items[i..][1..] == items[i + 1..];
        if items[i].kind != kind {
          out := out + [items[i]];
        }
      }
      items := out;
    }

    method SetStandardConditions(state: State, reason: string, message: string)
      modifies this
      ensures items == Standard(old(items), state, reason, message)
    {
      match state
      case Available =>
        SetStatusCondition(Condition(AVAILABLE, IsTrue, reason, message));
        SetStatusCondition(Condition(PROGRESSING, IsFalse, "Reconciled", ""));
        RemoveStatusCondition(DEGRADED);
        SetStatusCondition(Condition(READY, IsTrue, reason, message));
      case Degraded =>
        SetStatusCondition(Condition(AVAILABLE, IsFalse, reason, message));
        RemoveStatusCondition(PROGRESSING);
        SetStatusCondition(Condition(DEGRADED, IsTrue, reason, message));
        SetStatusCondition(Condition(READY, IsFalse, reason, message));
      case Progressing =>
        SetStatusCondition(Condition(AVAILABLE, IsFalse, reason, message));
        SetStatusCondition(Condition(PROGRESSING, IsTrue, reason, message));
        RemoveStatusCondition(DEGRADED);
        SetStatusCondition(Condition(READY, IsFalse, reason, message));
    }
  }

  // ---------- What calls do to the list ----------

  lemma {:induction false} WithConditionFacts(cs: seq<Condition>, c: Condition, kind: string)
    ensures Lookup(WithCondition(cs, c), kind) == if kind == c.kind then Some(c) else Lookup(cs, kind)
    ensures StandardKind(c.kind) ==> NonStandard(WithCondition(cs, c)) == NonStandard(cs)
  {
    if |cs| > 0 && cs[0].kind != c.kind {
      WithConditionFacts(cs[1..], c, kind);
    }
  }

  lemma {:induction false} WithConditionUnique(cs: seq<Condition>, c: Condition)
    ensures forall x | x in WithCondition(cs, c) :: x == c || x in cs
    ensures UniqueKinds(cs) ==> UniqueKinds(WithCondition(cs, c))
  {
    if |cs| > 0 && cs[0].kind != c.kind {
      WithConditionUnique(cs[1..], c);
      var rest := WithCondition(cs[1..], c);
      if UniqueKinds(cs) {
        forall j | 0 <= j < |rest|
          ensures rest[j].kind != cs[0].kind
        {
          assert rest[j] == c || rest[j] in cs[1..];
        }
      }
    }
  }

  lemma {:induction false} WithoutConditionFacts(cs: seq<Condition>, gone: string, kind: string)
    ensures Lookup(WithoutCondition(cs, gone), kind) == if kind == gone then None else Lookup(cs, kind)
    ensures StandardKind(gone) ==> NonStandard(WithoutCondition(cs, gone)) == NonStandard(cs)
  {
    if |cs| > 0 {
      WithoutConditionFacts(cs[1..], gone, kind);
    }
  }

  lemma {:induction false} WithoutConditionUnique(cs: seq<Condition>, gone: string)
    ensures forall x | x in WithoutCondition(cs, gone) :: x in cs
    ensures UniqueKinds(cs) ==> UniqueKinds(WithoutCondition(cs, gone))
  {
    if |cs| > 0 {
      WithoutConditionUnique(cs[1..], gone);
      var rest := WithoutCondition(cs[1..], gone);
      if UniqueKinds(cs) {
        forall j | 0 <= j < |rest|
          ensures rest[j].kind != cs[0].kind
        {
          assert rest[j] in cs[1..];
        }
      }
    }
  }

  function StatusOf(cs: seq<Condition>, kind: string): Option<Truth> {
    match Lookup(cs, kind)
    case None => None
    case Some(c) => Some(c.status)
  }

  ghost predicate True(cs: seq<Condition>, kind: string) {
    StatusOf(cs, kind) == Some(IsTrue)
  }

  /** Three of the four standard conditions are listed, and only the last call decides which
      and how. */
  ghost predicate Shows(cs: seq<Condition>, state: State, reason: string, message: string) {
    && Lookup(cs, "Ready") == Some(Condition("Ready", if state.Available? then IsTrue else IsFalse, reason, message))
    && Lookup(cs, "Available") == Some(Condition("Available", if state.Available? then IsTrue else IsFalse, reason, message))
    && Lookup(cs, "Progressing") == (match state
         case Available => Some(Condition("Progressing", IsFalse, "Reconciled", ""))
         case Progressing => Some(Condition("Progressing", IsTrue, reason, message))
         case Degraded => None)
    && Lookup(cs, "Degraded") == (if state.Degraded? then Some(Condition("Degraded", IsTrue, reason, message)) else None)
  }

  lemma OneCall(cs: seq<Condition>, state: State, reason: string, message: string)
    ensures Shows(Standard(cs, state, reason, message), state, reason, message)
    ensures UniqueKinds(cs) ==> UniqueKinds(Standard(cs, state, reason, message))
    ensures NonStandard(Standard(cs, state, reason, message)) == NonStandard(cs)
  {
    match state
    case Available =>
      var a := Wrote(cs, Condition(AVAILABLE, IsTrue, reason, message));
      var b := Wrote(a, Condition(PROGRESSING, IsFalse, "Reconciled", ""));
      var c := Dropped(b, DEGRADED);
      var d := Wrote(c, Condition(READY, IsTrue, reason, message));
    case Degraded =>
      var a := Wrote(cs, Condition(AVAILABLE, IsFalse, reason, message));
      var b := Dropped(a, PROGRESSING);
      var c := Wrote(b, Condition(DEGRADED, IsTrue, reason, message));
      var d := Wrote(c, Condition(READY, IsFalse, reason, message));
    case Progressing =>
      var a := Wrote(cs, Condition(AVAILABLE, IsFalse, reason, message));
      var b := Wrote(a, Condition(PROGRESSING, IsTrue, reason, message));
      var c := Dropped(b, DEGRADED);
      var d := Wrote(c, Condition(READY, IsFalse, reason, message));
  }

  lemma Wrote(cs: seq<Condition>, c: Condition) returns (r: seq<Condition>)
    requires StandardKind(c.kind)
    ensures r == WithCondition(cs, c)
    ensures forall k :: Lookup(r, k) == if k == c.kind then Some(c) else Lookup(cs, k)
    ensures NonStandard(r) == NonStandard(cs)
    ensures UniqueKinds(cs) ==> UniqueKinds(r)
  {
    r := WithCondition(cs, c);
    WithConditionFacts(cs, c, c.kind);
    WithConditionUnique(cs, c);
    forall k
      ensures Lookup(r, k) == if k == c.kind then Some(c) else Lookup(cs, k)
    {
      WithConditionFacts(cs, c, k);
    }
  }

  lemma Dropped(cs: seq<Condition>, gone: string) returns (r: seq<Condition>)
    requires StandardKind(gone)
    ensures r == WithoutCondition(cs, gone)
    ensures forall k :: Lookup(r, k) == if k == gone then None else Lookup(cs, k)
    ensures NonStandard(r) == NonStandard(cs)
    ensures UniqueKinds(cs) ==> UniqueKinds(r)
  {
    r := WithoutCondition(cs, gone);
    WithoutConditionFacts(cs, gone, gone);
    WithoutConditionUnique(cs, gone);
    forall k
      ensures Lookup(r, k) == if k == gone then None else Lookup(cs, k)
    {
      WithoutConditionFacts(cs, gone, k);
    }
  }

  datatype Call = Call(state: State, reason: string, message: string)

  function AfterCalls(cs: seq<Condition>, calls: seq<Call>): seq<Condition> {
    if |calls| == 0 then cs
    else
      var c := calls[|calls| - 1];
      Standard(AfterCalls(cs, calls[..|calls| - 1]), c.state, c.reason, c.message)
  }

  lemma {:induction false} CallsKeepList(cs: seq<Condition>, calls: seq<Call>)
    requires UniqueKinds(cs)
    ensures UniqueKinds(AfterCalls(cs, calls))
    ensures NonStandard(AfterCalls(cs, calls)) == NonStandard(cs)
  {
    if |calls| > 0 {
      CallsKeepList(cs, calls[..|calls| - 1]);
      var c := calls[|calls| - 1];
      OneCall(AfterCalls(cs, calls[..|calls| - 1]), c.state, c.reason, c.message);
    }
  }

  /** After any non-empty history of calls: types are unique, exactly one of the three states
      holds, Ready is Available, only the last call matters, and foreign conditions stay. */
  lemma ConditionMachine(cs: seq<Condition>, calls: seq<Call>)
    requires UniqueKinds(cs) && |calls| > 0
    ensures var r, last := AfterCalls(cs, calls), calls[|calls| - 1];
      && UniqueKinds(r)
      && NonStandard(r) == NonStandard(cs)
      && Shows(r, last.state, last.reason, last.message)
      && StatusOf(r, "Ready") == StatusOf(r, "Available")
      && (True(r, "Available") || True(r, "Progressing") || True(r, "Degraded"))
      && !(True(r, "Available") && True(r, "Progressing"))
      && !(True(r, "Available") && True(r, "Degraded"))
      && !(True(r, "Progressing") && True(r, "Degraded"))
  {
    var c := calls[|calls| - 1];
    CallsKeepList(cs, calls);
    OneCall(AfterCalls(cs, calls[..|calls| - 1]), c.state, c.reason, c.message);
  }
}
