/** What can happen to one call to an API server. */
module Faults {

  /** The call is answered; it is refused without effect; it takes effect but an error comes
      back; or the process dies just before or just after the call takes effect. */
  datatype Fate = Answered | Refused | Unheard | CutBefore | CutAfter {
    predicate Applied(): (applied: bool)
      ensures !applied <==> Refused? || CutBefore?
    {
      Answered? || Unheard? || CutAfter?
    }

    predicate Cuts() {
      CutBefore? || CutAfter?
    }

    /** What the caller sees of a call that was not answered. */
    function Failure<T>(): (r: Reply<T>)
      ensures !r.Ok? && (r.Err? <==> Answered? || Refused? || Unheard?)
    {
      if Cuts() then Cut else Err
    }
  }

  datatype Reply<+T> = Ok(value: T) | Err | Cut

  /** The fate of the i-th call at one call site; calls that nothing is said about are answered. */
  function At(fates: seq<Fate>, i: nat): Fate {
    if i < |fates| then fates[i] else Answered
  }

  /** How a reconcile pass ends. */
  datatype Ending = Completed | Waiting | Errored | Interrupted
}
