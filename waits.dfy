/**
 * One attempt of a wait: the predicate's outcome, judged against the
 * exception classes the wait was told to ignore. The polling loop that
 * repeats attempts until a deadline belongs to the inherited waitFor()
 * and is not part of this model.
 */
module Waits {
  import opened Wrappers
  import opened Failures

  /** What a call site configures: withTimeout(...) and ignoring(...). */
  datatype WaitPolicy = WaitPolicy(timeoutSeconds: int, ignoring: seq<Kind>)

  /** What one evaluation of the predicate did: it returned a Boolean or threw. */
  datatype Attempt = Returned(value: bool) | Threw(error: Throwable)

  /**
   * The verdict on one attempt: stop with success, poll again (keeping the
   * exception, if any, as the last one seen), or propagate an exception.
   */
  datatype Decision = Succeed | Retry(last: Option<Throwable>) | Fatal(error: Throwable)

  /**
   * The wait stops successfully only on true; false and an ignored
   * exception mean "not yet"; any other exception ends the wait at once.
   */
  function Decide(p: WaitPolicy, a: Attempt): (d: Decision)
    ensures d.Succeed? <==> a == Returned(true)
    ensures d.Fatal? <==> a.Threw? && a.error.kind !in p.ignoring
    ensures d.Fatal? ==> d.error == a.error
    ensures d.Retry? ==> d.last == (if a.Threw? then Some(a.error) else None)
  {
    match a
    case Returned(b) => if b then Succeed else Retry(None)
    case Threw(t) => if t.kind in p.ignoring then Retry(Some(t)) else Fatal(t)
  }

  /** Ignoring more classes never turns a retry into a fatal outcome. */
  lemma DecideMonotone(p: WaitPolicy, q: WaitPolicy, a: Attempt)
    requires forall k :: k in p.ignoring ==> k in q.ignoring
    ensures Decide(p, a).Retry? ==> Decide(q, a).Retry?
    ensures Decide(q, a).Fatal? ==> Decide(p, a).Fatal?
  {
  }
}
