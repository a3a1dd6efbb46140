/**
 * `NotificationHandlerFactory`: the registered handlers that accept a
 * channel, in registration order. Which handlers are registered is wiring
 * outside the model, so the list is a parameter of the factory.
 */
module HandlerFactory {

  import opened Entities
  import opened Handlers
  import Seqs

  /** The registered handlers that accept `t`, keeping their relative order. */
  function Matching(registered: seq<Handler>, t: NotificationType): (r: seq<Handler>)
    ensures forall h :: h in r <==> h in registered && CanHandle(h, t)
    ensures Seqs.IsSubsequence(r, registered)
    ensures |r| <= |registered|
  {
    Seqs.FilterIsSubsequence(registered, Claims(t));
    Seqs.Filter(registered, Claims(t))
  }

  /** No match gives an empty list rather than an error. */
  lemma NoMatchIsEmpty(registered: seq<Handler>, t: NotificationType)
    ensures Matching(registered, t) == [] <==> forall h :: h in registered ==> !CanHandle(h, t)
  {
    if Matching(registered, t) != [] {
      assert Matching(registered, t)[0] in Matching(registered, t);
    }
  }

  class NotificationHandlerFactory {
    const handlers: seq<Handler>

    constructor (handlers: seq<Handler>)
      ensures this.handlers == handlers
    {
      this.handlers := handlers;
    }

    /** `GetHandlersAsync`: collects the handlers that accept `t`, one by one. */
    method GetHandlers(t: NotificationType) returns (r: seq<Handler>)
      ensures r == Matching(handlers, t)
    {
      r := [];
      for i := 0 to |handlers|
        invariant r == Seqs.Filter(handlers[..i], Claims(t))
      {
        Seqs.FilterStep(handlers, i, Claims(t));
        if CanHandle(handlers[i], t) {
          r := r + [handlers[i]];
        }
      }
      assert handlers[..|handlers|] == handlers;
    }
  }
}
