/** The single-invocation guard that the transactional repositories put around a caller's
    callback: whichever path fires first answers, every later call is dropped. */
module Callbacks {

  class Guarded {
    var invoked: bool
    /** What the caller has been told, call by call. */
    var answers: seq<bool>

    ghost predicate Valid()
      reads this
    {
      |answers| == if invoked then 1 else 0
    }

    constructor ()
      ensures Valid() && !invoked
    {
      invoked, answers := false, [];
    }

    method Call(ok: bool)
      requires Valid()
      modifies this
      ensures Valid() && invoked
      ensures answers == if old(invoked) then old(answers) else [ok]
    {
      if !invoked {
        invoked := true;
        answers := answers + [ok];
      }
    }
  }
}
