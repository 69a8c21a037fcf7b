/** The counting barrier live packets wait at while a multi-page catch-up is in flight. */
module Gates {

  /** A releaser: safe to call more than once. */
  class Hold {
    var released: bool

    constructor ()
      ensures !released
    {
      released := false;
    }
  }

  class Gate {
    var holds: nat
    var waiters: seq<nat>
    /** waiters whose promise has resolved, in order */
    var resolved: seq<nat>
    /** the holds taken and not yet released */
    ghost var live: set<Hold>

    constructor ()
      ensures Valid() && live == {} && waiters == [] && resolved == []
    {
      holds, waiters, resolved, live := 0, [], [], {};
    }

    /** The count is the number of holds that are still out, and nobody waits at an open gate. */
    ghost predicate Valid()
      reads this, live
    {
      && holds == |live|
      && (forall h :: h in live ==> !h.released)
      && (live == {} ==> waiters == [])
    }

    method TakeHold() returns (h: Hold)
      requires Valid()
      modifies this`holds, this`live
      ensures Valid() && fresh(h) && live == old(live) + {h} && waiters == old(waiters) && resolved == old(resolved)
    {
      h := new Hold();
      holds := holds + 1;
      live := live + {h};
    }

    /** A hold counts once, however often its release is called; the last one lets every waiter through. */
    method Release(h: Hold)
      requires Valid() && (h in live || h.released)
      modifies this, h
      ensures Valid() && h.released && live == old(live) - {h}
      ensures var opens := old(h in live) && live == {};
              && resolved == old(resolved) + (if opens then old(waiters) else [])
              && waiters == (if opens then [] else old(waiters))
    {
      if h.released {
        return;
      }
      h.released := true;
      holds := holds - 1;
      live := live - {h};
      if holds == 0 {
        var waiting := waiters;
        waiters := [];
        for i := 0 to |waiting|
          invariant resolved == old(resolved) + waiting[..i]
          invariant waiters == [] && holds == 0 && live == old(live) - {h} && h.released
        {
          resolved := resolved + [waiting[i]];
        }
        assert waiting[..|waiting|] == waiting;
      }
    }

    /** Resolves at once when open, else when the last hold is released. */
    method WhenOpen(waiter: nat)
      requires Valid()
      modifies this`waiters, this`resolved
      ensures Valid()
      ensures live == {} ==> resolved == old(resolved) + [waiter] && waiters == old(waiters)
      ensures live != {} ==> resolved == old(resolved) && waiters == old(waiters) + [waiter]
    {
      if holds == 0 {
        resolved := resolved + [waiter];
        return;
      }
      waiters := waiters + [waiter];
    }
  }
}
