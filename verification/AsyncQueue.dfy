/** The serial executor behind the packet queue and the state lock. */
module AsyncQueues {
  import opened Records

  datatype Outcome = Resolved | Failed

  class AsyncQueue {
    /** tasks chained behind the running one, in the order they were submitted */
    var waiting: seq<nat>
    var running: Option<nat>
    /** what each caller's promise settled with */
    var outcomes: map<nat, Outcome>
    ghost var submitted: seq<nat>
    ghost var settled: seq<nat>

    constructor ()
      ensures Valid() && submitted == [] && settled == [] && running == None
    {
      waiting, running, outcomes, submitted, settled := [], None, map[], [], [];
    }

    /** Everything submitted has settled, is the one task running, or waits, in that order. */
    ghost predicate Valid()
      reads this
    {
      && submitted == settled + (if running.Some? then [running.value] else []) + waiting
      && (forall i, j :: 0 <= i < j < |submitted| ==> submitted[i] != submitted[j])
      && (forall t :: t in outcomes <==> t in settled)
    }

    /** run: chained to the tail, whatever becomes of the tasks before it. */
    method Run(task: nat)
      requires Valid() && task !in submitted
      modifies this`waiting, this`submitted
      ensures Valid() && submitted == old(submitted) + [task] && waiting == old(waiting) + [task]
    {
      waiting := waiting + [task];
      submitted := submitted + [task];
    }

    /** The next task starts only when none runs. */
    method StartNext() returns (task: nat)
      requires Valid() && running.None? && waiting != []
      modifies this`waiting, this`running
      ensures Valid() && running == Some(task) && submitted == old(submitted)
      ensures |settled| < |submitted| && task == submitted[|settled|]
    {
      task := waiting[0];
      assert settled + [] + waiting == settled + [task] + waiting[1..];
      waiting, running := waiting[1..], Some(task);
    }

    /** A failed task fails its own caller and nobody else. */
    method Settle(outcome: Outcome)
      requires Valid() && running.Some?
      modifies this`running, this`outcomes, this`settled
      ensures Valid() && running.None? && settled == old(settled) + [old(running).value]
      ensures outcomes == old(outcomes)[old(running).value := outcome]
    {
      var task := running.value;
      settled := settled + [task];
      outcomes := outcomes[task := outcome];
      running := None;
      assert settled + [] + waiting == old(settled) + [task] + waiting;
    }
  }

  /** First in, first out, one at a time: what has settled is what was submitted first. */
  lemma SettlesInOrder(q: AsyncQueue)
    requires q.Valid()
    ensures q.settled == q.submitted[..|q.settled|]
    ensures q.running.Some? ==> |q.settled| < |q.submitted| && q.running.value == q.submitted[|q.settled|]
    ensures q.waiting == [] && q.running.None? ==> q.settled == q.submitted
  {
  }
}
