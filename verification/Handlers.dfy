/**
 * The "bootstrap required" handlers, which run outside the state lock and so at any await of the code
 * that holds it: what a list of them makes of the latch on disk and of the flag in memory.
 */
module Handlers {

  /** `suspended`: handlers that have written the latch and wait for that write. */
  datatype Handling = Handling(latch: bool, flag: bool, suspended: nat)

  /**
   * True is an answer that arrives: unless the flag is set it writes the latch. False is a handler
   * that wakes up after its write and sets the flag.
   */
  function OneAnswer(h: Handling, arrives: bool): Handling {
    if arrives then if h.flag then h else Handling(true, false, h.suspended + 1)
    else if h.suspended > 0 then Handling(h.latch, true, h.suspended - 1)
    else h
  }

  function Answered(h: Handling, answers: seq<bool>): Handling {
    if answers == [] then h else OneAnswer(Answered(h, answers[..|answers| - 1]), answers[|answers| - 1])
  }

  /** Some handler wakes up: one that was suspended already, or one whose answer arrived before the flag was set. */
  predicate Wakes(h: Handling, answers: seq<bool>) {
    exists i :: 0 <= i < |answers| && !answers[i] && (h.suspended > 0 || (!h.flag && true in answers[..i]))
  }

  /**
   * What the handlers leave: the flag is set if one of them wakes up; the latch is written if one of
   * them arrives while the flag is not set, which is before any of them can wake up.
   */
  lemma {:induction false} AnswersExactly(h: Handling, answers: seq<bool>)
    ensures var after := Answered(h, answers);
            && (after.flag <==> h.flag || Wakes(h, answers))
            && (after.latch <==> || h.latch
                                 || (!h.flag && true in answers && (h.suspended == 0 || answers[0])))
            && (!Wakes(h, answers) ==> (after.suspended > 0 <==> h.suspended > 0 || (!h.flag && true in answers)))
  {
    if answers != [] {
      var n := |answers| - 1;
      AnswersExactly(h, answers[..n]);
      WakesSnoc(h, answers[..n], answers[n]);
      assert answers == answers[..n] + [answers[n]];
      assert n > 0 ==> answers[..n][0] == answers[0];
    }
  }

  lemma WakesSnoc(h: Handling, answers: seq<bool>, arrives: bool)
    ensures Wakes(h, answers + [arrives])
            <==> Wakes(h, answers) || (!arrives && (h.suspended > 0 || (!h.flag && true in answers)))
  {
    var all := answers + [arrives];
    assert all[..|answers|] == answers && all[|answers|] == arrives;
    forall i | 0 <= i < |answers| ensures all[..i] == answers[..i] && all[i] == answers[i] {
    }
  }

  lemma OneMoreAnswer(h: Handling, answers: seq<bool>, arrives: bool)
    ensures Answered(h, answers + [arrives]) == OneAnswer(Answered(h, answers), arrives)
    ensures Wakes(h, answers + [arrives])
            <==> Wakes(h, answers) || (!arrives && Answered(h, answers).suspended > 0)
  {
    assert (answers + [arrives])[..|answers|] == answers;
    WakesSnoc(h, answers, arrives);
    AnswersExactly(h, answers);
    if Wakes(h, answers) {
      assert Wakes(h, answers + [arrives]);
    }
  }

  lemma NoAnswer(h: Handling)
    ensures Answered(h, []) == h && !Wakes(h, [])
  {
  }
}
