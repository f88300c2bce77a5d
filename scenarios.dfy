/**
 * Concrete rounds of the discovery protocol: a clear majority, too few
 * answers, and a tie followed by shutdown. The canonicaliser is left
 * abstract; each lemma assumes only how it treats the texts involved.
 */
module Scenarios {
  import opened Wrappers
  import opened Votes
  import opened Discovery

  /** Five peers, threshold three: four answer 203.0.113.5 and one fails.
      Four successes, four votes, more than two: the address is returned. */
  lemma MajorityOfFourScenario(canonical: string -> Option<string>)
    requires canonical("203.0.113.5") == Some("203.0.113.5")
    ensures
      var ok := Received("203.0.113.5");
      var input := RoundInput(false, ["p1", "p2", "p3", "p4", "p5"], [ok, ok, ReadFailed, ok, ok]);
      RoundOutcome(input, 3, canonical) == Converged("203.0.113.5")
  {
    var a := "203.0.113.5";
    var ok := Received(a);
    var input := RoundInput(false, ["p1", "p2", "p3", "p4", "p5"], [ok, ok, ReadFailed, ok, ok]);
    var results := Results(input.replies, canonical);
    assert HandleReply(ok, canonical) == a && HandleReply(ReadFailed, canonical) == Sentinel;
    assert results == [a, a, Sentinel, a, a];
    SuccessesCount(results);
    assert multiset(results)[Sentinel] == 1 && multiset(results)[a] == 4;
    ConvergesOnStrictMajority(input, 3, canonical, a);
  }

  /** Three peers, threshold three: two different answers and one failure.
      Two successes are too few, so the round waits. */
  lemma TooFewResponsesScenario(canonical: string -> Option<string>)
    requires canonical("203.0.113.5") == Some("203.0.113.5")
    requires canonical("203.0.113.9") == Some("203.0.113.9")
    ensures
      var input := RoundInput(false, ["p1", "p2", "p3"],
                              [Received("203.0.113.5"), Received("203.0.113.9"), ReadFailed]);
      RoundOutcome(input, 3, canonical) == Wait
  {
    var input := RoundInput(false, ["p1", "p2", "p3"],
                            [Received("203.0.113.5"), Received("203.0.113.9"), ReadFailed]);
    var results := Results(input.replies, canonical);
    assert results == ["203.0.113.5", "203.0.113.9", Sentinel];
    SuccessesCount(results);
    assert multiset(results)[Sentinel] == 1;
  }

  /** Four peers split two against two: the round returns no address. */
  lemma TwoTwoTieScenario(canonical: string -> Option<string>)
    requires canonical("203.0.113.5") == Some("203.0.113.5")
    requires canonical("203.0.113.9") == Some("203.0.113.9")
    ensures
      var x, y := Received("203.0.113.5"), Received("203.0.113.9");
      RoundOutcome(RoundInput(false, ["p1", "p2", "p3", "p4"], [x, y, y, x]), 3, canonical) == Wait
  {
    var a, b := "203.0.113.5", "203.0.113.9";
    var x, y := Received(a), Received(b);
    var tie := RoundInput(false, ["p1", "p2", "p3", "p4"], [x, y, y, x]);
    var results := Results(tie.replies, canonical);
    assert HandleReply(x, canonical) == a && HandleReply(y, canonical) == b;
    assert results == [a, b, b, a];
    SuccessesCount(results);
    assert multiset(results)[Sentinel] == 0;
    assert multiset(results)[a] == 2 && multiset(results)[b] == 2;
    TieWaits(tie, 3, canonical, a, b);
  }

  /** After that tie polling goes on, and the shutdown seen at the top of the
      next round ends the loop with the interruption, never with either tied
      address. */
  lemma TieThenShutdownScenario(canonical: string -> Option<string>)
    requires canonical("203.0.113.5") == Some("203.0.113.5")
    requires canonical("203.0.113.9") == Some("203.0.113.9")
    ensures
      var x, y := Received("203.0.113.5"), Received("203.0.113.9");
      var peers := ["p1", "p2", "p3", "p4"];
      Run([RoundInput(false, peers, [x, y, y, x]), RoundInput(true, peers, [x, x, x, x])], 3, canonical)
        == Interrupted
  {
    var x, y := Received("203.0.113.5"), Received("203.0.113.9");
    var peers := ["p1", "p2", "p3", "p4"];
    var stop := RoundInput(true, peers, [x, x, x, x]);
    TwoTwoTieScenario(canonical);
    assert RoundOutcome(stop, 3, canonical) == Interrupted;
    var rounds := [RoundInput(false, peers, [x, y, y, x]), stop];
    assert rounds[1..] == [stop];
  }
}
