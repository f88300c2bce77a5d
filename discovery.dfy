/**
 * Peer-majority discovery of the node's own external IP address
 * (`managedIPFromPeers` in modules/gateway/ip.go).
 *
 * Each round checks for shutdown, takes the peer list, skips the round when
 * too few peers are known, asks every peer once, tallies the canonical
 * addresses reported, skips the round when too few peers answered, and
 * returns an address only when strictly more than half of the successful
 * answers name it. The goroutine fan-out is modelled by the per-peer replies
 * taken in the order they arrive on the result channel; the library parse of
 * the reply (`net.ParseIP(..).String()`) is the parameter `canonical`.
 */
module Discovery {
  import opened Wrappers
  import opened Votes

  /** A peer's network address, as held in the peer list. */
  type NetAddress = string

  /** What reading one peer's answer gave: a failed read (connection error,
      an oversized or malformed object) or the text the peer wrote back. */
  datatype PeerReply = ReadFailed | Received(text: string)

  /** Everything one round observes: whether the stop signal is set at the
      top of the round, the snapshot of the peer list, and the reply of each
      peer in the order the results arrive. */
  datatype RoundInput = RoundInput(stopRequested: bool, peers: seq<NetAddress>, replies: seq<PeerReply>)

  /** The result of one round: shut down, no decision (wait and retry), or
      an agreed address. */
  datatype Outcome = Interrupted | Wait | Converged(addr: string)

  /** The library canonicaliser never yields the empty text for an address it accepts. */
  ghost predicate NonEmptyOnSuccess(canonical: string -> Option<string>)
  {
    forall text :: canonical(text).Some? ==> canonical(text).value != Sentinel
  }

  /** The result one peer's task sends on the channel: the sentinel when the
      read fails or the reply does not parse, the canonical address otherwise. */
  function HandleReply(reply: PeerReply, canonical: string -> Option<string>): (r: string)
    ensures r != Sentinel ==> reply.Received? && canonical(reply.text) == Some(r)
    ensures NonEmptyOnSuccess(canonical) ==>
              (r == Sentinel <==> reply.ReadFailed? || canonical(reply.text).None?)
  {
    match reply
    case ReadFailed => Sentinel
    case Received(text) =>
      match canonical(text)
      case None => Sentinel
      case Some(ip) => ip
  }

  /** The fan-out of a round: each peer's task sends exactly one result, and
      the results are taken in arrival order. */
  function Results(replies: seq<PeerReply>, canonical: string -> Option<string>): (r: seq<string>)
    ensures |r| == |replies|
    ensures forall i :: 0 <= i < |replies| ==> r[i] == HandleReply(replies[i], canonical)
  {
    seq(|replies|, i requires 0 <= i < |replies| => HandleReply(replies[i], canonical))
  }

  lemma ResultsAppend(r1: seq<PeerReply>, r2: seq<PeerReply>, canonical: string -> Option<string>)
    ensures Results(r1 + r2, canonical) == Results(r1, canonical) + Results(r2, canonical)
  {
  }

  /** Replies that are a reordering of each other give results that are a
      reordering of each other. */
  lemma {:induction false} ResultsPermutation(r1: seq<PeerReply>, r2: seq<PeerReply>, canonical: string -> Option<string>)
    requires multiset(r1) == multiset(r2)
    ensures multiset(Results(r1, canonical)) == multiset(Results(r2, canonical))
    decreases |r1|
  {
    if r1 != [] {
      var x := r1[0];
      assert x in multiset(r2);
      var j :| 0 <= j < |r2| && r2[j] == x;
      var before, after := r2[..j], r2[j + 1..];
      assert r2 == before + [x] + after;
      assert r1 == [x] + r1[1..];
      assert multiset(r1) == multiset{x} + multiset(r1[1..]);
      assert multiset(r2) == multiset(before) + multiset{x} + multiset(after);
      assert multiset(before + after) == multiset(before) + multiset(after);
      assert multiset(r1[1..]) == multiset(r1) - multiset{x};
      assert multiset(r1[1..]) == multiset(before + after);
      ResultsPermutation(r1[1..], before + after, canonical);
      ResultsAppend(before, after, canonical);
      ResultsAppend(before + [x], after, canonical);
      ResultsAppend(before, [x], canonical);
      ResultsAppend([x], r1[1..], canonical);
    }
  }

  /** Every key of a round's tally is the canonical form of a text some peer
      actually sent; failed reads and unparseable replies never become keys. */
  lemma TallyKeysAreCanonical(replies: seq<PeerReply>, canonical: string -> Option<string>, a: string)
    requires a in Tally(Results(replies, canonical))
    ensures a != Sentinel
    ensures exists i :: 0 <= i < |replies| && replies[i].Received? && canonical(replies[i].text) == Some(a)
  {
  }

  /** What one round decides, stated on the whole round at once. */
  ghost function RoundOutcome(input: RoundInput, minPeers: nat, canonical: string -> Option<string>): (o: Outcome)
    ensures o == Interrupted <==> input.stopRequested
    ensures !input.stopRequested && |input.peers| < minPeers ==> o == Wait
    ensures !input.stopRequested && Successes(Results(input.replies, canonical)) < minPeers ==> o == Wait
    ensures o.Converged? ==>
              var results := Results(input.replies, canonical);
              && o.addr != Sentinel
              && multiset(results)[o.addr] > Successes(results) / 2
              && exists i :: 0 <= i < |input.replies| && input.replies[i].Received?
                   && canonical(input.replies[i].text) == Some(o.addr)
  {
    if input.stopRequested then Interrupted
    else if |input.peers| < minPeers then Wait
    else
      var results := Results(input.replies, canonical);
      var successes := Successes(results);
      if successes < minPeers then Wait
      else
        match Winner(Tally(results), successes)
        case None => Wait
        case Some(a) =>
          TallyCount(results, a);
          var i :| 0 <= i < |results| && results[i] == a;
          assert HandleReply(input.replies[i], canonical) == a;
          Converged(a)
  }

  /** Conversely, an address reported by a strict majority of the successful
      peers, in a round that passes both gates, is the round's answer. */
  lemma ConvergesOnStrictMajority(input: RoundInput, minPeers: nat, canonical: string -> Option<string>, a: string)
    requires !input.stopRequested && |input.peers| >= minPeers
    requires Successes(Results(input.replies, canonical)) >= minPeers
    requires a != Sentinel
    requires multiset(Results(input.replies, canonical))[a] > Successes(Results(input.replies, canonical)) / 2
    ensures RoundOutcome(input, minPeers, canonical) == Converged(a)
  {
    var results := Results(input.replies, canonical);
    TallyCount(results, a);
    TallyTotal(results);
    WinnerIsTheMajority(Tally(results), Successes(results), a);
  }

  /** A tie between two addresses that share every successful response is
      never broken: the round waits. */
  lemma TieWaits(input: RoundInput, minPeers: nat, canonical: string -> Option<string>, a: string, b: string)
    requires !input.stopRequested
    requires a != b && a != Sentinel && b != Sentinel
    requires multiset(Results(input.replies, canonical))[a] > 0
    requires multiset(Results(input.replies, canonical))[a] == multiset(Results(input.replies, canonical))[b]
    requires Successes(Results(input.replies, canonical))
               == multiset(Results(input.replies, canonical))[a] + multiset(Results(input.replies, canonical))[b]
    ensures RoundOutcome(input, minPeers, canonical) == Wait
  {
    var results := Results(input.replies, canonical);
    var o := RoundOutcome(input, minPeers, canonical);
    if o.Converged? {
      var c := o.addr;
      var m := Tally(results);
      TallyCount(results, a);
      TallyCount(results, c);
      TallyTotal(results);
      if c != a {
        TotalOfTwo(m, a, c);
      }
    }
  }

  /** The decision does not depend on the order in which the peers' results
      arrive. */
  lemma RoundOrderIndependent(input: RoundInput, reordered: RoundInput, minPeers: nat, canonical: string -> Option<string>)
    requires reordered.stopRequested == input.stopRequested
    requires |reordered.peers| == |input.peers|
    requires multiset(reordered.replies) == multiset(input.replies)
    ensures RoundOutcome(reordered, minPeers, canonical) == RoundOutcome(input, minPeers, canonical)
  {
    var results := Results(input.replies, canonical);
    var results' := Results(reordered.replies, canonical);
    ResultsPermutation(input.replies, reordered.replies, canonical);
    TallyOrderIndependent(results, results');
  }

  /** Collect exactly one result per peer, building the tally in place and
      counting the successful responses (ip.go:65-73). */
  method CollectResults(results: seq<string>) returns (addresses: map<string, nat>, successes: nat)
    ensures addresses == Tally(results) && successes == Successes(results)
    ensures Total(addresses) == successes && successes <= |results|
  {
    addresses := map[];
    successes := 0;
    for i := 0 to |results|
      invariant addresses == Tally(results[..i])
      invariant successes == Successes(results[..i])
    {
      assert results[..i + 1][..i] == results[..i];
      var addr := results[i];
      if addr != Sentinel {
        addresses := addresses[addr := Count(addresses, addr) + 1];
        successes := successes + 1;
      }
    }
    assert results[..|results|] == results;
    TallyTotal(results);
  }

  /** Scan the tally in an arbitrary order for an address whose count is
      strictly greater than half the successful responses (ip.go:81-86). */
  method FindMajority(addresses: map<string, nat>, successes: nat) returns (winner: Option<string>)
    ensures winner.Some? ==> IsMajority(addresses, successes, winner.value)
    ensures winner.None? ==> forall a :: !IsMajority(addresses, successes, a)
  {
    var unvisited := addresses.Keys;
    while unvisited != {}
      invariant unvisited <= addresses.Keys
      invariant forall a :: a in addresses && a !in unvisited ==> addresses[a] <= successes / 2
      decreases unvisited
    {
      var a :| a in unvisited;
      if addresses[a] > successes / 2 {
        return Some(a);
      }
      unvisited := unvisited - {a};
    }
    return None;
  }

  /** One round of the discovery loop (ip.go:29-88). `dispatched` only
      records how many RPCs the round sends; the replies are read only after
      the peer-count gate has passed, so a round that sends none reads none. */
  method RunRound(input: RoundInput, minPeers: nat, canonical: string -> Option<string>)
    returns (o: Outcome, dispatched: nat)
    requires |input.replies| == |input.peers|
    ensures o == RoundOutcome(input, minPeers, canonical)
    ensures dispatched == if !input.stopRequested && |input.peers| >= minPeers then |input.peers| else 0
  {
    if input.stopRequested {
      return Interrupted, 0;
    }
    var peers := input.peers;
    if |peers| < minPeers {
      return Wait, 0;
    }
    dispatched := |peers|;
    var results := Results(input.replies, canonical);
    var addresses, successes := CollectResults(results);
    if successes < minPeers {
      return Wait, dispatched;
    }
    var winner := FindMajority(addresses, successes);
    match winner {
      case None =>
        o := Wait;
      case Some(a) =>
        WinnerIsTheMajority(addresses, successes, a);
        o := Converged(a);
    }
  }

  /** The loop of rounds until one of them decides; a finite list of rounds
      that all wait leaves the loop still waiting. */
  ghost function Run(rounds: seq<RoundInput>, minPeers: nat, canonical: string -> Option<string>): (o: Outcome)
    ensures o != Wait ==> exists k :: 0 <= k < |rounds| && RoundOutcome(rounds[k], minPeers, canonical) == o
                            && forall j :: 0 <= j < k ==> RoundOutcome(rounds[j], minPeers, canonical) == Wait
    ensures o == Wait ==> forall k :: 0 <= k < |rounds| ==> RoundOutcome(rounds[k], minPeers, canonical) == Wait
    decreases |rounds|
  {
    if rounds == [] then Wait
    else
      match RoundOutcome(rounds[0], minPeers, canonical)
      case Wait =>
        var rest := Run(rounds[1..], minPeers, canonical);
        assert forall k :: 1 <= k < |rounds| ==> rounds[k] == rounds[1..][k - 1];
        rest
      case decided => decided
  }

  /** `managedIPFromPeers` over a finite sequence of rounds (ip.go:26-90):
      the first round that does not wait ends the loop. */
  method ManagedIPFromPeers(rounds: seq<RoundInput>, minPeers: nat, canonical: string -> Option<string>)
    returns (o: Outcome)
    requires forall k :: 0 <= k < |rounds| ==> |rounds[k].replies| == |rounds[k].peers|
    ensures o == Run(rounds, minPeers, canonical)
  {
    var i := 0;
    while i < |rounds|
      invariant 0 <= i <= |rounds|
      invariant Run(rounds, minPeers, canonical) == Run(rounds[i..], minPeers, canonical)
    {
      var decided, _ := RunRound(rounds[i], minPeers, canonical);
      if decided != Wait {
        return decided;
      }
      assert rounds[i..][1..] == rounds[i + 1..];
      i := i + 1;
    }
    return Wait;
  }
}
