# Peer-majority IP discovery (Sia gateway)

A Dafny model of how a Sia gateway learns its own external IP address from its
peers instead of from a central echo service (`modules/gateway/ip.go`).

The client side, `managedIPFromPeers`, runs rounds until one decides. Each round:

1. returns with "interrupted by shutdown" if the stop signal is set;
2. takes a snapshot of the peer list;
3. waits and retries if fewer than `minPeersForIPDiscovery` peers are known, without asking anyone;
4. asks every peer once over the "DiscoverIP" RPC. A peer whose answer cannot be read, or does not parse as an IP, yields the empty string. Otherwise it yields the canonical text of the parsed IP;
5. drains exactly one result per peer into a map from address to count, and counts the successful (non-empty) results;
6. waits and retries if fewer than `minPeersForIPDiscovery` results succeeded;
7. returns an address whose count is strictly greater than `successes / 2`, or waits and retries if there is none.

The server side, `discoverPeerIP`, writes back the host part of the caller's remote address, with the port stripped.

Files:

- `wrappers.dfy`: `Option` and `Result`.
- `tally.dfy` (module `Votes`): the specification of one round's vote. It defines the success count, the tally and its sum, and the strict-majority winner. Its lemmas cover:
  - the tally sums to the successes;
  - each address is counted once per result that carries it;
  - the tally does not depend on arrival order;
  - at most one address clears the bar.
- `discovery.dfy` (module `Discovery`): the peer task's result, the round (`RunRound`, built from the collection loop `CollectResults` and the map scan `FindMajority`) and the loop over rounds (`ManagedIPFromPeers`). Each method is proved equal to a ghost specification function (`RoundOutcome`, `Run`), and lemmas state what those functions promise.
- `responder.dfy` (module `Responder`): `discoverPeerIP`.
- `scenarios.dfy` (module `Scenarios`): concrete rounds. They cover a 4-of-5 majority, too few answers, and a 2–2 tie followed by shutdown.

How the external pieces appear in the model:

- `net.ParseIP(text).String()` is a parameter `canonical: string -> Option<string>`. `None` stands for a nil IP.
- `net.SplitHostPort` is a parameter `split`. The responder lemmas rely only on one property of it: splitting `net.JoinHostPort(host, port)` gives back that host and port, when neither contains a bracket and the port contains no colon. A connection's remote address (a `net.TCPAddr`) is printed in that joined form.
- `minPeersForIPDiscovery` is defined in the gateway's constants file. That file is not part of this model, so the threshold is a parameter `minPeers`.
- The goroutines and the result channel become the sequence of per-peer replies in the order their results arrive. `RoundOrderIndependent` shows that every order gives the same decision.
- Go's randomised map iteration becomes an arbitrary choice (`:|`) in `FindMajority`.
- A shutdown that ends the wait step early shows up as the stop flag at the top of the next round. That is where the source observes it.
- `Outcome.Interrupted` stands for the return `("", errors.New("interrupted by shutdown"))`, and `Converged(a)` for `(a, nil)`.

Two facts about the code that the model keeps:

- There is no counter of peers queried. The collection loop reads exactly `len(peers)` results.
- The scan returns the first key it meets whose count clears the bar. `MajorityUnique` shows that this key is the only one.

## Model

| member | source | states |
|---|---|---|
| Votes.Successes | modules/gateway/ip.go:66-73 | the number of successful responses never exceeds the number of results collected (one per peer) |
| Votes.Tally | modules/gateway/ip.go:65-72 | every tally key is a non-empty address that occurs among the results, and its count is positive |
| Votes.Winner | modules/gateway/ip.go:81-85 | the chosen address has a count strictly above half the successes; when nothing is chosen, no address clears that bar |
| Votes.TallyTotal | modules/gateway/ip.go:65-73 | the tally's counts sum to `successfulResponses` |
| Votes.TallyCount | modules/gateway/ip.go:67-71 | an address's count is the number of peers whose result was that address |
| Votes.SuccessesCount | modules/gateway/ip.go:67-72 | the successes are exactly the results that are not the empty sentinel |
| Votes.TallyOrderIndependent | modules/gateway/ip.go:67-73 | results that arrive in any order give the same tally and the same success count |
| Votes.MajorityUnique | modules/gateway/ip.go:81-85 | at most one address can have a count strictly greater than `successes/2` when the counts sum to the successes |
| Votes.WinnerIsTheMajority | modules/gateway/ip.go:81-85 | whatever order the map is scanned in, the address returned is the one address that clears the bar |
| Discovery.HandleReply | modules/gateway/ip.go:46-61 | a failed read or an unparseable reply yields the empty sentinel; any other result is the canonical form of the text the peer sent |
| Discovery.Results | modules/gateway/ip.go:44-63 | the fan-out yields exactly one result per peer, and each result is what that peer's task sends for its reply |
| Discovery.ResultsPermutation | modules/gateway/ip.go:44-68 | replies in another arrival order give the same results in another order |
| Discovery.TallyKeysAreCanonical | modules/gateway/ip.go:48-71 | every tally key is non-empty and is the canonical form of a text some peer sent |
| Discovery.RoundOutcome | modules/gateway/ip.go:29-88 | a round is interrupted exactly when the stop signal is set. Too few peers, or too few successes, means waiting. A returned address is non-empty, is reported by more than half the successful peers, and is the canonical form of some peer's reply |
| Discovery.ConvergesOnStrictMajority | modules/gateway/ip.go:75-85 | an address reported by more than half the successful peers, in a round that passes both gates, is the round's answer |
| Discovery.TieWaits | modules/gateway/ip.go:81-88 | a tie between two addresses that share all successful responses is never broken; the round waits |
| Discovery.RoundOrderIndependent | modules/gateway/ip.go:44-86 | the round's decision does not depend on the order in which the peers' results arrive |
| Discovery.CollectResults | modules/gateway/ip.go:65-73 | the loop that drains one result per peer builds exactly the tally and success count of the results, whose counts sum to the successes |
| Discovery.FindMajority | modules/gateway/ip.go:81-86 | scanning the tally in any order returns an address clearing the strict-majority bar, or nothing only when no address clears it |
| Discovery.RunRound | modules/gateway/ip.go:29-88 | one round computes `RoundOutcome`; it dispatches one RPC per peer when the peer gate passes and none otherwise |
| Discovery.Run | modules/gateway/ip.go:27-89 | the loop ends with the first round that does not wait and returns that round's outcome; if it is still waiting, every round so far waited |
| Discovery.ManagedIPFromPeers | modules/gateway/ip.go:26-90 | the loop over a finite sequence of rounds computes `Run` |
| Responder.DiscoverPeerIP | modules/gateway/ip.go:15-22 | the responder fails, writing nothing, exactly when the remote address does not split. A caller whose address is a host joined with a port is answered with exactly that host |
| Responder.ResponderStripsPort | modules/gateway/ip.go:17-21 | two readings of one remote address as host and port agree, so the reply depends only on the address; for a host without colons the reply is the remote address with ":port" taken off |
| Responder.ResponderExample | modules/gateway/ip.go:15-22 | a caller at 198.51.100.7:4400 is answered with 198.51.100.7 |
| Scenarios.MajorityOfFourScenario | modules/gateway/ip.go:65-85 | with five peers and a threshold of three, four equal answers and one failure yield that address |
| Scenarios.TooFewResponsesScenario | modules/gateway/ip.go:75-78 | with three peers and a threshold of three, two different answers and one failure make the round wait |
| Scenarios.TwoTwoTieScenario | modules/gateway/ip.go:81-88 | with four peers split two against two, the round returns no address and waits |
| Scenarios.TieThenShutdownScenario | modules/gateway/ip.go:27-33 | a 2–2 tie yields no address, and the next round's shutdown check ends the loop with the interruption |

## Left out

- Goroutines, the unbuffered result channel and the concurrency between peers' tasks are left out. A round's input is the sequence of per-peer replies in arrival order.
- The model assumes that every dispatched task sends exactly one result. `RunRound` requires one reply per peer. In the code this holds only once the RPC handler runs. If `g.RPC` fails before invoking the handler, nothing is sent and the collection loop blocks. This assumption is not proved.
- Timers and the `select` in `waitForPeerDiscoverySignal` are left out. The wait is the `Wait` outcome, and a shutdown during it is the next round's stop flag.
- `g.mu` locking is left out. The peer list is an immutable snapshot per round.
- Library calls are inputs or left out: `encoding.ReadObject`, including its 100-byte cap, and `encoding.WriteObject`. A failed read of any kind is `ReadFailed`.
- `net.ParseIP` and `net.SplitHostPort` are not re-implemented. They are the parameters `canonical` and `split`.
- `conn.SetDeadline` and logging are left out. They are I/O with no effect on the decision.
- Responder.DiscoverPeerIP: a failure of `WriteObject` after a successful split is I/O and is not modelled.
- Discovery.ManagedIPFromPeers: the source loops without bound. The model runs a finite sequence of rounds, and a sequence that is used up returns `Wait`. Liveness and termination are not modelled.
- Every contract taking the canonicaliser as a parameter leaves canonicalisation abstract. The claim that two spellings of one address become equal after parsing is a property of `net.IP.String`, not of this code.
