/**
 * The vote tally of one discovery round: the results collected from the peers
 * (an empty string stands for a failed peer), the count of successful
 * responses, the map from canonical address to the number of peers that
 * reported it, and the strict-majority winner of that map.
 *
 * These are the specification functions that the collection and selection
 * loops of `managedIPFromPeers` are proved against.
 */
module Votes {
  import opened Wrappers

  /** The failure sentinel a peer's task sends instead of an address. */
  const Sentinel: string := ""

  /** Number of successful (non-sentinel) results; never more than the results collected. */
  function Successes(results: seq<string>): (n: nat)
    ensures n <= |results|
  {
    if results == [] then 0
    else
      var last := results[|results| - 1];
      Successes(results[..|results| - 1]) + (if last != Sentinel then 1 else 0)
  }

  /** The count stored for `a`, zero when `a` is not a key (Go's zero value of a map read). */
  function Count(m: map<string, nat>, a: string): nat
  {
    if a in m then m[a] else 0
  }

  /** The tally built from the results in arrival order: every key is a
      non-empty address that some peer reported, with a positive count. */
  function Tally(results: seq<string>): (m: map<string, nat>)
    ensures forall a :: a in m ==> a != Sentinel && m[a] > 0 && a in results
  {
    if results == [] then map[]
    else
      var prev := Tally(results[..|results| - 1]);
      var a := results[|results| - 1];
      if a == Sentinel then prev else prev[a := Count(prev, a) + 1]
  }

  /** Some key of a non-empty map. */
  ghost function AnyKey(m: map<string, nat>): (k: string)
    requires m != map[]
    ensures k in m
  {
    var k :| k in m; k
  }

  /** Sum of the counts in a tally. */
  ghost function Total(m: map<string, nat>): nat
    decreases |m|
  {
    if m == map[] then 0
    else
      var k := AnyKey(m);
      assert (m - {k}).Keys == m.Keys - {k};
      m[k] + Total(m - {k})
  }

  /** An address clears the bar when its count is strictly greater than half
      the successful responses (integer division, as in Go on non-negative ints). */
  ghost predicate IsMajority(m: map<string, nat>, successes: nat, a: string)
  {
    a in m && m[a] > successes / 2
  }

  /** The address that clears the bar, if any. */
  ghost function Winner(m: map<string, nat>, successes: nat): (w: Option<string>)
    ensures w.Some? ==> IsMajority(m, successes, w.value)
    ensures w.None? ==> forall a :: !IsMajority(m, successes, a)
  {
    if exists a :: IsMajority(m, successes, a) then
      var a :| IsMajority(m, successes, a); Some(a)
    else None
  }

  /** Removing one key takes exactly its count off the total, whichever key
      the definition of Total happens to pick first. */
  lemma {:induction false} TotalRemove(m: map<string, nat>, k: string)
    requires k in m
    ensures Total(m) == m[k] + Total(m - {k})
    decreases |m|
  {
    var j := AnyKey(m);
    if j != k {
      assert (m - {j}).Keys == m.Keys - {j};
      assert (m - {k}).Keys == m.Keys - {k};
      TotalRemove(m - {j}, k);
      TotalRemove(m - {k}, j);
      assert m - {j} - {k} == m - {k} - {j};
    }
  }

  /** Setting one count changes the total by the difference. */
  lemma TotalUpdate(m: map<string, nat>, k: string, v: nat)
    ensures Total(m[k := v]) == Total(m) - Count(m, k) + v
  {
    TotalRemove(m[k := v], k);
    if k in m {
      TotalRemove(m, k);
      assert m[k := v] - {k} == m - {k};
    } else {
      assert m[k := v] - {k} == m;
    }
  }

  /** Two distinct keys together never count more than the total. */
  lemma TotalOfTwo(m: map<string, nat>, a: string, b: string)
    requires a in m && b in m && a != b
    ensures m[a] + m[b] <= Total(m)
  {
    TotalRemove(m, a);
    TotalRemove(m - {a}, b);
  }

  /** The tally sums to the number of successful responses. */
  lemma {:induction false} TallyTotal(results: seq<string>)
    ensures Total(Tally(results)) == Successes(results)
  {
    if results != [] {
      var prev := results[..|results| - 1];
      var a := results[|results| - 1];
      TallyTotal(prev);
      if a != Sentinel {
        TotalUpdate(Tally(prev), a, Count(Tally(prev), a) + 1);
      }
    }
  }

  /** Each address is counted once per result that carries it. */
  lemma {:induction false} TallyCount(results: seq<string>, a: string)
    requires a != Sentinel
    ensures Count(Tally(results), a) == multiset(results)[a]
  {
    if results != [] {
      var prev := results[..|results| - 1];
      assert results == prev + [results[|results| - 1]];
      TallyCount(prev, a);
    }
  }

  /** The successes are the results that are not the sentinel. */
  lemma {:induction false} SuccessesCount(results: seq<string>)
    ensures Successes(results) == |results| - multiset(results)[Sentinel]
  {
    if results != [] {
      var prev := results[..|results| - 1];
      assert results == prev + [results[|results| - 1]];
      SuccessesCount(prev);
    }
  }

  /** The tally and the success count depend only on which results arrived,
      not on the order in which they arrived. */
  lemma TallyOrderIndependent(s: seq<string>, t: seq<string>)
    requires multiset(s) == multiset(t)
    ensures Tally(s) == Tally(t)
    ensures Successes(s) == Successes(t)
  {
    SuccessesCount(s);
    SuccessesCount(t);
    assert |s| == |multiset(s)| == |t|;
    forall a | a != Sentinel
      ensures Count(Tally(s), a) == Count(Tally(t), a)
    {
      TallyCount(s, a);
      TallyCount(t, a);
    }
    assert Tally(s).Keys == Tally(t).Keys by {
      forall a | a in Tally(s) ensures a in Tally(t) {
        assert Count(Tally(s), a) == Count(Tally(t), a);
      }
      forall a | a in Tally(t) ensures a in Tally(s) {
        assert Count(Tally(s), a) == Count(Tally(t), a);
      }
    }
    forall a | a in Tally(s) ensures Tally(s)[a] == Tally(t)[a] {
      assert Count(Tally(s), a) == Count(Tally(t), a);
    }
  }

  /** At most one address can clear the strict-majority bar of a tally whose
      counts sum to the successful responses. */
  lemma MajorityUnique(m: map<string, nat>, successes: nat, a: string, b: string)
    requires Total(m) == successes
    requires IsMajority(m, successes, a) && IsMajority(m, successes, b)
    ensures a == b
  {
    if a != b {
      TotalOfTwo(m, a, b);
    }
  }

  /** So the winner is the one address that clears the bar, whichever one a
      scan of the map meets first. */
  lemma WinnerIsTheMajority(m: map<string, nat>, successes: nat, a: string)
    requires Total(m) == successes
    requires IsMajority(m, successes, a)
    ensures Winner(m, successes) == Some(a)
  {
    MajorityUnique(m, successes, a, Winner(m, successes).value);
  }
}
