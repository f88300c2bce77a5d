/**
 * The server side of the "DiscoverIP" RPC (`discoverPeerIP` in
 * modules/gateway/ip.go): write back the host part of the caller's remote
 * address, with the port stripped.
 *
 * Splitting host from port is the library call `net.SplitHostPort`, taken
 * here as the parameter `split`; what the responder relies on is the
 * library's contract that splitting `net.JoinHostPort(host, port)` gives back
 * that host and port when neither holds a bracket and the port no colon.
 */
module Responder {
  import opened Wrappers

  /** The two parts `net.SplitHostPort` returns. */
  datatype HostPort = HostPort(host: string, port: string)

  /** Why the responder gives up without writing anything. */
  datatype ResponderError = SplitFailed

  /** `net.JoinHostPort`: a host that contains a colon (an IPv6 literal) is bracketed. */
  function JoinHostPort(host: string, port: string): (s: string)
    ensures ':' in host ==> |s| > 0 && s[0] == '['
    ensures ':' !in host ==> |s| > |host| && s[..|host|] == host && s[|host|] == ':'
  {
    if ':' in host then "[" + host + "]:" + port else host + ":" + port
  }

  /** A host that `net.SplitHostPort` takes back out of a join unchanged: no brackets. */
  predicate BracketFree(host: string)
  {
    '[' !in host && ']' !in host
  }

  /** A port that `net.SplitHostPort` takes back out of a join unchanged: no
      colon and no brackets, as in the decimal port of a `net.TCPAddr`. */
  predicate PortText(port: string)
  {
    ':' !in port && BracketFree(port)
  }

  /** The library's promise for the addresses a connection reports (a
      `net.TCPAddr` prints as `net.JoinHostPort(ip, port)`): splitting a
      joined host and port gives back that host and port. */
  ghost predicate SplitInvertsJoin(split: string -> Option<HostPort>)
  {
    forall host, port :: BracketFree(host) && PortText(port) ==>
      split(JoinHostPort(host, port)) == Some(HostPort(host, port))
  }

  /** The reply the responder writes for a caller seen at `remoteAddr`: the
      host, or an error (and nothing written) when the split fails. A caller
      whose address is a host joined with a port gets exactly that host back. */
  function DiscoverPeerIP(remoteAddr: string, split: string -> Option<HostPort>): (r: Result<string, ResponderError>)
    ensures r.Failure? <==> split(remoteAddr).None?
    ensures SplitInvertsJoin(split) ==>
              forall host, port :: BracketFree(host) && PortText(port) && remoteAddr == JoinHostPort(host, port)
                ==> r == Success(host)
  {
    match split(remoteAddr)
    case None => Failure(SplitFailed)
    case Some(hp) => Success(hp.host)
  }

  /** Two ways of writing one remote address as a joined host and port
      agree, so the reply is determined by the address; for a host without
      colons (IPv4) the reply is the remote address with ":port" taken off. */
  lemma ResponderStripsPort(split: string -> Option<HostPort>, host: string, port: string, host': string, port': string)
    requires SplitInvertsJoin(split)
    requires BracketFree(host) && PortText(port) && BracketFree(host') && PortText(port')
    requires JoinHostPort(host, port) == JoinHostPort(host', port')
    ensures host == host' && port == port'
    ensures ':' !in host ==> JoinHostPort(host, port)[..|host|] == host
  {
    assert Some(HostPort(host, port)) == split(JoinHostPort(host, port)) == Some(HostPort(host', port'));
  }

  /** The inbound connection from 198.51.100.7:4400 is answered with 198.51.100.7. */
  lemma ResponderExample(split: string -> Option<HostPort>)
    requires SplitInvertsJoin(split)
    ensures DiscoverPeerIP("198.51.100.7:4400", split) == Success("198.51.100.7")
  {
    var host, port := "198.51.100.7", "4400";
    assert ':' !in host && BracketFree(host) && PortText(port);
    assert JoinHostPort(host, port) == "198.51.100.7:4400";
  }
}
