/** The records of the translator: what it reads, and what it writes. */
module Config {
  import opened Basics

  // ---- input: a parsed configuration ----

  /** One entry of proxies. `dialer` is its dialer-proxy; `details` stands for the protocol fields the model does not
      look at. */
  datatype RawProxy = RawProxy(name: string, kind: string, server: string, port: int, ports: string, dialer: string,
                               details: nat)

  /** One entry of proxy-groups; members that are not strings are already gone, absent fields are empty or None. */
  datatype RawGroup = RawGroup(name: string, kind: string, proxies: seq<string>, url: string,
                               interval: Option<int>, tolerance: Option<int>)

  // ---- output: outbounds ----

  datatype GroupType = Selector | URLTest

  /** Probe settings of a urltest group, in seconds and milliseconds. */
  datatype Probe = Probe(url: string, interval: int, idleTimeout: int, tolerance: Option<int>)

  datatype Outbound =
    | Builtin(tag: string)
    | Node(tag: string, kind: string, server: string, port: int, username: string, echName: string,
           detour: Option<string>)
    | Group(tag: string, gtype: GroupType, members: seq<string>, dflt: Option<string>, probe: Option<Probe>)

  function Tags(obs: seq<Outbound>): (r: seq<string>)
    ensures |r| == |obs| && forall i :: 0 <= i < |obs| ==> r[i] == obs[i].tag
  {
    Each((o: Outbound) => o.tag, obs)
  }

  function TagSet(obs: seq<Outbound>): set<string> { set i | 0 <= i < |obs| :: obs[i].tag }
}
