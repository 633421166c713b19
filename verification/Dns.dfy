/** DNS servers: from the nameserver lists of a configuration to the server list of the output, with the resolver
    each domain-addressed server is to be looked up through. */
module Dns {
  import opened Basics
  import opened Text

  /** One nameserver entry, parsed: `host` is the address written out, `rawHost` the same text before trimming.
      h3 is the value of the entry's h3 parameter. */
  datatype Nameserver =
    | Blank | System | FakeIPPool | Rcode | DhcpOn
    | Url(host: string, rawHost: string, scheme: string, h3: Option<string>)

  datatype RawDns = RawDns(
    enable: bool,
    useHosts: Option<bool>,
    nameserver: seq<Nameserver>,
    fallback: seq<Nameserver>,
    defaultNameserver: seq<Nameserver>,
    proxyServerNameserver: seq<Nameserver>,
    enhancedMode: string,
    fakeIPFilter: seq<string>,
    fakeIPFilterMode: string,
    preferH3: bool)

  datatype ServerType = Local | FakeIP | Dhcp | Udp | Https | Tls | Quic | H3 | Hosts

  /** A server of the output; an empty address is an absent one. */
  datatype Server = Server(tag: string, kind: ServerType, address: string, detour: Option<string>,
                           resolver: Option<string>)

  const FAKEIP_TAG := "fakeip-dns"
  const HOSTS_TAG := "hosts"
  const BOOTSTRAP_TAG := "bootstrap-dns"

  // ---- parsing one entry ----

  /** schemeToDNSType; None is plain HTTP, which sing-box does not speak. */
  function SchemeType(scheme: string, h3: Option<string>): Option<ServerType> {
    if h3.Some? && h3.value != "false" then Some(H3)
    else if scheme == "https" then Some(Https)
    else if scheme == "http" then None
    else if scheme == "tls" then Some(Tls)
    else if scheme == "quic" then Some(Quic)
    else if scheme == "h3" then Some(H3)
    else Some(Udp)
  }

  /** parseDNSServer. */
  function Parsed(ns: Nameserver, tag: string, detour: string): (r: Option<Server>)
    ensures r.Some? ==> r.value.tag == tag && r.value.resolver == None
    ensures r.Some? && r.value.detour.Some? ==> detour != "" && r.value.detour.value == detour
    ensures r.Some? ==> (r.value.kind == FakeIP <==> ns == FakeIPPool) && r.value.kind != Hosts
  {
    match ns
    case Blank => None
    case System => Some(Server(tag, Local, "", None, None))
    case FakeIPPool => Some(Server(tag, FakeIP, "", None, None))
    case Rcode => None
    case DhcpOn => Some(Server(tag, Dhcp, "", None, None))
    case Url(host, _, scheme, h3) =>
      var kind := SchemeType(scheme, h3);
      if kind.None? then None
      else Some(Server(tag, kind.value, host, if detour != "" then Some(detour) else None, None))
  }

  /** buildDNSServerEntries from entry `i` on: entries that cannot be expressed are skipped, and keep their number. */
  function Entries(list: seq<Nameserver>, i: nat, prefix: string, detour: string): seq<Server>
    decreases |list| - i
  {
    if i >= |list| then []
    else
      var srv := Parsed(list[i], prefix + Itoa(i), detour);
      (if srv.Some? then [srv.value] else []) + Entries(list, i + 1, prefix, detour)
  }

  /** The bootstrap servers taken from nameserver entries with an IP address, when no default server is given. */
  function Autos(list: seq<Nameserver>, i: nat, count: nat, isIP: string -> bool): seq<Server>
    decreases |list| - i
  {
    if i >= |list| || count >= 2 then []
    else if list[i].Url? && isIP(list[i].rawHost) then
      var srv := Parsed(list[i], "def-auto-" + Itoa(count), "");
      if srv.Some? then [srv.value] + Autos(list, i + 1, count + 1, isIP) else Autos(list, i + 1, count, isIP)
    else Autos(list, i + 1, count, isIP)
  }

  function TagsOf(servers: seq<Server>): seq<string> { Each((s: Server) => s.tag, servers) }

  // ---- the list translateDNS builds ----

  function Defaults(dns: RawDns): seq<Server> { Entries(dns.defaultNameserver, 0, "def-", "") }
  function Nameservers(dns: RawDns, detour: string): seq<Server> { Entries(dns.nameserver, 0, "ns-", detour) }
  function Fallbacks(dns: RawDns, detour: string): seq<Server> { Entries(dns.fallback, 0, "fb-", detour) }
  function ProxyServers(dns: RawDns): seq<Server> { Entries(dns.proxyServerNameserver, 0, "psn-", "") }

  function Listed(dns: RawDns, detour: string): seq<Server> {
    Defaults(dns) + Nameservers(dns, detour) + Fallbacks(dns, detour) + ProxyServers(dns)
  }

  /** The default servers: the surviving default-nameserver entries or, when there are none, the automatic ones. */
  function Resolvers(dns: RawDns, isIP: string -> bool): seq<Server> {
    if Defaults(dns) != [] then Defaults(dns) else Autos(dns.nameserver, 0, 0, isIP)
  }

  function WithAutos(dns: RawDns, detour: string, isIP: string -> bool): seq<Server> {
    Listed(dns, detour) + (if Defaults(dns) != [] then [] else Autos(dns.nameserver, 0, 0, isIP))
  }

  predicate DomainAddressed(s: Server, isIP: string -> bool) { s.address != "" && !isIP(s.address) }

  /** The first candidate that is not the server itself. */
  function FirstOther(tag: string, candidates: seq<string>): Option<string> {
    if candidates == [] then None
    else if candidates[0] != tag then Some(candidates[0])
    else FirstOther(tag, candidates[1..])
  }

  function Resolved(s: Server, candidates: seq<string>, isIP: string -> bool): Server {
    if DomainAddressed(s, isIP) then s.(resolver := FirstOther(s.tag, candidates)) else s
  }

  function AllResolved(servers: seq<Server>, candidates: seq<string>, isIP: string -> bool): (r: seq<Server>)
    ensures |r| == |servers| && forall i :: 0 <= i < |r| ==> r[i] == Resolved(servers[i], candidates, isIP)
  {
    seq(|servers|, i requires 0 <= i < |servers| => Resolved(servers[i], candidates, isIP))
  }

  predicate UsesHosts(dns: RawDns, hosts: seq<string>) { hosts != [] && dns.useHosts != Some(false) }

  function Extras(dns: RawDns, hosts: seq<string>): seq<Server> {
    (if dns.enhancedMode == "fake-ip" then [Server(FAKEIP_TAG, FakeIP, "", None, None)] else [])
    + (if UsesHosts(dns, hosts) then [Server(HOSTS_TAG, Hosts, "", None, None)] else [])
  }

  function Upgraded(s: Server, preferH3: bool): Server {
    if preferH3 && s.kind == Https then s.(kind := H3) else s
  }

  function AllUpgraded(servers: seq<Server>, preferH3: bool): (r: seq<Server>)
    ensures |r| == |servers| && forall i :: 0 <= i < |r| ==> r[i] == Upgraded(servers[i], preferH3)
  {
    seq(|servers|, i requires 0 <= i < |servers| => Upgraded(servers[i], preferH3))
  }

  /** Every server but the bootstrap one. */
  function Servers(dns: RawDns, hosts: seq<string>, detour: string, isIP: string -> bool): seq<Server> {
    AllUpgraded(
      AllResolved(WithAutos(dns, detour, isIP), TagsOf(Resolvers(dns, isIP)), isIP) + Extras(dns, hosts),
      dns.preferH3)
  }

  /** The first server with that tag. */
  function Lookup(servers: seq<Server>, tag: string): Option<Server> {
    if servers == [] then None
    else if servers[0].tag == tag then Some(servers[0])
    else Lookup(servers[1..], tag)
  }

  predicate IsLocal(servers: seq<Server>, tag: string) {
    Lookup(servers, tag).Some? && Lookup(servers, tag).value.kind == Local
  }

  predicate HasUdp(servers: seq<Server>, tag: string) {
    exists i :: 0 <= i < |servers| && servers[i].tag == tag && servers[i].kind == Udp
  }

  /** preferUDPServer. */
  function PreferUdp(candidates: seq<string>, servers: seq<Server>): string
    requires candidates != []
  {
    FirstUdp(candidates, servers, candidates[0])
  }

  function FirstUdp(candidates: seq<string>, servers: seq<Server>, otherwise: string): string {
    if candidates == [] then otherwise
    else if HasUdp(servers, candidates[0]) then candidates[0]
    else FirstUdp(candidates[1..], servers, otherwise)
  }

  /** What default_domain_resolver is set to at first; empty when there is no default server. */
  function FirstResolver(dns: RawDns, detour: string, isIP: string -> bool): string {
    var candidates := TagsOf(Resolvers(dns, isIP));
    if candidates == [] then "" else PreferUdp(candidates, WithAutos(dns, detour, isIP))
  }

  const BOOTSTRAP := Server(BOOTSTRAP_TAG, Udp, "223.5.5.5", None, None)

  /** The resolver cannot serve: there is none, or it is the system's. */
  predicate NeedsBootstrap(dns: RawDns, hosts: seq<string>, detour: string, isIP: string -> bool) {
    var r := FirstResolver(dns, detour, isIP);
    r == "" || IsLocal(Servers(dns, hosts, detour, isIP), r)
  }

  /** The servers translateDNS writes. */
  function FinalServers(dns: RawDns, hosts: seq<string>, detour: string, isIP: string -> bool): seq<Server> {
    if !dns.enable then [BOOTSTRAP]
    else Servers(dns, hosts, detour, isIP) + (if NeedsBootstrap(dns, hosts, detour, isIP) then [BOOTSTRAP] else [])
  }

  /** route.default_domain_resolver. */
  function DomainResolver(dns: RawDns, hosts: seq<string>, detour: string, isIP: string -> bool): string {
    if !dns.enable || NeedsBootstrap(dns, hosts, detour, isIP) then BOOTSTRAP_TAG else FirstResolver(dns, detour, isIP)
  }

  /** dns.final; empty when no usable nameserver is given. */
  function FinalTag(dns: RawDns, detour: string): string {
    if !dns.enable then BOOTSTRAP_TAG
    else if Fallbacks(dns, detour) != [] then Fallbacks(dns, detour)[0].tag
    else FirstNameserver(dns, detour)
  }

  function FirstNameserver(dns: RawDns, detour: string): string {
    if Nameservers(dns, detour) != [] then Nameservers(dns, detour)[0].tag else ""
  }

  // ---- tags are pairwise distinct ----

  /** Which list a tag comes from, read off its first letters. */
  function Family(tag: string): nat {
    if |tag| < 2 then 8
    else if tag[0] == 'd' then (if |tag| > 4 && tag[4] == 'a' then 1 else 0)
    else if tag[0] == 'n' then 2
    else if tag[0] == 'f' then (if tag[1] == 'b' then 3 else 5)
    else if tag[0] == 'p' then 4
    else if tag[0] == 'h' then 6
    else 7
  }

  ghost predicate OfFamily(servers: seq<Server>, f: nat) {
    forall s :: s in servers ==> Family(s.tag) == f
  }

  lemma {:induction false} NumberedTag(prefix: string, i: nat, j: nat)
    requires prefix + Itoa(i) == prefix + Itoa(j)
    ensures i == j
  {
    assert (prefix + Itoa(i))[|prefix|..] == Itoa(i);
    assert (prefix + Itoa(j))[|prefix|..] == Itoa(j);
    ItoaInjective(i, j);
  }

  /** Entries from i on are numbered from i on. */
  lemma {:induction false} EntriesNumbered(list: seq<Nameserver>, i: nat, prefix: string, detour: string, s: Server)
    returns (k: nat)
    requires s in Entries(list, i, prefix, detour)
    ensures i <= k < |list| && s.tag == prefix + Itoa(k) && Parsed(list[k], prefix + Itoa(k), detour) == Some(s)
    decreases |list| - i
  {
    var srv := Parsed(list[i], prefix + Itoa(i), detour);
    if srv == Some(s) { k := i; } else { k := EntriesNumbered(list, i + 1, prefix, detour, s); }
  }

  lemma {:induction false} EntriesNoDup(list: seq<Nameserver>, i: nat, prefix: string, detour: string)
    ensures NoDup(TagsOf(Entries(list, i, prefix, detour)))
    decreases |list| - i
  {
    if i < |list| {
      EntriesNoDup(list, i + 1, prefix, detour);
      var srv := Parsed(list[i], prefix + Itoa(i), detour);
      var rest := Entries(list, i + 1, prefix, detour);
      if srv.Some? {
        forall j | 0 <= j < |rest| ensures rest[j].tag != srv.value.tag {
          var k := EntriesNumbered(list, i + 1, prefix, detour, rest[j]);
          if prefix + Itoa(k) == prefix + Itoa(i) { NumberedTag(prefix, k, i); }
        }
        NoDupCons(srv.value, rest);
      } else {
        assert Entries(list, i, prefix, detour) == rest;
      }
    }
  }

  lemma NoDupCons(s: Server, rest: seq<Server>)
    requires NoDup(TagsOf(rest)) && forall j :: 0 <= j < |rest| ==> rest[j].tag != s.tag
    ensures NoDup(TagsOf([s] + rest))
  {
    var tags := TagsOf([s] + rest);
    assert forall j :: 0 < j < |tags| ==> tags[j] == TagsOf(rest)[j - 1];
  }

  lemma {:induction false} AutosNumbered(list: seq<Nameserver>, i: nat, count: nat, isIP: string -> bool, s: Server)
    returns (k: nat)
    requires s in Autos(list, i, count, isIP)
    ensures count <= k < 2 && s.tag == "def-auto-" + Itoa(k) && s.resolver == None && s.detour == None
    ensures s.kind != FakeIP && s.kind != Hosts
    decreases |list| - i
  {
    if list[i].Url? && isIP(list[i].rawHost) {
      var srv := Parsed(list[i], "def-auto-" + Itoa(count), "");
      if srv == Some(s) { k := count; }
      else if srv.Some? { k := AutosNumbered(list, i + 1, count + 1, isIP, s); }
      else { k := AutosNumbered(list, i + 1, count, isIP, s); }
    } else {
      k := AutosNumbered(list, i + 1, count, isIP, s);
    }
  }

  lemma {:induction false} AutosNoDup(list: seq<Nameserver>, i: nat, count: nat, isIP: string -> bool)
    ensures NoDup(TagsOf(Autos(list, i, count, isIP)))
    decreases |list| - i
  {
    if i < |list| && count < 2 {
      AutosNoDup(list, i + 1, count, isIP);
      AutosNoDup(list, i + 1, count + 1, isIP);
      if list[i].Url? && isIP(list[i].rawHost) {
        var srv := Parsed(list[i], "def-auto-" + Itoa(count), "");
        if srv.Some? {
          var rest := Autos(list, i + 1, count + 1, isIP);
          forall j | 0 <= j < |rest| ensures rest[j].tag != srv.value.tag {
            var k := AutosNumbered(list, i + 1, count + 1, isIP, rest[j]);
            if "def-auto-" + Itoa(k) == "def-auto-" + Itoa(count) { NumberedTag("def-auto-", k, count); }
          }
          NoDupCons(srv.value, rest);
        }
      }
    }
  }

  lemma EntriesFamily(list: seq<Nameserver>, prefix: string, detour: string, f: nat)
    requires (prefix == "def-" && f == 0) || (prefix == "ns-" && f == 2) || (prefix == "fb-" && f == 3)
             || (prefix == "psn-" && f == 4)
    ensures OfFamily(Entries(list, 0, prefix, detour), f)
  {
    forall s | s in Entries(list, 0, prefix, detour) ensures Family(s.tag) == f {
      var k := EntriesNumbered(list, 0, prefix, detour, s);
      var num := Itoa(k);
      assert num[0] in num;
      assert s.tag == prefix + num && s.tag[|prefix|] == num[0];
    }
  }

  lemma AutosFamily(list: seq<Nameserver>, isIP: string -> bool)
    ensures OfFamily(Autos(list, 0, 0, isIP), 1)
  {
    forall s | s in Autos(list, 0, 0, isIP) ensures Family(s.tag) == 1 {
      var k := AutosNumbered(list, 0, 0, isIP, s);
      assert s.tag == "def-auto-" + Itoa(k) && s.tag[4] == 'a' && s.tag[0] == 'd';
    }
  }

  /** Lists whose tags tell different families can be joined. */
  lemma NoDupJoin(one: seq<Server>, two: seq<Server>)
    requires NoDup(TagsOf(one)) && NoDup(TagsOf(two))
    requires forall s, t :: s in one && t in two ==> Family(s.tag) != Family(t.tag)
    ensures NoDup(TagsOf(one + two))
  {
    var all := TagsOf(one + two);
    forall i, j | 0 <= i < j < |all| ensures all[i] != all[j] {
      if j < |one| {
        assert TagsOf(one)[i] != TagsOf(one)[j];
      } else if i >= |one| {
        assert TagsOf(two)[i - |one|] != TagsOf(two)[j - |one|];
      } else {
        assert one[i] in one && two[j - |one|] in two;
      }
    }
  }

  ghost predicate Within(servers: seq<Server>, families: set<nat>) {
    forall s :: s in servers ==> Family(s.tag) in families
  }

  lemma ListedDistinct(dns: RawDns, detour: string)
    ensures NoDup(TagsOf(Listed(dns, detour))) && Within(Listed(dns, detour), {0, 2, 3, 4})
  {
    EntriesNoDup(dns.defaultNameserver, 0, "def-", "");
    EntriesNoDup(dns.nameserver, 0, "ns-", detour);
    EntriesNoDup(dns.fallback, 0, "fb-", detour);
    EntriesNoDup(dns.proxyServerNameserver, 0, "psn-", "");
    EntriesFamily(dns.defaultNameserver, "def-", "", 0);
    EntriesFamily(dns.nameserver, "ns-", detour, 2);
    EntriesFamily(dns.fallback, "fb-", detour, 3);
    EntriesFamily(dns.proxyServerNameserver, "psn-", "", 4);
    NoDupJoin(Defaults(dns), Nameservers(dns, detour));
    NoDupJoin(Defaults(dns) + Nameservers(dns, detour), Fallbacks(dns, detour));
    NoDupJoin(Defaults(dns) + Nameservers(dns, detour) + Fallbacks(dns, detour), ProxyServers(dns));
  }

  lemma WithAutosDistinct(dns: RawDns, detour: string, isIP: string -> bool)
    ensures NoDup(TagsOf(WithAutos(dns, detour, isIP))) && Within(WithAutos(dns, detour, isIP), {0, 1, 2, 3, 4})
  {
    ListedDistinct(dns, detour);
    AutosNoDup(dns.nameserver, 0, 0, isIP);
    AutosFamily(dns.nameserver, isIP);
    if Defaults(dns) != [] {
      assert WithAutos(dns, detour, isIP) == Listed(dns, detour);
    } else {
      NoDupJoin(Listed(dns, detour), Autos(dns.nameserver, 0, 0, isIP));
    }
  }

  lemma ExtrasDistinct(dns: RawDns, hosts: seq<string>)
    ensures NoDup(TagsOf(Extras(dns, hosts))) && Within(Extras(dns, hosts), {5, 6})
  {
    assert Family(FAKEIP_TAG) == 5 && Family(HOSTS_TAG) == 6;
  }

  lemma SameTagsSameFamilies(one: seq<Server>, two: seq<Server>, families: set<nat>)
    requires |one| == |two| && forall i :: 0 <= i < |one| ==> one[i].tag == two[i].tag
    requires Within(one, families)
    ensures TagsOf(one) == TagsOf(two) && Within(two, families)
  {
    forall s | s in two ensures Family(s.tag) in families {
      var i :| 0 <= i < |two| && two[i] == s;
      assert one[i] in one;
    }
  }

  lemma ServersDistinct(dns: RawDns, hosts: seq<string>, detour: string, isIP: string -> bool)
    ensures NoDup(TagsOf(Servers(dns, hosts, detour, isIP)))
            && Within(Servers(dns, hosts, detour, isIP), {0, 1, 2, 3, 4, 5, 6})
  {
    var all := WithAutos(dns, detour, isIP);
    var resolved := AllResolved(all, TagsOf(Resolvers(dns, isIP)), isIP);
    WithAutosDistinct(dns, detour, isIP);
    ExtrasDistinct(dns, hosts);
    SameTagsSameFamilies(all, resolved, {0, 1, 2, 3, 4});
    NoDupJoin(resolved, Extras(dns, hosts));
    var joined := resolved + Extras(dns, hosts);
    assert Within(joined, {0, 1, 2, 3, 4, 5, 6});
    SameTagsSameFamilies(joined, AllUpgraded(joined, dns.preferH3), {0, 1, 2, 3, 4, 5, 6});
  }

  /** The tags of the servers translateDNS writes are pairwise distinct. */
  lemma TagsDistinct(dns: RawDns, hosts: seq<string>, detour: string, isIP: string -> bool)
    ensures NoDup(TagsOf(FinalServers(dns, hosts, detour, isIP)))
  {
    ServersDistinct(dns, hosts, detour, isIP);
    assert Family(BOOTSTRAP_TAG) == 7;
    NoDupJoin(Servers(dns, hosts, detour, isIP), [BOOTSTRAP]);
    assert Servers(dns, hosts, detour, isIP) + [] == Servers(dns, hosts, detour, isIP);
  }

  // ---- looking servers up ----

  lemma {:induction false} LookupFinds(servers: seq<Server>, s: Server)
    requires NoDup(TagsOf(servers)) && s in servers
    ensures Lookup(servers, s.tag) == Some(s)
  {
    var tags := TagsOf(servers);
    assert tags[0] == servers[0].tag;
    if s != servers[0] {
      var i :| 0 < i < |servers| && servers[i] == s;
      assert tags[i] == s.tag;
      assert TagsOf(servers[1..]) == tags[1..];
      LookupFinds(servers[1..], s);
    }
  }

  lemma {:induction false} LookupIsIn(servers: seq<Server>, tag: string)
    requires Lookup(servers, tag).Some?
    ensures Lookup(servers, tag).value in servers && Lookup(servers, tag).value.tag == tag
  {
    if servers[0].tag != tag { LookupIsIn(servers[1..], tag); }
  }

  /** The server as it ends up in the output. */
  function Written(s: Server, dns: RawDns, isIP: string -> bool): Server {
    Upgraded(Resolved(s, TagsOf(Resolvers(dns, isIP)), isIP), dns.preferH3)
  }

  lemma WrittenIsFinal(dns: RawDns, hosts: seq<string>, detour: string, isIP: string -> bool, s: Server)
    requires dns.enable && s in WithAutos(dns, detour, isIP)
    ensures Written(s, dns, isIP) in FinalServers(dns, hosts, detour, isIP)
    ensures Lookup(FinalServers(dns, hosts, detour, isIP), s.tag) == Some(Written(s, dns, isIP))
  {
    var all := WithAutos(dns, detour, isIP);
    var i :| 0 <= i < |all| && all[i] == s;
    assert Servers(dns, hosts, detour, isIP)[i] == Written(s, dns, isIP);
    TagsDistinct(dns, hosts, detour, isIP);
    LookupFinds(FinalServers(dns, hosts, detour, isIP), Written(s, dns, isIP));
  }

  /** Every server of the output is a parsed entry as written, or one of the extra servers, which have no resolver. */
  lemma FinalIsWritten(dns: RawDns, hosts: seq<string>, detour: string, isIP: string -> bool, f: Server)
    returns (s: Option<Server>)
    requires f in FinalServers(dns, hosts, detour, isIP)
    ensures s.Some? ==> dns.enable && s.value in WithAutos(dns, detour, isIP) && f == Written(s.value, dns, isIP)
    ensures s.None? ==>
              || (f == BOOTSTRAP && (!dns.enable || NeedsBootstrap(dns, hosts, detour, isIP)))
              || f in Extras(dns, hosts)
  {
    s := None;
    if dns.enable && f in Servers(dns, hosts, detour, isIP) {
      var all := WithAutos(dns, detour, isIP);
      var resolved := AllResolved(all, TagsOf(Resolvers(dns, isIP)), isIP);
      var i :| 0 <= i < |Servers(dns, hosts, detour, isIP)| && Servers(dns, hosts, detour, isIP)[i] == f;
      if i < |all| {
        s := Some(all[i]);
      } else {
        assert f == Upgraded(Extras(dns, hosts)[i - |all|], dns.preferH3);
      }
    }
  }

  lemma EntriesBare(dns: RawDns, detour: string, isIP: string -> bool, s: Server)
    requires s in WithAutos(dns, detour, isIP)
    ensures s.resolver == None
  {
    if s in Defaults(dns) { var k := EntriesNumbered(dns.defaultNameserver, 0, "def-", "", s); }
    else if s in Nameservers(dns, detour) { var k := EntriesNumbered(dns.nameserver, 0, "ns-", detour, s); }
    else if s in Fallbacks(dns, detour) { var k := EntriesNumbered(dns.fallback, 0, "fb-", detour, s); }
    else if s in ProxyServers(dns) { var k := EntriesNumbered(dns.proxyServerNameserver, 0, "psn-", "", s); }
    else { var k := AutosNumbered(dns.nameserver, 0, 0, isIP, s); }
  }

  // ---- the resolver graph ----

  /** The server that `tag` is looked up through. */
  function ResolverOf(servers: seq<Server>, tag: string): Option<string> {
    if Lookup(servers, tag).Some? then Lookup(servers, tag).value.resolver else None
  }

  /** n steps along the resolver graph. */
  function Chase(servers: seq<Server>, tag: string, n: nat): Option<string>
    decreases n
  {
    if n == 0 then Some(tag)
    else if ResolverOf(servers, tag).None? then None
    else Chase(servers, ResolverOf(servers, tag).value, n - 1)
  }

  ghost predicate OnCycle(servers: seq<Server>, tag: string) {
    exists n :: n > 0 && Chase(servers, tag, n) == Some(tag)
  }

  predicate FirstTwoDomains(dns: RawDns, isIP: string -> bool) {
    var d := Resolvers(dns, isIP);
    |d| >= 2 && DomainAddressed(d[0], isIP) && DomainAddressed(d[1], isIP)
  }

  lemma ResolversListed(dns: RawDns, detour: string, isIP: string -> bool)
    ensures forall s :: s in Resolvers(dns, isIP) ==> s in WithAutos(dns, detour, isIP)
    ensures NoDup(TagsOf(Resolvers(dns, isIP)))
  {
    EntriesNoDup(dns.defaultNameserver, 0, "def-", "");
    AutosNoDup(dns.nameserver, 0, 0, isIP);
  }

  /** Every edge leads to the first default server or, from the first itself, to the second; and only
      domain-addressed servers have one. */
  lemma Edge(dns: RawDns, hosts: seq<string>, detour: string, isIP: string -> bool, tag: string)
    requires ResolverOf(FinalServers(dns, hosts, detour, isIP), tag).Some?
    ensures var d := Resolvers(dns, isIP);
            var to := ResolverOf(FinalServers(dns, hosts, detour, isIP), tag).value;
            && to != tag && d != []
            && (if tag == d[0].tag then |d| >= 2 && to == d[1].tag && DomainAddressed(d[0], isIP) else to == d[0].tag)
            && (|d| >= 2 && tag == d[1].tag ==> DomainAddressed(d[1], isIP))
  {
    var final := FinalServers(dns, hosts, detour, isIP);
    var d := Resolvers(dns, isIP);
    LookupIsIn(final, tag);
    var s := FinalIsWritten(dns, hosts, detour, isIP, Lookup(final, tag).value);
    EntriesBare(dns, detour, isIP, s.value);
    ResolversListed(dns, detour, isIP);
    WithAutosDistinct(dns, detour, isIP);
    var all := WithAutos(dns, detour, isIP);
    forall r | r in d && r.tag == tag ensures r == s.value {
      LookupFinds(all, r);
      LookupFinds(all, s.value);
    }
    FirstOtherIs(tag, TagsOf(d));
    if d != [] { assert d[0] in d && TagsOf(d)[0] == d[0].tag; }
    if |d| >= 2 { assert d[1] in d && TagsOf(d)[1] == d[1].tag; }
  }

  lemma FirstOtherIs(tag: string, candidates: seq<string>)
    requires NoDup(candidates)
    ensures var r := FirstOther(tag, candidates);
            if candidates == [] then r == None
            else if candidates[0] != tag then r == Some(candidates[0])
            else r == if |candidates| >= 2 then Some(candidates[1]) else None
  {
    if |candidates| >= 2 {
      assert candidates[0] != candidates[1];
      assert FirstOther(tag, candidates[1..]) ==
             if candidates[1] != tag then Some(candidates[1]) else FirstOther(tag, candidates[1..][1..]);
    }
  }

  /** No server is looked up through itself. */
  lemma NoSelfResolver(dns: RawDns, hosts: seq<string>, detour: string, isIP: string -> bool, tag: string)
    ensures ResolverOf(FinalServers(dns, hosts, detour, isIP), tag) != Some(tag)
  {
    if ResolverOf(FinalServers(dns, hosts, detour, isIP), tag).Some? {
      Edge(dns, hosts, detour, isIP, tag);
    }
  }

  lemma {:induction false} ChaseEndsAtDefaults(dns: RawDns, hosts: seq<string>, detour: string, isIP: string -> bool,
                                               tag: string, n: nat)
    requires n > 0 && Chase(FinalServers(dns, hosts, detour, isIP), tag, n).Some?
    ensures var d := Resolvers(dns, isIP);
            var end := Chase(FinalServers(dns, hosts, detour, isIP), tag, n).value;
            d != [] && (end == d[0].tag || (|d| >= 2 && end == d[1].tag))
    decreases n
  {
    Edge(dns, hosts, detour, isIP, tag);
    if n > 1 {
      ChaseEndsAtDefaults(dns, hosts, detour, isIP, ResolverOf(FinalServers(dns, hosts, detour, isIP), tag).value,
                          n - 1);
    }
  }

  /** The resolver graph has a cycle exactly when the first two default servers are both domain-addressed. */
  lemma AcyclicExactly(dns: RawDns, hosts: seq<string>, detour: string, isIP: string -> bool)
    ensures (exists tag :: OnCycle(FinalServers(dns, hosts, detour, isIP), tag)) <==>
            dns.enable && FirstTwoDomains(dns, isIP)
  {
    var final := FinalServers(dns, hosts, detour, isIP);
    var d := Resolvers(dns, isIP);
    ResolversListed(dns, detour, isIP);
    if dns.enable && FirstTwoDomains(dns, isIP) {
      CycleOfTwo(dns, hosts, detour, isIP);
    }
    forall tag | OnCycle(final, tag) ensures dns.enable && FirstTwoDomains(dns, isIP) {
      var n :| n > 0 && Chase(final, tag, n) == Some(tag);
      CycleNeedsTwo(dns, hosts, detour, isIP, tag, n);
    }
  }

  lemma CycleOfTwo(dns: RawDns, hosts: seq<string>, detour: string, isIP: string -> bool)
    requires dns.enable && FirstTwoDomains(dns, isIP)
    ensures OnCycle(FinalServers(dns, hosts, detour, isIP), Resolvers(dns, isIP)[0].tag)
  {
    var final := FinalServers(dns, hosts, detour, isIP);
    var d := Resolvers(dns, isIP);
    var tags := TagsOf(d);
    ResolversListed(dns, detour, isIP);
    assert d[0] in d && d[1] in d && tags[0] == d[0].tag && tags[1] == d[1].tag;
    WrittenIsFinal(dns, hosts, detour, isIP, d[0]);
    WrittenIsFinal(dns, hosts, detour, isIP, d[1]);
    FirstOtherIs(d[0].tag, tags);
    FirstOtherIs(d[1].tag, tags);
    assert ResolverOf(final, d[0].tag) == Some(d[1].tag) && ResolverOf(final, d[1].tag) == Some(d[0].tag);
    assert Chase(final, d[1].tag, 1) == Chase(final, d[0].tag, 0);
    assert Chase(final, d[0].tag, 2) == Some(d[0].tag);
  }

  lemma CycleNeedsTwo(dns: RawDns, hosts: seq<string>, detour: string, isIP: string -> bool, tag: string, n: nat)
    requires n > 0 && Chase(FinalServers(dns, hosts, detour, isIP), tag, n) == Some(tag)
    ensures dns.enable && FirstTwoDomains(dns, isIP)
  {
    var final := FinalServers(dns, hosts, detour, isIP);
    var d := Resolvers(dns, isIP);
    Edge(dns, hosts, detour, isIP, tag);
    ChaseEndsAtDefaults(dns, hosts, detour, isIP, tag, n);
    var to := ResolverOf(final, tag).value;
    assert n != 1;
    assert ResolverOf(final, to).Some?;
    Edge(dns, hosts, detour, isIP, to);
    LookupIsIn(final, tag);
    var s := FinalIsWritten(dns, hosts, detour, isIP, Lookup(final, tag).value);
  }

  /** Two default servers given by name. */
  const NAMED_DEFAULTS := RawDns(true, None, [], [], [Url("a.example", "a.example", "https", None),
                                                      Url("b.example", "b.example", "https", None)], [], "", [], "",
                                                        false)

  /** They are looked up through each other. */
  lemma NamedDefaultsTurnInACircle(hosts: seq<string>, detour: string, isIP: string -> bool)
    requires !isIP("a.example") && !isIP("b.example")
    ensures OnCycle(FinalServers(NAMED_DEFAULTS, hosts, detour, isIP), "def-" + Itoa(0))
  {
    var list := NAMED_DEFAULTS.defaultNameserver;
    assert Entries(list, 2, "def-", "") == [];
    assert Entries(list, 1, "def-", "") == [Server("def-" + Itoa(1), Https, "b.example", None, None)];
    assert Defaults(NAMED_DEFAULTS)[0] == Server("def-" + Itoa(0), Https, "a.example", None, None);
    assert Defaults(NAMED_DEFAULTS)[1] == Server("def-" + Itoa(1), Https, "b.example", None, None);
    CycleOfTwo(NAMED_DEFAULTS, hosts, detour, isIP);
  }

  // ---- the default domain resolver ----

  lemma {:induction false} FirstUdpIsCandidate(candidates: seq<string>, servers: seq<Server>, otherwise: string)
    ensures FirstUdp(candidates, servers, otherwise) in candidates
            || FirstUdp(candidates, servers, otherwise) == otherwise
  {
    if candidates != [] { FirstUdpIsCandidate(candidates[1..], servers, otherwise); }
  }

  /** default_domain_resolver always names a server of the output, and never one of type local. */
  lemma DomainResolverUsable(dns: RawDns, hosts: seq<string>, detour: string, isIP: string -> bool)
    ensures var final := FinalServers(dns, hosts, detour, isIP);
            var r := DomainResolver(dns, hosts, detour, isIP);
            Lookup(final, r).Some? && Lookup(final, r).value.kind != Local
  {
    var final := FinalServers(dns, hosts, detour, isIP);
    TagsDistinct(dns, hosts, detour, isIP);
    if !dns.enable || NeedsBootstrap(dns, hosts, detour, isIP) {
      assert final[|final| - 1] == BOOTSTRAP;
      LookupFinds(final, BOOTSTRAP);
    } else {
      var d := Resolvers(dns, isIP);
      var tags := TagsOf(d);
      var r := FirstResolver(dns, detour, isIP);
      assert tags[0] in tags;
      FirstUdpIsCandidate(tags, WithAutos(dns, detour, isIP), tags[0]);
      var i :| 0 <= i < |d| && d[i].tag == r;
      ResolversListed(dns, detour, isIP);
      assert d[i] in d;
      WrittenIsFinal(dns, hosts, detour, isIP, d[i]);
      assert final == Servers(dns, hosts, detour, isIP);
    }
  }
}
