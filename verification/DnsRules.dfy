/** DNS rules: the rules a configuration gives (fake-ip filter, hosts), the geo-based rules generated around them,
    and which server the finished list sends a query to. A query is answered by the first rule that matches; what no
    rule matches goes to dns.final. */
module DnsRules {
  import opened Basics
  import opened Dns
  import opened Text
  import Routes

  /** Absent conditions are None or empty. */
  datatype DnsRule = DnsRule(clashMode: Option<string>, domains: seq<string>, suffixes: seq<string>,
                             ruleSets: seq<string>, queryTypes: seq<string>, server: string, action: Option<string>)

  function To(server: string): DnsRule { DnsRule(None, [], [], [], [], server, None) }

  // ---- what a rule list answers ----

  datatype Query = Query(name: string, qtype: string, inSet: string -> bool)

  predicate Covers(r: DnsRule, q: Query, mode: string) {
    && (r.clashMode.Some? ==> r.clashMode.value == mode)
    && (r.domains != [] ==> q.name in r.domains)
    && (r.suffixes != [] ==> exists i :: 0 <= i < |r.suffixes| && Routes.EndsWith(q.name, r.suffixes[i]))
    && (r.ruleSets != [] ==> exists i :: 0 <= i < |r.ruleSets| && q.inSet(r.ruleSets[i]))
    && (r.queryTypes != [] ==> q.qtype in r.queryTypes)
  }

  function Answer(rules: seq<DnsRule>, final: string, q: Query, mode: string): string {
    if rules == [] then final
    else if Covers(rules[0], q, mode) then rules[0].server
    else Answer(rules[1..], final, q, mode)
  }

  predicate Unconditional(r: DnsRule) {
    r.clashMode.None? && r.domains == [] && r.suffixes == [] && r.ruleSets == [] && r.queryTypes == []
  }

  // ---- the fake-ip filter ----

  predicate StarDot(f: string) { |f| >= 2 && f[0] == '*' && f[1] == '.' }

  /** The suffix a filter entry with a star stands for: "*.lan" is ".lan", any other "*x" is ".x". */
  function SuffixOf(f: string): string {
    if StarDot(f) then f[1..]
    else if f != [] && f[0] == '*' then "." + f[1..]
    else "." + f
  }

  function Suffixes(filter: seq<string>): seq<string> {
    if filter == [] then []
    else if '*' in filter[0] then [SuffixOf(filter[0])] + Suffixes(filter[1..])
    else Suffixes(filter[1..])
  }

  function Exact(filter: seq<string>): seq<string> {
    if filter == [] then []
    else if '*' in filter[0] then Exact(filter[1..])
    else [filter[0]] + Exact(filter[1..])
  }

  /** The entry, as the rules made of it read it, catches the name. */
  predicate Catches(f: string, name: string) { if '*' in f then Routes.EndsWith(name, SuffixOf(f)) else name == f }

  /** Some entry of the filter catches the name. */
  ghost predicate InFilter(name: string, filter: seq<string>) { exists f :: f in filter && Catches(f, name) }

  function FilterRules(filter: seq<string>, server: string): seq<DnsRule> {
    (if Suffixes(filter) != [] then [To(server).(suffixes := Suffixes(filter))] else [])
    + (if Exact(filter) != [] then [To(server).(domains := Exact(filter))] else [])
  }

  predicate Filtering(dns: RawDns, detour: string) {
    dns.enable && dns.enhancedMode == "fake-ip" && dns.fakeIPFilter != [] && FirstNameserver(dns, detour) != ""
  }

  predicate Whitelisting(dns: RawDns, detour: string) {
    Filtering(dns, detour) && dns.fakeIPFilterMode == "whitelist"
  }

  /** The rules translateDNS writes: the user's own exceptions. */
  function UserRules(dns: RawDns, hosts: seq<string>, detour: string): seq<DnsRule> {
    (if !Filtering(dns, detour) then []
     else FilterRules(dns.fakeIPFilter, if Whitelisting(dns, detour) then FAKEIP_TAG else FirstNameserver(dns, detour)))
    + (if dns.enable && UsesHosts(dns, hosts) then [To(HOSTS_TAG).(domains := hosts)] else [])
  }

  /** The catch-all a whitelist ends with. */
  function TerminalRules(dns: RawDns, detour: string): seq<DnsRule> {
    if Whitelisting(dns, detour) then [To(FirstNameserver(dns, detour))] else []
  }

  // ---- picking servers ----

  /** Reached without a proxy, and able to answer with real addresses. */
  predicate IsDirect(s: Server) { s.kind != FakeIP && s.kind != Hosts && s.detour.None? && s.tag != "" }

  predicate IsEncrypted(s: Server) { s.kind == Https || s.kind == Tls || s.kind == Quic || s.kind == H3 }

  /** The tag of the first direct server that is also `liked`, or of the first direct one; empty if there is none. */
  function Pick(servers: seq<Server>, liked: Server -> bool, otherwise: string): string {
    if servers == [] then otherwise
    else if IsDirect(servers[0]) && liked(servers[0]) then servers[0].tag
    else Pick(servers[1..], liked, if IsDirect(servers[0]) && otherwise == "" then servers[0].tag else otherwise)
  }

  function IsUdp(s: Server): bool { s.kind == Udp }

  function DirectTag(servers: seq<Server>): string { Pick(servers, IsUdp, "") }
  function EchTag(servers: seq<Server>): string { Pick(servers, IsEncrypted, "") }

  function FakeIPTag(servers: seq<Server>): string {
    if servers == [] then ""
    else if servers[0].kind == FakeIP && servers[0].tag != "" then servers[0].tag
    else FakeIPTag(servers[1..])
  }

  // ---- the generated rules ----

  function DomesticSets(cc: string): seq<string> {
    [Routes.SiteTag("private")] + (if cc == "cn" then [Routes.SiteTag("cn")] else []) + [Routes.IPTag(cc)]
  }

  function ModeRules(direct: string): seq<DnsRule> { [To(direct).(clashMode := Some("Direct"))] }

  /** ECH names first, then domestic names, then FakeIP for what is left of A and AAAA. */
  function AutoRules(servers: seq<Server>, echNames: seq<string>, cc: string): seq<DnsRule> {
    var direct := DirectTag(servers);
    var ech := if EchTag(servers) == "" then direct else EchTag(servers);
    (if echNames != [] then [To(ech).(domains := echNames)] else [])
    + [To(direct).(ruleSets := DomesticSets(cc))]
    + (if FakeIPTag(servers) != "" then [To(FakeIPTag(servers)).(queryTypes := ["A", "AAAA"])] else [])
  }

  /** generateDNSRules: mode switch, user rules, automatic rules, catch-all. */
  function Generated(enabled: bool, servers: seq<Server>, user: seq<DnsRule>, terminal: seq<DnsRule>,
                     echNames: seq<string>, cc: string): seq<DnsRule>
  {
    if !enabled || servers == [] then user
    else if DirectTag(servers) == "" then user + terminal
    else ModeRules(DirectTag(servers)) + user + AutoRules(servers, echNames, cc) + terminal
  }

  /** addDNSRouteAction on one rule (every rule has a server). */
  function Routed(r: DnsRule): DnsRule { if r.action.None? then r.(action := Some("route")) else r }

  function AllRouted(rules: seq<DnsRule>): (r: seq<DnsRule>)
    ensures |r| == |rules| && forall i :: 0 <= i < |r| ==> r[i] == Routed(rules[i])
  {
    seq(|rules|, i requires 0 <= i < |rules| => Routed(rules[i]))
  }

  /** The rules of the output. */
  function FinalRules(dns: RawDns, hosts: seq<string>, detour: string, isIP: string -> bool, echNames: seq<string>,
                      cc: string)
    : seq<DnsRule>
  {
    AllRouted(Generated(dns.enable, FinalServers(dns, hosts, detour, isIP), UserRules(dns, hosts, detour),
                        TerminalRules(dns, detour), echNames, cc))
  }

  // ---- facts about first match ----

  lemma {:induction false} RoutedAnswers(rules: seq<DnsRule>, final: string, q: Query, mode: string)
    ensures Answer(AllRouted(rules), final, q, mode) == Answer(rules, final, q, mode)
  {
    if rules != [] {
      RoutedAnswers(rules[1..], final, q, mode);
      assert AllRouted(rules)[1..] == AllRouted(rules[1..]);
    }
  }

  lemma {:induction false} AnswerJoin(one: seq<DnsRule>, two: seq<DnsRule>, final: string, q: Query, mode: string)
    ensures Answer(one + two, final, q, mode) == Answer(one, Answer(two, final, q, mode), q, mode)
  {
    if one == [] {
      assert one + two == two;
    } else {
      AnswerJoin(one[1..], two, final, q, mode);
      assert (one + two)[1..] == one[1..] + two;
    }
  }

  /** Some rule of the list covers the query. */
  ghost predicate Covered(rules: seq<DnsRule>, q: Query, mode: string) {
    exists r :: r in rules && Covers(r, q, mode)
  }

  lemma {:induction false} AnswerOf(rules: seq<DnsRule>, final: string, q: Query, mode: string)
    ensures if Covered(rules, q, mode) then exists r :: r in rules && Answer(rules, final, q, mode) == r.server
            else Answer(rules, final, q, mode) == final
  {
    if rules != [] {
      assert rules[0] in rules && forall r :: r in rules[1..] ==> r in rules;
      AnswerOf(rules[1..], final, q, mode);
      if !Covers(rules[0], q, mode) && Covered(rules, q, mode) {
        var r :| r in rules && Covers(r, q, mode);
        assert r in rules[1..];
      }
    }
  }

  // ---- facts about picking ----

  lemma {:induction false} PickIs(servers: seq<Server>, liked: Server -> bool, otherwise: string)
    ensures var p := Pick(servers, liked, otherwise);
            && (p == otherwise || exists s :: s in servers && IsDirect(s) && s.tag == p)
            && (p == "" ==> otherwise == "" && forall s :: s in servers ==> !IsDirect(s))
            && ((exists s :: s in servers && IsDirect(s) && liked(s)) ==>
                  exists s :: s in servers && IsDirect(s) && liked(s) && s.tag == p)
  {
    if servers != [] {
      var other := if IsDirect(servers[0]) && otherwise == "" then servers[0].tag else otherwise;
      PickIs(servers[1..], liked, other);
      assert servers[0] in servers && forall s :: s in servers[1..] ==> s in servers;
      assert forall s :: s in servers ==> s == servers[0] || s in servers[1..];
    }
  }

  lemma {:induction false} FakeIPTagIs(servers: seq<Server>)
    ensures var p := FakeIPTag(servers);
            && (p != "" ==> exists s :: s in servers && s.kind == FakeIP && s.tag == p)
            && (p == "" ==> forall s :: s in servers ==> s.kind != FakeIP || s.tag == "")
  {
    if servers != [] { FakeIPTagIs(servers[1..]); }
  }

  /** findFirstDirectDNSTag yields a direct server, a plain UDP one if there is any; findFirstECHCapableDNSTag a direct
      one, encrypted if there is any. */
  lemma PickedServersAreDirect(dns: RawDns, hosts: seq<string>, detour: string, isIP: string -> bool)
    ensures var servers := FinalServers(dns, hosts, detour, isIP);
            && (DirectTag(servers) != "" ==>
                  Lookup(servers, DirectTag(servers)).Some? && IsDirect(Lookup(servers, DirectTag(servers)).value))
            && (EchTag(servers) != "" ==>
                  Lookup(servers, EchTag(servers)).Some? && IsDirect(Lookup(servers, EchTag(servers)).value))
            && ((exists s :: s in servers && IsDirect(s) && s.kind == Udp) ==>
                  Lookup(servers, DirectTag(servers)).Some? && Lookup(servers, DirectTag(servers)).value.kind == Udp)
            && ((exists s :: s in servers && IsDirect(s) && IsEncrypted(s)) ==>
                  Lookup(servers, EchTag(servers)).Some? && IsEncrypted(Lookup(servers, EchTag(servers)).value))
  {
    var servers := FinalServers(dns, hosts, detour, isIP);
    TagsDistinct(dns, hosts, detour, isIP);
    PickIs(servers, IsUdp, "");
    PickIs(servers, IsEncrypted, "");
    forall s | s in servers ensures Lookup(servers, s.tag) == Some(s) { LookupFinds(servers, s); }
  }

  // ---- is there a direct server? ----

  /** The nameservers give no direct server: default servers are given, and every server is FakeIP or reached through
      the first group. */
  predicate NoDirect(dns: RawDns, detour: string) {
    dns.enable && Defaults(dns) != [] && forall s :: s in Listed(dns, detour) ==> s.kind == FakeIP || s.detour.Some?
  }

  lemma EntryShape(dns: RawDns, detour: string, isIP: string -> bool, s: Server)
    requires s in WithAutos(dns, detour, isIP)
    ensures s.tag != "" && s.kind != Hosts
    ensures s in Defaults(dns) ==> s.detour == None
    ensures s in Autos(dns.nameserver, 0, 0, isIP) ==> s.detour == None && s.kind != FakeIP
  {
    if s in Defaults(dns) { var k := EntriesNumbered(dns.defaultNameserver, 0, "def-", "", s); }
    if s in Nameservers(dns, detour) { var k := EntriesNumbered(dns.nameserver, 0, "ns-", detour, s); }
    if s in Fallbacks(dns, detour) { var k := EntriesNumbered(dns.fallback, 0, "fb-", detour, s); }
    if s in ProxyServers(dns) { var k := EntriesNumbered(dns.proxyServerNameserver, 0, "psn-", "", s); }
    if s in Autos(dns.nameserver, 0, 0, isIP) { var k := AutosNumbered(dns.nameserver, 0, 0, isIP, s); }
  }

  /** A parsed entry is direct in the output exactly if it is not FakeIP and needs no detour. */
  lemma WrittenDirect(dns: RawDns, hosts: seq<string>, detour: string, isIP: string -> bool, s: Server)
    requires dns.enable && s in WithAutos(dns, detour, isIP)
    ensures IsDirect(Written(s, dns, isIP)) <==> s.kind != FakeIP && s.detour.None?
  {
    EntryShape(dns, detour, isIP, s);
  }

  /** Default servers that are all FakeIP do not call for a bootstrap server. */
  lemma FakeIPDefaultsServe(dns: RawDns, hosts: seq<string>, detour: string, isIP: string -> bool)
    requires NoDirect(dns, detour)
    ensures !NeedsBootstrap(dns, hosts, detour, isIP)
  {
    var d := Defaults(dns);
    var tags := TagsOf(d);
    var r := FirstResolver(dns, detour, isIP);
    assert tags[0] in tags;
    FirstUdpIsCandidate(tags, WithAutos(dns, detour, isIP), tags[0]);
    var i :| 0 <= i < |d| && d[i].tag == r;
    assert d[i] in d && d[i] in Listed(dns, detour);
    EntryShape(dns, detour, isIP, d[i]);
    var k := WithAutosIndex(dns, detour, isIP, d[i]);
    ServersDistinct(dns, hosts, detour, isIP);
    LookupFinds(Servers(dns, hosts, detour, isIP), Written(d[i], dns, isIP));
  }

  lemma WithAutosIndex(dns: RawDns, detour: string, isIP: string -> bool, s: Server) returns (k: nat)
    requires s in WithAutos(dns, detour, isIP)
    ensures k < |WithAutos(dns, detour, isIP)| && WithAutos(dns, detour, isIP)[k] == s
    ensures forall hosts :: Servers(dns, hosts, detour, isIP)[k] == Written(s, dns, isIP)
  {
    k :| 0 <= k < |WithAutos(dns, detour, isIP)| && WithAutos(dns, detour, isIP)[k] == s;
  }

  lemma DirectByDefault(dns: RawDns, hosts: seq<string>, detour: string, isIP: string -> bool)
    requires dns.enable && !NoDirect(dns, detour)
    ensures exists f :: f in FinalServers(dns, hosts, detour, isIP) && IsDirect(f)
  {
    if Defaults(dns) != [] {
      var s :| s in Listed(dns, detour) && s.kind != FakeIP && s.detour.None?;
      WrittenDirect(dns, hosts, detour, isIP, s);
      WrittenIsFinal(dns, hosts, detour, isIP, s);
    } else if Autos(dns.nameserver, 0, 0, isIP) != [] {
      var s := Autos(dns.nameserver, 0, 0, isIP)[0];
      assert s in Autos(dns.nameserver, 0, 0, isIP) && s in WithAutos(dns, detour, isIP);
      EntryShape(dns, detour, isIP, s);
      WrittenDirect(dns, hosts, detour, isIP, s);
      WrittenIsFinal(dns, hosts, detour, isIP, s);
    } else {
      assert FirstResolver(dns, detour, isIP) == "";
      assert BOOTSTRAP in FinalServers(dns, hosts, detour, isIP) && IsDirect(BOOTSTRAP);
    }
  }

  /** findFirstDirectDNSTag finds nothing exactly then. */
  lemma NoDirectExactly(dns: RawDns, hosts: seq<string>, detour: string, isIP: string -> bool)
    ensures DirectTag(FinalServers(dns, hosts, detour, isIP)) == "" <==> NoDirect(dns, detour)
  {
    var servers := FinalServers(dns, hosts, detour, isIP);
    PickIs(servers, IsUdp, "");
    if !dns.enable {
      assert BOOTSTRAP in servers && IsDirect(BOOTSTRAP);
    } else if !NoDirect(dns, detour) {
      DirectByDefault(dns, hosts, detour, isIP);
    } else {
      FakeIPDefaultsServe(dns, hosts, detour, isIP);
      forall f | f in servers ensures !IsDirect(f) {
        var s := FinalIsWritten(dns, hosts, detour, isIP, f);
        if s.Some? {
          assert s.value in Listed(dns, detour);
          WrittenDirect(dns, hosts, detour, isIP, s.value);
        }
      }
    }
  }

  // ---- what the finished list answers ----

  lemma GeneratedAnswer(servers: seq<Server>, user: seq<DnsRule>, terminal: seq<DnsRule>, echNames: seq<string>,
                        cc: string, final: string, q: Query, mode: string)
    requires DirectTag(servers) != ""
    ensures Answer(Generated(true, servers, user, terminal, echNames, cc), final, q, mode) ==
            if mode == "Direct" then DirectTag(servers)
            else Answer(user, Answer(AutoRules(servers, echNames, cc), Answer(terminal, final, q, mode), q, mode),
                        q, mode)
  {
    var auto := AutoRules(servers, echNames, cc);
    var first := ModeRules(DirectTag(servers));
    assert Generated(true, servers, user, terminal, echNames, cc) == first + (user + (auto + terminal));
    AnswerJoin(first, user + (auto + terminal), final, q, mode);
    AnswerJoin(user, auto + terminal, final, q, mode);
    AnswerJoin(auto, terminal, final, q, mode);
    assert first[1..] == [];
  }

  /** The finished list: the mode switch decides Direct mode; otherwise the user's rules, the automatic ones and the
      catch-all answer, in that order. */
  lemma FinalAnswer(dns: RawDns, hosts: seq<string>, detour: string, isIP: string -> bool, echNames: seq<string>,
                    cc: string,
                    final: string, q: Query, mode: string)
    requires dns.enable && !NoDirect(dns, detour)
    ensures var servers := FinalServers(dns, hosts, detour, isIP);
            var user := UserRules(dns, hosts, detour);
            var terminal := TerminalRules(dns, detour);
            Answer(FinalRules(dns, hosts, detour, isIP, echNames, cc), final, q, mode) ==
            if mode == "Direct" then DirectTag(servers)
            else Answer(user, Answer(AutoRules(servers, echNames, cc), Answer(terminal, final, q, mode), q, mode),
                        q, mode)
  {
    var servers := FinalServers(dns, hosts, detour, isIP);
    var user := UserRules(dns, hosts, detour);
    var terminal := TerminalRules(dns, detour);
    NoDirectExactly(dns, hosts, detour, isIP);
    RoutedAnswers(Generated(true, servers, user, terminal, echNames, cc), final, q, mode);
    GeneratedAnswer(servers, user, terminal, echNames, cc, final, q, mode);
  }

  /** In Direct mode a query goes to a server that needs no proxy and is neither FakeIP nor hosts, if and only if there
      is one; then all of them go to the same. */
  lemma DirectModeExactly(dns: RawDns, hosts: seq<string>, detour: string, isIP: string -> bool, echNames: seq<string>,
                          cc: string, final: string, q: Query)
    requires dns.enable
    ensures var servers := FinalServers(dns, hosts, detour, isIP);
            var answer := Answer(FinalRules(dns, hosts, detour, isIP, echNames, cc), final, q, "Direct");
            && (Lookup(servers, answer).Some? && IsDirect(Lookup(servers, answer).value) <==> !NoDirect(dns, detour))
            && (!NoDirect(dns, detour) ==> answer == DirectTag(servers))
  {
    hide FinalRules;
    var servers := FinalServers(dns, hosts, detour, isIP);
    var answer := Answer(FinalRules(dns, hosts, detour, isIP, echNames, cc), final, q, "Direct");
    NoDirectExactly(dns, hosts, detour, isIP);
    PickedServersAreDirect(dns, hosts, detour, isIP);
    if !NoDirect(dns, detour) {
      FinalAnswer(dns, hosts, detour, isIP, echNames, cc, final, q, "Direct");
    } else if Lookup(servers, answer).Some? {
      LookupIsIn(servers, answer);
      PickIs(servers, IsUdp, "");
    }
  }

  /** An ECH name that no rule of the user's covers goes to a server that needs no proxy, in every mode. */
  lemma EchNamesAreDirect(dns: RawDns, hosts: seq<string>, detour: string, isIP: string -> bool, echNames: seq<string>,
                          cc: string, final: string, q: Query, mode: string)
    requires dns.enable && !NoDirect(dns, detour)
    requires q.name in echNames && !Covered(UserRules(dns, hosts, detour), q, mode)
    ensures var servers := FinalServers(dns, hosts, detour, isIP);
            var s := Lookup(servers, Answer(FinalRules(dns, hosts, detour, isIP, echNames, cc), final, q, mode));
            s.Some? && s.value.detour == None && s.value.kind != FakeIP && s.value.kind != Hosts
  {
    var servers := FinalServers(dns, hosts, detour, isIP);
    var auto := AutoRules(servers, echNames, cc);
    FinalAnswer(dns, hosts, detour, isIP, echNames, cc, final, q, mode);
    NoDirectExactly(dns, hosts, detour, isIP);
    PickedServersAreDirect(dns, hosts, detour, isIP);
    var rest := Answer(auto, Answer(TerminalRules(dns, detour), final, q, mode), q, mode);
    AnswerOf(UserRules(dns, hosts, detour), rest, q, mode);
    assert Covers(auto[0], q, mode);
  }

  // ---- what a filter entry means ----

  predicate PlusDot(f: string) { |f| >= 2 && f[0] == '+' && f[1] == '.' }

  predicate Dot(f: string) { f != "" && f[0] == '.' }

  /** The entry names a list kept elsewhere. */
  predicate ListEntry(f: string) { HasPrefix(f, "geosite:") || HasPrefix(f, "rule-set:") }

  /** The pattern begins with a label that is a star and nothing else. */
  predicate StarLabel(pattern: string) { pattern != "" && pattern[0] == '*' && (|pattern| == 1 || pattern[1] == '.') }

  /** A label that is a star stands for any one label, any other for itself. `start` says that a label begins here. */
  predicate Glob(pattern: string, s: string, start: bool)
    decreases |pattern|
  {
    if pattern == "" then s == ""
    else if start && StarLabel(pattern) then
      exists k :: 0 < k <= |s| && '.' !in s[..k] && Glob(pattern[1..], s[k..], false)
    else s != "" && s[0] == pattern[0] && Glob(pattern[1..], s[1..], pattern[0] == '.')
  }

  /** The name is one or more labels below a name of the pattern. */
  predicate Below(pattern: string, name: string) {
    exists k :: 0 < k < |name| && name[k] == '.' && Glob(pattern, name[k + 1..], true)
  }

  /** The wildcards of mihomo: "+.lan" is lan and everything below it, ".lan" everything below it, a star is one label;
      an entry for a list is what that list says. */
  predicate Lists(f: string, name: string, listed: (string, string) -> bool) {
    if ListEntry(f) then listed(f, name)
    else if PlusDot(f) then Glob(f[2..], name, true) || Below(f[2..], name)
    else if Dot(f) then Below(f[1..], name)
    else Glob(f, name, true)
  }

  /** Some label from here on is a star. */
  predicate HasStarLabel(pattern: string, start: bool) {
    pattern != "" && ((start && StarLabel(pattern)) || HasStarLabel(pattern[1..], pattern[0] == '.'))
  }

  /** A plain name, or "*." and a name without further wildcards. */
  predicate Honoured(f: string) {
    !ListEntry(f) && !PlusDot(f) && !Dot(f) && ('*' !in f || (StarDot(f) && !HasStarLabel(f[2..], true)))
  }

  lemma {:induction false} PlainGlob(pattern: string, s: string, start: bool)
    requires !HasStarLabel(pattern, start)
    ensures Glob(pattern, s, start) <==> pattern == s
    decreases |pattern|
  {
    if pattern != "" && s != "" {
      PlainGlob(pattern[1..], s[1..], pattern[0] == '.');
      assert pattern == [pattern[0]] + pattern[1..] && s == [s[0]] + s[1..];
    }
  }

  lemma {:induction false} NoStarsNoLabels(pattern: string, start: bool)
    requires '*' !in pattern
    ensures !HasStarLabel(pattern, start)
  {
    if pattern != "" {
      assert pattern[0] in pattern;
      NoStarsNoLabels(pattern[1..], pattern[0] == '.');
    }
  }

  /** The pattern with every star label filled in by a letter. */
  function Filled(pattern: string, start: bool): (r: string)
    ensures |r| == |pattern|
    ensures pattern != "" ==> r[0] == if start && StarLabel(pattern) then 'a' else pattern[0]
    ensures r == pattern <==> !HasStarLabel(pattern, start)
  {
    if pattern == "" then ""
    else
      var rest := Filled(pattern[1..], pattern[0] == '.');
      var r := [if start && StarLabel(pattern) then 'a' else pattern[0]] + rest;
      assert pattern == [pattern[0]] + pattern[1..] && r[1..] == rest;
      r
  }

  lemma {:induction false} FilledMatches(pattern: string, start: bool)
    ensures Glob(pattern, Filled(pattern, start), start)
  {
    if pattern != "" {
      var s := Filled(pattern, start);
      FilledMatches(pattern[1..], pattern[0] == '.');
      var rest := Filled(pattern[1..], pattern[0] == '.');
      assert s[1..] == rest;
      if start && StarLabel(pattern) {
        assert pattern[0] == '*' && Glob(pattern[1..], rest, false);
        assert s[..1] == ['a'] && '.' !in s[..1];
      }
    }
  }

  /** A name the entry lists and the rules made of it do not catch, if it is not honoured. */
  function Missed(f: string): string {
    if ListEntry(f) then ""
    else if PlusDot(f) then Filled(f[2..], true)
    else if Dot(f) then "a" + ("." + Filled(f[1..], true))
    else Filled(f, true)
  }

  lemma MissedIsListed(f: string)
    requires !Honoured(f)
    ensures Lists(f, Missed(f), (g, name) => true)
  {
    if PlusDot(f) {
      FilledMatches(f[2..], true);
    } else if Dot(f) {
      FilledMatches(f[1..], true);
      var name := Missed(f);
      assert name[1] == '.' && name[1 + 1..] == Filled(f[1..], true);
    } else {
      FilledMatches(f, true);
    }
  }

  lemma MissedIsNotCaught(f: string)
    requires !Honoured(f)
    ensures !Catches(f, Missed(f))
  {
    var name := Missed(f);
    if StarDot(f) && !ListEntry(f) {
      assert f == ['*', '.'] + f[2..] && StarLabel(f);
      assert HasStarLabel(f[1..][1..], f[1..][0] == '.') by { assert f[1..][1..] == f[2..]; }
      assert name[1..] == Filled(f[1..], false);
    }
  }

  lemma HonouredCatches(f: string, name: string, listed: (string, string) -> bool)
    requires Honoured(f) && Lists(f, name, listed)
    ensures Catches(f, name)
  {
    if '*' !in f {
      NoStarsNoLabels(f, true);
      PlainGlob(f, name, true);
    } else {
      assert StarLabel(f);
      var k :| 0 < k <= |name| && '.' !in name[..k] && Glob(f[1..], name[k..], false);
      assert f[1..][1..] == f[2..] && f[1..][0] == '.' && !StarLabel(f[1..]);
      PlainGlob(f[1..], name[k..], false);
      assert name[|name| - |f[1..]|..] == name[k..];
    }
  }

  /** The rules catch every name an entry lists, whatever the lists, if and only if the entry is a plain name or "*."
      and a name without further wildcards. */
  lemma HonouredExactly(f: string)
    ensures (forall listed: (string, string) -> bool, name :: Lists(f, name, listed) ==> Catches(f, name)) <==>
            Honoured(f)
  {
    if Honoured(f) {
      forall listed: (string, string) -> bool, name | Lists(f, name, listed) ensures Catches(f, name) {
        HonouredCatches(f, name, listed);
      }
    } else {
      MissedIsListed(f);
      MissedIsNotCaught(f);
    }
  }

  predicate SomeSuffix(name: string, suffixes: seq<string>) {
    exists i :: 0 <= i < |suffixes| && Routes.EndsWith(name, suffixes[i])
  }

  lemma SomeSuffixCons(name: string, suffix: string, suffixes: seq<string>)
    ensures SomeSuffix(name, [suffix] + suffixes) <==> Routes.EndsWith(name, suffix) || SomeSuffix(name, suffixes)
  {
    var all := [suffix] + suffixes;
    assert forall i :: 0 <= i < |suffixes| ==> all[i + 1] == suffixes[i];
    assert all[0] == suffix;
  }

  lemma {:induction false} FilterSplit(filter: seq<string>, name: string)
    ensures InFilter(name, filter) <==> name in Exact(filter) || SomeSuffix(name, Suffixes(filter))
  {
    if filter != [] {
      var f := filter[0];
      FilterSplit(filter[1..], name);
      assert InFilter(name, filter) <==>
             Catches(f, name) || InFilter(name, filter[1..]) by {
        assert f in filter && forall g :: g in filter <==> g == f || g in filter[1..];
      }
      if '*' in f { SomeSuffixCons(name, SuffixOf(f), Suffixes(filter[1..])); }
    }
  }

  lemma FilterCovers(filter: seq<string>, server: string, q: Query, mode: string)
    ensures Covered(FilterRules(filter, server), q, mode) <==> InFilter(q.name, filter)
  {
    FilterSplit(filter, q.name);
    var bySuffix, byName := To(server).(suffixes := Suffixes(filter)), To(server).(domains := Exact(filter));
    assert Suffixes(filter) != [] ==> bySuffix in FilterRules(filter, server);
    assert Exact(filter) != [] ==> byName in FilterRules(filter, server);
    assert forall r :: r in FilterRules(filter, server) ==>
             (r == bySuffix && Suffixes(filter) != []) || (r == byName && Exact(filter) != []);
  }

  /** A query that a rule of the user's covers, outside Direct mode or without a direct server, is answered by one. */
  lemma UserRuleAnswers(dns: RawDns, hosts: seq<string>, detour: string, isIP: string -> bool, echNames: seq<string>,
                        cc: string, final: string, q: Query, mode: string)
    requires dns.enable && Covered(UserRules(dns, hosts, detour), q, mode)
    requires mode != "Direct" || DirectTag(FinalServers(dns, hosts, detour, isIP)) == ""
    ensures exists r :: r in UserRules(dns, hosts, detour)
                        && Answer(FinalRules(dns, hosts, detour, isIP, echNames, cc), final, q, mode) == r.server
  {
    NoDirectExactly(dns, hosts, detour, isIP);
    var servers := FinalServers(dns, hosts, detour, isIP);
    var user := UserRules(dns, hosts, detour);
    var terminal := TerminalRules(dns, detour);
    if DirectTag(servers) != "" {
      FinalAnswer(dns, hosts, detour, isIP, echNames, cc, final, q, mode);
      AnswerOf(user, Answer(AutoRules(servers, echNames, cc), Answer(terminal, final, q, mode), q, mode), q, mode);
    } else {
      var rules := Generated(true, servers, user, terminal, echNames, cc);
      RoutedAnswers(rules, final, q, mode);
      assert rules == user + terminal || rules == user;
      AnswerJoin(user, terminal, final, q, mode);
      AnswerOf(user, Answer(terminal, final, q, mode), q, mode);
      AnswerOf(user, final, q, mode);
    }
  }

  /** A name that the rules of a blacklist filter catch is never answered by FakeIP, in any mode, whatever the query
      type: given a usable nameserver, the first of which is not itself a "fakeip" entry. */
  lemma CaughtNeverFakeIP(dns: RawDns, hosts: seq<string>, detour: string, isIP: string -> bool, echNames: seq<string>,
                               cc: string, final: string, q: Query, mode: string)
    requires Filtering(dns, detour) && !Whitelisting(dns, detour)
    requires InFilter(q.name, dns.fakeIPFilter) && Nameservers(dns, detour)[0].kind != FakeIP
    ensures var servers := FinalServers(dns, hosts, detour, isIP);
            var s := Lookup(servers, Answer(FinalRules(dns, hosts, detour, isIP, echNames, cc), final, q, mode));
            s.Some? && s.value.kind != FakeIP
  {
    if mode == "Direct" && DirectTag(FinalServers(dns, hosts, detour, isIP)) != "" {
      NoDirectExactly(dns, hosts, detour, isIP);
      DirectModeExactly(dns, hosts, detour, isIP, echNames, cc, final, q);
    } else {
      FilteredIsUsers(dns, hosts, detour, q, mode);
      UserRuleAnswers(dns, hosts, detour, isIP, echNames, cc, final, q, mode);
      FirstNameserverReal(dns, hosts, detour, isIP);
      if UsesHosts(dns, hosts) { HostsServer(dns, hosts, detour, isIP); }
    }
  }

  /** A name listed by an entry that is honoured, on a blacklist filter, is never answered by FakeIP. */
  lemma BlacklistedNeverFakeIP(dns: RawDns, hosts: seq<string>, detour: string, isIP: string -> bool,
                               echNames: seq<string>, cc: string, final: string, q: Query, mode: string, f: string,
                               listed: (string, string) -> bool)
    requires Filtering(dns, detour) && !Whitelisting(dns, detour) && Nameservers(dns, detour)[0].kind != FakeIP
    requires f in dns.fakeIPFilter && Honoured(f) && Lists(f, q.name, listed)
    ensures var servers := FinalServers(dns, hosts, detour, isIP);
            var s := Lookup(servers, Answer(FinalRules(dns, hosts, detour, isIP, echNames, cc), final, q, mode));
            s.Some? && s.value.kind != FakeIP
  {
    HonouredCatches(f, q.name, listed);
    CaughtNeverFakeIP(dns, hosts, detour, isIP, echNames, cc, final, q, mode);
  }

  /** With a blacklist filter, a name the filter catches is covered by the user's rules, and these send it to the first
      nameserver or to hosts. */
  lemma FilteredIsUsers(dns: RawDns, hosts: seq<string>, detour: string, q: Query, mode: string)
    requires Filtering(dns, detour) && !Whitelisting(dns, detour) && InFilter(q.name, dns.fakeIPFilter)
    ensures Covered(UserRules(dns, hosts, detour), q, mode)
    ensures forall r :: r in UserRules(dns, hosts, detour) ==>
              r.server == FirstNameserver(dns, detour) || (r.server == HOSTS_TAG && UsesHosts(dns, hosts))
  {
    FilterCovers(dns.fakeIPFilter, FirstNameserver(dns, detour), q, mode);
    var r :| r in FilterRules(dns.fakeIPFilter, FirstNameserver(dns, detour)) && Covers(r, q, mode);
    assert r in UserRules(dns, hosts, detour);
  }

  lemma FirstNameserverReal(dns: RawDns, hosts: seq<string>, detour: string, isIP: string -> bool)
    requires dns.enable && FirstNameserver(dns, detour) != ""
    ensures var s := Lookup(FinalServers(dns, hosts, detour, isIP), FirstNameserver(dns, detour));
            s.Some? && (Nameservers(dns, detour)[0].kind != FakeIP ==> s.value.kind != FakeIP)
  {
    var s := Nameservers(dns, detour)[0];
    assert s in Nameservers(dns, detour) && s in Listed(dns, detour);
    WrittenIsFinal(dns, hosts, detour, isIP, s);
  }

  lemma HostsServer(dns: RawDns, hosts: seq<string>, detour: string, isIP: string -> bool)
    requires dns.enable && UsesHosts(dns, hosts)
    ensures Lookup(FinalServers(dns, hosts, detour, isIP), HOSTS_TAG) == Some(Server(HOSTS_TAG, Hosts, "", None, None))
  {
    var all := WithAutos(dns, detour, isIP);
    var h := Server(HOSTS_TAG, Hosts, "", None, None);
    var i := |all| + |Extras(dns, hosts)| - 1;
    assert Extras(dns, hosts)[|Extras(dns, hosts)| - 1] == h;
    assert Servers(dns, hosts, detour, isIP)[i] == h;
    TagsDistinct(dns, hosts, detour, isIP);
    LookupFinds(FinalServers(dns, hosts, detour, isIP), h);
  }

  lemma UserConditional(dns: RawDns, hosts: seq<string>, detour: string)
    ensures forall r :: r in UserRules(dns, hosts, detour) ==> !Unconditional(r)
  {}

  lemma AutoConditional(servers: seq<Server>, echNames: seq<string>, cc: string)
    ensures forall r :: r in ModeRules(DirectTag(servers)) + AutoRules(servers, echNames, cc) ==> !Unconditional(r)
  {
    hide Pick, FakeIPTag;
  }

  lemma GeneratedLast(enabled: bool, servers: seq<Server>, user: seq<DnsRule>, terminal: seq<DnsRule>,
                      echNames: seq<string>, cc: string, i: nat)
    requires |terminal| <= 1 && i + 1 < |Generated(enabled, servers, user, terminal, echNames, cc)|
    requires forall r :: r in user ==> !Unconditional(r)
    ensures !Unconditional(Generated(enabled, servers, user, terminal, echNames, cc)[i])
  {
    AutoConditional(servers, echNames, cc);
    hide Unconditional, AutoRules, ModeRules, DirectTag;
    var rules := Generated(enabled, servers, user, terminal, echNames, cc);
    var mode, auto := ModeRules(DirectTag(servers)), AutoRules(servers, echNames, cc);
    var body := if !enabled || servers == [] || DirectTag(servers) == "" then user else mode + user + auto;
    assert rules == body || rules == body + terminal;
    assert rules[i] in body;
    assert rules[i] in user || rules[i] in mode + auto;
  }

  /** Only the last rule of the list can be unconditional, so no rule is shadowed by one. */
  lemma UnconditionalLast(dns: RawDns, hosts: seq<string>, detour: string, isIP: string -> bool,
                          echNames: seq<string>, cc: string, i: nat)
    requires i + 1 < |FinalRules(dns, hosts, detour, isIP, echNames, cc)|
    ensures !Unconditional(FinalRules(dns, hosts, detour, isIP, echNames, cc)[i])
  {
    UserConditional(dns, hosts, detour);
    assert |TerminalRules(dns, detour)| <= 1;
    hide Generated, UserRules, TerminalRules, FinalServers;
    GeneratedLast(dns.enable, FinalServers(dns, hosts, detour, isIP), UserRules(dns, hosts, detour),
                  TerminalRules(dns, detour), echNames, cc, i);
  }

  /** FakeIP as the default server and as the only nameserver. */
  const FAKEIP_ONLY := RawDns(true, None, [FakeIPPool], [], [FakeIPPool], [], "", [], "", false)

  /** There is no direct server then, and a query in Direct mode is answered by FakeIP. */
  lemma FakeIPInDirectMode(detour: string, isIP: string -> bool, cc: string, q: Query)
    ensures NoDirect(FAKEIP_ONLY, detour)
    ensures var servers := FinalServers(FAKEIP_ONLY, [], detour, isIP);
            var rules := FinalRules(FAKEIP_ONLY, [], detour, isIP, [], cc);
            var s := Lookup(servers, Answer(rules, FinalTag(FAKEIP_ONLY, detour), q, "Direct"));
            s.Some? && s.value.kind == FakeIP
  {
    var dns, hosts := FAKEIP_ONLY, [];
    assert Entries(dns.defaultNameserver, 1, "def-", "") == [] && Entries(dns.nameserver, 1, "ns-", detour) == [];
    assert Defaults(dns) == [Server("def-" + Itoa(0), FakeIP, "", None, None)];
    assert Nameservers(dns, detour) == [Server("ns-" + Itoa(0), FakeIP, "", None, None)];
    assert Listed(dns, detour) == Defaults(dns) + Nameservers(dns, detour);
    NoDirectExactly(dns, hosts, detour, isIP);
    assert FinalRules(dns, hosts, detour, isIP, [], cc) == [];
    var s := Nameservers(dns, detour)[0];
    assert s in Nameservers(dns, detour) && s in WithAutos(dns, detour, isIP);
    WrittenIsFinal(dns, hosts, detour, isIP, s);
  }

  // ---- rules that name rule sets nobody defined ----

  /** What is left of one DNS rule. */
  function OrphanFiltered(rule: DnsRule, defined: set<string>): seq<DnsRule> {
    var valid := Routes.Defined(rule.ruleSets, defined);
    if rule.ruleSets == [] then [rule] else if valid != [] then [rule.(ruleSets := valid)] else []
  }

  /** filterOrphanRules on DNS rules. */
  function OrphansFiltered(rules: seq<DnsRule>, defined: set<string>): seq<DnsRule> {
    if rules == [] then [] else OrphanFiltered(rules[0], defined) + OrphansFiltered(rules[1..], defined)
  }

  lemma {:induction false} OrphanFilterIdentity(rules: seq<DnsRule>, defined: set<string>)
    requires forall r, tag :: r in rules && tag in r.ruleSets ==> tag in defined
    ensures OrphansFiltered(rules, defined) == rules
  {
    if rules != [] {
      assert rules[0] in rules && forall r :: r in rules[1..] ==> r in rules;
      Routes.DefinedAll(rules[0].ruleSets, defined);
      OrphanFilterIdentity(rules[1..], defined);
    }
  }

  lemma SetsFiltered(rule: DnsRule, defined: set<string>, q: Query, mode: string)
    requires forall tag :: q.inSet(tag) ==> tag in defined
    ensures var left := OrphanFiltered(rule, defined);
            if left == [] then !Covers(rule, q, mode)
            else |left| == 1 && left[0].server == rule.server && (Covers(left[0], q, mode) <==> Covers(rule, q, mode))
                 && forall tag :: tag in left[0].ruleSets ==> tag in defined
  {
    var valid := Routes.Defined(rule.ruleSets, defined);
    Routes.DefinedAre(rule.ruleSets, defined);
    forall i | 0 <= i < |rule.ruleSets| && q.inSet(rule.ruleSets[i])
      ensures exists j :: 0 <= j < |valid| && q.inSet(valid[j])
    {
      assert rule.ruleSets[i] in valid;
    }
    forall j | 0 <= j < |valid| && q.inSet(valid[j])
      ensures exists i :: 0 <= i < |rule.ruleSets| && q.inSet(rule.ruleSets[i])
    {
      assert valid[j] in valid && valid[j] in rule.ruleSets;
    }
  }

  /** The orphan filter on DNS rules changes no answer, rule sets that are not defined matching nothing, and leaves no
      rule that names one. */
  lemma {:induction false} OrphanFilterKeepsAnswers(rules: seq<DnsRule>, defined: set<string>, final: string, q: Query,
                                                    mode: string)
    requires forall tag :: q.inSet(tag) ==> tag in defined
    ensures Answer(OrphansFiltered(rules, defined), final, q, mode) == Answer(rules, final, q, mode)
    ensures forall r, tag :: r in OrphansFiltered(rules, defined) && tag in r.ruleSets ==> tag in defined
  {
    if rules != [] {
      OrphanFilterKeepsAnswers(rules[1..], defined, final, q, mode);
      SetsFiltered(rules[0], defined, q, mode);
      hide Covers, OrphanFiltered;
      var left, rest := OrphanFiltered(rules[0], defined), OrphansFiltered(rules[1..], defined);
      if left != [] {
        assert left + rest == [left[0]] + rest && ([left[0]] + rest)[1..] == rest;
      } else {
        assert left + rest == rest;
      }
    }
  }

  /** Where a rule of the finished list comes from, and which server and rule sets it names. */
  lemma GeneratedNames(enabled: bool, servers: seq<Server>, user: seq<DnsRule>, terminal: seq<DnsRule>,
                       echNames: seq<string>, cc: string, r: DnsRule)
    requires r in Generated(enabled, servers, user, terminal, echNames, cc)
    ensures r in user || r in terminal
         || (enabled && DirectTag(servers) != ""
             && r.server in {DirectTag(servers), EchTag(servers), FakeIPTag(servers)} && r.server != ""
             && forall tag :: tag in r.ruleSets ==> tag in DomesticSets(cc))
  {
    if enabled && servers != [] && DirectTag(servers) != "" {
      assert r in ModeRules(DirectTag(servers)) || r in user || r in AutoRules(servers, echNames, cc) || r in terminal;
    }
  }

  /** Every rule names an existing server, and only the domestic rule sets. */
  lemma RulesResolve(dns: RawDns, hosts: seq<string>, detour: string, isIP: string -> bool, echNames: seq<string>,
                     cc: string, r: DnsRule)
    requires r in FinalRules(dns, hosts, detour, isIP, echNames, cc)
    ensures Lookup(FinalServers(dns, hosts, detour, isIP), r.server).Some?
    ensures forall tag :: tag in r.ruleSets ==> dns.enable && tag in DomesticSets(cc)
  {
    var servers := FinalServers(dns, hosts, detour, isIP);
    var user := UserRules(dns, hosts, detour);
    var terminal := TerminalRules(dns, detour);
    var rules := Generated(dns.enable, servers, user, terminal, echNames, cc);
    var i :| 0 <= i < |AllRouted(rules)| && AllRouted(rules)[i] == r;
    GeneratedNames(dns.enable, servers, user, terminal, echNames, cc, rules[i]);
    UserServers(dns, hosts, detour, isIP);
    hide Generated, UserRules, TerminalRules, FinalServers, DirectTag, EchTag, FakeIPTag;
    if rules[i] !in user && rules[i] !in terminal {
      TagsDistinct(dns, hosts, detour, isIP);
      PickedExists(servers, rules[i].server);
    }
  }

  lemma PickedExists(servers: seq<Server>, tag: string)
    requires NoDup(TagsOf(servers)) && tag != "" && tag in {DirectTag(servers), EchTag(servers), FakeIPTag(servers)}
    ensures Lookup(servers, tag).Some?
  {
    PickIs(servers, IsUdp, "");
    PickIs(servers, IsEncrypted, "");
    FakeIPTagIs(servers);
    var s :| s in servers && s.tag == tag;
    LookupFinds(servers, s);
  }

  lemma UserServers(dns: RawDns, hosts: seq<string>, detour: string, isIP: string -> bool)
    ensures forall r :: r in UserRules(dns, hosts, detour) || r in TerminalRules(dns, detour) ==>
              Lookup(FinalServers(dns, hosts, detour, isIP), r.server).Some? && r.ruleSets == []
  {
    if dns.enable && FirstNameserver(dns, detour) != "" { FirstNameserverReal(dns, hosts, detour, isIP); }
    if dns.enable && UsesHosts(dns, hosts) { HostsServer(dns, hosts, detour, isIP); }
    if dns.enable && dns.enhancedMode == "fake-ip" { FakeIPServer(dns, hosts, detour, isIP); }
  }

  lemma FakeIPServer(dns: RawDns, hosts: seq<string>, detour: string, isIP: string -> bool)
    requires dns.enable && dns.enhancedMode == "fake-ip"
    ensures Lookup(FinalServers(dns, hosts, detour, isIP), FAKEIP_TAG) ==
            Some(Server(FAKEIP_TAG, FakeIP, "", None, None))
  {
    var all := WithAutos(dns, detour, isIP);
    var f := Server(FAKEIP_TAG, FakeIP, "", None, None);
    assert Extras(dns, hosts)[0] == f;
    assert Servers(dns, hosts, detour, isIP)[|all|] == f;
    TagsDistinct(dns, hosts, detour, isIP);
    LookupFinds(FinalServers(dns, hosts, detour, isIP), f);
  }

  /** dns.final, when set, names an existing server. */
  lemma FinalResolves(dns: RawDns, hosts: seq<string>, detour: string, isIP: string -> bool)
    ensures FinalTag(dns, detour) != "" ==> Lookup(FinalServers(dns, hosts, detour, isIP), FinalTag(dns, detour)).Some?
  {
    if dns.enable && Fallbacks(dns, detour) != [] {
      var s := Fallbacks(dns, detour)[0];
      assert s in Fallbacks(dns, detour) && s in Listed(dns, detour);
      WrittenIsFinal(dns, hosts, detour, isIP, s);
    } else if dns.enable && FirstNameserver(dns, detour) != "" {
      FirstNameserverReal(dns, hosts, detour, isIP);
    }
  }

  /** Every detour is the one translateDNS was given. */
  lemma DetoursResolve(dns: RawDns, hosts: seq<string>, detour: string, isIP: string -> bool, s: Server)
    requires s in FinalServers(dns, hosts, detour, isIP) && s.detour.Some?
    ensures detour != "" && s.detour.value == detour
  {
    var o := FinalIsWritten(dns, hosts, detour, isIP, s);
    var e := o.value;
    if e in Defaults(dns) { var k := EntriesNumbered(dns.defaultNameserver, 0, "def-", "", e); }
    else if e in Nameservers(dns, detour) { var k := EntriesNumbered(dns.nameserver, 0, "ns-", detour, e); }
    else if e in Fallbacks(dns, detour) { var k := EntriesNumbered(dns.fallback, 0, "fb-", detour, e); }
    else if e in ProxyServers(dns) { var k := EntriesNumbered(dns.proxyServerNameserver, 0, "psn-", "", e); }
    else { var k := AutosNumbered(dns.nameserver, 0, 0, isIP, e); }
  }
}
