/** Proxy groups: filtering, translation, and the clean-up of references to groups that were skipped. */
module Groups {
  import opened Basics
  import opened Config

  const DIRECT := "DIRECT"
  const MAX_GROUP_INTERVAL := 1800
  const MIN_GROUP_IDLE_TIMEOUT := 1800
  const MAX_TOLERANCE := 65535
  const FALLBACK_TOLERANCE := 10000

  /** The members that belong to `allowed`, in order. */
  function Only(members: seq<string>, allowed: set<string>): seq<string> {
    if members == [] then []
    else if members[0] in allowed then [members[0]] + Only(members[1..], allowed)
    else Only(members[1..], allowed)
  }

  /** The members that do not belong to `banned`, in order. */
  function Without(members: seq<string>, banned: set<string>): seq<string> {
    if members == [] then []
    else if members[0] in banned then Without(members[1..], banned)
    else [members[0]] + Without(members[1..], banned)
  }

  /** sing-box wants the idle timeout above the probe interval: so it is, after clamping. */
  function Probing(g: RawGroup, tolerance: Option<int>): (p: Probe)
    ensures 1 <= p.interval <= MAX_GROUP_INTERVAL && p.interval < p.idleTimeout
  {
    var url := if g.url != "" then g.url else "http://www.gstatic.com/generate_204";
    var interval :=
      if g.interval.Some? && g.interval.value > 0 then
        if g.interval.value > MAX_GROUP_INTERVAL then MAX_GROUP_INTERVAL else g.interval.value
      else 180;
    var idle := if interval * 2 > MIN_GROUP_IDLE_TIMEOUT then interval * 2 else MIN_GROUP_IDLE_TIMEOUT;
    Probe(url, interval, idle, tolerance)
  }

  function Tolerance(g: RawGroup): Option<int> {
    if g.tolerance.Some? && g.tolerance.value > 0 then
      Some(if g.tolerance.value < MAX_TOLERANCE then g.tolerance.value else MAX_TOLERANCE)
    else None
  }

  function SelectorOf(name: string, members: seq<string>): Outbound
    requires members != []
  {
    Group(name, Selector, members, Some(members[0]), None)
  }

  /** One proxy group, before the clean-up; None when it is skipped. */
  function Translated(g: RawGroup, known: set<string>, invalid: set<string>): Option<Outbound> {
    var filtered := Only(g.proxies, known);
    var probed := Without(filtered, invalid);
    if g.name == "" || filtered == [] then None
    else if g.kind == "select" || g.kind == "load-balance" then Some(SelectorOf(g.name, filtered))
    else if g.kind == "url-test" then
      if probed == [] then None else Some(Group(g.name, URLTest, probed, None, Some(Probing(g, Tolerance(g)))))
    else if g.kind == "fallback" then
      if probed == [] then None
      else Some(Group(g.name, URLTest, probed, None, Some(Probing(g, Some(FALLBACK_TOLERANCE)))))
    else None
  }

  /** Every group that is not skipped, in order. */
  function AllTranslated(gs: seq<RawGroup>, known: set<string>, invalid: set<string>): (r: seq<Outbound>)
    ensures AllGroups(r)
  {
    if gs == [] then []
    else
      var first := Translated(gs[0], known, invalid);
      var rest := AllTranslated(gs[1..], known, invalid);
      if first.Some? then [first.value] + rest else rest
  }

  function Names(gs: seq<RawGroup>): set<string> { set i | 0 <= i < |gs| && gs[i].name != "" :: gs[i].name }

  // ---- the clean-up ----

  /** The group with only its members in `valid`; a default that is no longer valid becomes the first member. */
  function Cleaned(g: Outbound, valid: set<string>): Outbound
    requires g.Group? && Only(g.members, valid) != []
  {
    var clean := Only(g.members, valid);
    g.(members := clean, dflt := if g.dflt.Some? && g.dflt.value !in valid then Some(clean[0]) else g.dflt)
  }

  ghost predicate AllGroups(groups: seq<Outbound>) { forall g :: g in groups ==> g.Group? }

  /** One pass: the groups that keep a valid member, cleaned, in order. */
  function Kept(groups: seq<Outbound>, valid: set<string>): (r: seq<Outbound>)
    requires AllGroups(groups)
    ensures AllGroups(r) && |r| <= |groups|
  {
    if groups == [] then []
    else
      var rest := Kept(groups[1..], valid);
      if Only(groups[0].members, valid) == [] then rest else [Cleaned(groups[0], valid)] + rest
  }

  /** The names of the groups a pass drops. */
  function Dropped(groups: seq<Outbound>, valid: set<string>): set<string>
    requires AllGroups(groups)
  {
    set i | 0 <= i < |groups| && Only(groups[i].members, valid) == [] :: groups[i].tag
  }

  function ValidTags(proxies: set<string>, translated: set<string>): set<string> {
    proxies + translated + {DIRECT}
  }

  datatype CleanUp = CleanUp(groups: seq<Outbound>, translated: set<string>)

  /** Passes until one drops nothing. */
  function Fixpoint(groups: seq<Outbound>, translated: set<string>, proxies: set<string>): (r: CleanUp)
    requires AllGroups(groups)
    ensures AllGroups(r.groups)
    decreases |groups|
  {
    var valid := ValidTags(proxies, translated);
    var kept := Kept(groups, valid);
    var left := translated - Dropped(groups, valid);
    if |kept| == |groups| then CleanUp(kept, left) else Fixpoint(kept, left, proxies)
  }

  // ---- what members a filtered list keeps ----

  lemma {:induction false} OnlyMembers(members: seq<string>, allowed: set<string>)
    ensures forall m :: m in Only(members, allowed) <==> m in members && m in allowed
  {
    if members != [] { OnlyMembers(members[1..], allowed); }
  }

  lemma {:induction false} WithoutMembers(members: seq<string>, banned: set<string>)
    ensures forall m :: m in Without(members, banned) <==> m in members && m !in banned
  {
    if members != [] { WithoutMembers(members[1..], banned); }
  }

  /** Filtering twice is filtering by the smaller set. */
  lemma {:induction false} OnlyTwice(members: seq<string>, large: set<string>, small: set<string>)
    requires small <= large
    ensures Only(Only(members, large), small) == Only(members, small)
  {
    if members != [] {
      OnlyTwice(members[1..], large, small);
      if members[0] in large {
        assert Only(members, large)[0] == members[0] && Only(members, large)[1..] == Only(members[1..], large);
      }
    }
  }

  // ---- invariants of a group list ----

  /** A group as translation leaves it: it has members, and a default, if any, is the first of them. */
  predicate WellMade(g: Outbound) {
    g.Group? && g.members != [] && (g.gtype == Selector ==> g.dflt.Some?)
      && (g.dflt.Some? ==> g.dflt.value == g.members[0])
  }

  /** `t` is `g` with some members gone and the rest in order. */
  ghost predicate Thinned(t: Outbound, g: Outbound) {
    t.Group? && g.Group? && t.tag == g.tag && t.gtype == g.gtype && t.probe == g.probe
    && exists allowed: set<string> :: t.members == Only(g.members, allowed)
  }

  lemma CleanedWellMade(g: Outbound, valid: set<string>)
    requires WellMade(g) && Only(g.members, valid) != []
    ensures WellMade(Cleaned(g, valid)) && Thinned(Cleaned(g, valid), g)
    ensures forall m :: m in Cleaned(g, valid).members ==> m in valid && m in g.members
  {
    OnlyMembers(g.members, valid);
    assert Cleaned(g, valid).members == Only(g.members, valid);
  }

  // ---- what translation produces ----

  /** A url-test or fallback group lists none of the proxies that must not be probed. */
  predicate ProbesOnlyValid(g: Outbound, invalid: set<string>) {
    g.Group? && (g.gtype == URLTest ==> forall m :: m in g.members ==> m !in invalid)
  }

  lemma TranslatedFacts(g: RawGroup, known: set<string>, invalid: set<string>)
    requires Translated(g, known, invalid).Some?
    ensures var o := Translated(g, known, invalid).value;
            && WellMade(o) && o.tag == g.name && g.name != "" && ProbesOnlyValid(o, invalid)
            && forall m :: m in o.members ==> m in known && m in g.proxies
  {
    OnlyMembers(g.proxies, known);
    WithoutMembers(Only(g.proxies, known), invalid);
  }

  lemma {:induction false} AllTranslatedFacts(gs: seq<RawGroup>, known: set<string>, invalid: set<string>)
    ensures var all := AllTranslated(gs, known, invalid);
            && AllWellMade(all) && TagSet(all) <= Names(gs)
            && (forall o :: o in all ==> ProbesOnlyValid(o, invalid) && forall m :: m in o.members ==> m in known)
  {
    var all := AllTranslated(gs, known, invalid);
    if gs != [] {
      var rest := AllTranslated(gs[1..], known, invalid);
      AllTranslatedFacts(gs[1..], known, invalid);
      var first := Translated(gs[0], known, invalid);
      if first.Some? {
        TranslatedFacts(gs[0], known, invalid);
      }
      forall o | o in all ensures o.tag in Names(gs) && (o in rest || first == Some(o)) {
        if o in rest {
          assert o.tag in TagSet(rest);
          var i :| 0 <= i < |gs[1..]| && gs[1..][i].name != "" && gs[1..][i].name == o.tag;
          assert gs[i + 1].name == o.tag;
        } else {
          assert gs[0].name == o.tag;
        }
      }
    }
  }

  /** No survivor of the clean-up probes an invalid proxy. */
  lemma SurvivorsProbeOnlyValid(gs: seq<RawGroup>, known: set<string>, invalid: set<string>, translated: set<string>,
                                proxies: set<string>)
    ensures AllWellMade(AllTranslated(gs, known, invalid))
    ensures forall t :: t in Fixpoint(AllTranslated(gs, known, invalid), translated, proxies).groups ==>
            ProbesOnlyValid(t, invalid)
  {
    var all := AllTranslated(gs, known, invalid);
    AllTranslatedFacts(gs, known, invalid);
    forall t | t in Fixpoint(all, translated, proxies).groups ensures ProbesOnlyValid(t, invalid) {
      var g := FixpointThins(all, translated, proxies, t);
    }
  }

  // ---- the clean-up on any list, duplicate names included ----

  /** Each survivor of a pass is a cleaned group of the list. */
  lemma {:induction false} KeptAre(groups: seq<Outbound>, valid: set<string>, t: Outbound) returns (g: Outbound)
    requires AllGroups(groups) && t in Kept(groups, valid)
    ensures g in groups && Only(g.members, valid) != [] && t == Cleaned(g, valid)
  {
    if Only(groups[0].members, valid) != [] && t == Cleaned(groups[0], valid) {
      g := groups[0];
    } else {
      g := KeptAre(groups[1..], valid, t);
    }
  }

  lemma {:induction false} KeepsAll(groups: seq<Outbound>, valid: set<string>, g: Outbound)
    requires AllGroups(groups) && g in groups && Only(g.members, valid) != []
    ensures Cleaned(g, valid) in Kept(groups, valid)
  {
    if g != groups[0] { KeepsAll(groups[1..], valid, g); }
  }

  /** A pass that keeps as many groups as it was given dropped none. */
  lemma {:induction false} KeptAllDroppedNone(groups: seq<Outbound>, valid: set<string>)
    requires AllGroups(groups) && |Kept(groups, valid)| == |groups|
    ensures forall i :: 0 <= i < |groups| ==> Only(groups[i].members, valid) != []
    ensures Dropped(groups, valid) == {}
  {
    if groups != [] {
      KeptAllDroppedNone(groups[1..], valid);
      assert forall i :: 0 < i < |groups| ==> groups[i] == groups[1..][i - 1];
    }
  }

  ghost predicate AllWellMade(groups: seq<Outbound>) { forall g :: g in groups ==> WellMade(g) }

  lemma KeptWellMade(groups: seq<Outbound>, valid: set<string>)
    requires AllWellMade(groups)
    ensures AllWellMade(Kept(groups, valid))
    ensures TagSet(Kept(groups, valid)) <= TagSet(groups)
    ensures TagSet(groups) - Dropped(groups, valid) <= TagSet(Kept(groups, valid))
  {
    var kept := Kept(groups, valid);
    forall t | t in kept ensures WellMade(t) && t.tag in TagSet(groups) {
      var g := KeptAre(groups, valid, t);
      CleanedWellMade(g, valid);
    }
    forall tag | tag in TagSet(groups) - Dropped(groups, valid) ensures tag in TagSet(kept) {
      var i :| 0 <= i < |groups| && groups[i].tag == tag;
      KeepsAll(groups, valid, groups[i]);
    }
  }

  /** Whatever the names: the clean-up leaves no dangling member, keeps a group for every name it still counts as
      translated, and its groups are well made. */
  lemma {:induction false} FixpointSound(groups: seq<Outbound>, translated: set<string>, proxies: set<string>)
    requires AllWellMade(groups) && translated <= TagSet(groups)
    ensures var r := Fixpoint(groups, translated, proxies);
            && AllWellMade(r.groups)
            && r.translated <= translated
            && r.translated <= TagSet(r.groups) <= TagSet(groups)
            && (forall g, m :: g in r.groups && m in g.members ==> m in ValidTags(proxies, r.translated))
    decreases |groups|
  {
    var valid := ValidTags(proxies, translated);
    var kept := Kept(groups, valid);
    KeptWellMade(groups, valid);
    if |kept| == |groups| {
      KeptAllDroppedNone(groups, valid);
      assert translated - Dropped(groups, valid) == translated;
      forall g, m | g in kept && m in g.members ensures m in valid {
        var o := KeptAre(groups, valid, g);
        CleanedWellMade(o, valid);
      }
    } else {
      FixpointSound(kept, translated - Dropped(groups, valid), proxies);
    }
  }

  /** Every surviving group is one of the original groups with some members gone. */
  lemma {:induction false} FixpointThins(groups: seq<Outbound>, translated: set<string>, proxies: set<string>,
                                         t: Outbound)
    returns (g: Outbound)
    requires AllWellMade(groups) && t in Fixpoint(groups, translated, proxies).groups
    ensures g in groups && Thinned(t, g) && forall m :: m in t.members ==> m in g.members
    decreases |groups|
  {
    var valid := ValidTags(proxies, translated);
    var kept := Kept(groups, valid);
    KeptWellMade(groups, valid);
    if |kept| == |groups| {
      g := KeptAre(groups, valid, t);
      CleanedWellMade(g, valid);
    } else {
      var k := FixpointThins(kept, translated - Dropped(groups, valid), proxies, t);
      g := KeptAre(groups, valid, k);
      CleanedWellMade(g, valid);
      var allowed: set<string> :| t.members == Only(k.members, allowed);
      OnlyBoth(g.members, valid, allowed);
    }
  }

  lemma {:induction false} OnlyBoth(members: seq<string>, one: set<string>, two: set<string>)
    ensures Only(Only(members, one), two) == Only(members, one * two)
  {
    if members != [] {
      OnlyBoth(members[1..], one, two);
      if members[0] in one {
        assert Only(members, one)[0] == members[0] && Only(members, one)[1..] == Only(members[1..], one);
      }
    }
  }

  // ---- the clean-up as a greatest fixpoint ----

  /** Every group named in S has a member among the proxies, DIRECT and S. */
  ghost predicate Supported(groups: seq<Outbound>, S: set<string>, proxies: set<string>)
    requires AllGroups(groups)
  {
    forall g :: g in groups && g.tag in S ==> exists m :: m in g.members && m in ValidTags(proxies, S)
  }

  /** S is the greatest supported set of group names. */
  ghost predicate Greatest(groups: seq<Outbound>, S: set<string>, proxies: set<string>)
    requires AllGroups(groups)
  {
    && S <= TagSet(groups)
    && Supported(groups, S, proxies)
    && forall T: set<string> :: T <= TagSet(groups) && Supported(groups, T, proxies) ==> T <= S
  }

  lemma NonEmptyOnly(members: seq<string>, allowed: set<string>)
    ensures Only(members, allowed) != [] <==> exists m :: m in members && m in allowed
  {
    OnlyMembers(members, allowed);
    if Only(members, allowed) != [] { assert Only(members, allowed)[0] in Only(members, allowed); }
  }

  lemma {:induction false} KeptTagsNoDup(groups: seq<Outbound>, valid: set<string>)
    requires AllGroups(groups) && NoDup(Tags(groups))
    ensures NoDup(Tags(Kept(groups, valid)))
    ensures forall t :: t in Tags(Kept(groups, valid)) ==> t in Tags(groups)
  {
    if groups != [] {
      var rest := groups[1..];
      assert Tags(groups)[1..] == Tags(rest);
      KeptTagsNoDup(rest, valid);
      forall t | t in Tags(rest) ensures t in Tags(groups) && t != groups[0].tag {
        var i :| 0 <= i < |rest| && Tags(rest)[i] == t;
        assert Tags(groups)[i + 1] == t && Tags(groups)[0] == groups[0].tag;
      }
      if Only(groups[0].members, valid) != [] {
        var c := Cleaned(groups[0], valid);
        var kept := Kept(rest, valid);
        var tags := Tags([c] + kept);
        assert tags == [c.tag] + Tags(kept);
        assert forall j :: 0 < j < |tags| ==> tags[j] in Tags(kept);
      }
    }
  }

  lemma SameTagSameGroup(groups: seq<Outbound>, g: Outbound, h: Outbound)
    requires NoDup(Tags(groups)) && g in groups && h in groups && g.tag == h.tag
    ensures g == h
  {
    var i :| 0 <= i < |groups| && groups[i] == g;
    var j :| 0 <= j < |groups| && groups[j] == h;
    assert Tags(groups)[i] == Tags(groups)[j];
  }

  /** With distinct names, a pass drops exactly the names whose group has no valid member. */
  lemma DistinctDropped(groups: seq<Outbound>, valid: set<string>)
    requires AllWellMade(groups) && NoDup(Tags(groups))
    ensures TagSet(Kept(groups, valid)) == TagSet(groups) - Dropped(groups, valid)
  {
    KeptWellMade(groups, valid);
    forall t | t in Kept(groups, valid) ensures t.tag !in Dropped(groups, valid) {
      var g := KeptAre(groups, valid, t);
      forall i | 0 <= i < |groups| && groups[i].tag == t.tag ensures Only(groups[i].members, valid) != [] {
        SameTagSameGroup(groups, groups[i], g);
      }
    }
  }

  /** Two passes, the second with fewer valid names, are one pass with those. */
  lemma {:induction false} KeptTwice(groups: seq<Outbound>, large: set<string>, small: set<string>)
    requires AllWellMade(groups) && small <= large
    ensures Kept(Kept(groups, large), small) == Kept(groups, small)
  {
    if groups != [] {
      var g := groups[0];
      assert WellMade(g);
      KeptTwice(groups[1..], large, small);
      OnlyTwice(g.members, large, small);
      if Only(g.members, large) != [] {
        CleanedWellMade(g, large);
        var c := Cleaned(g, large);
        assert Kept(groups, large)[0] == c && Kept(groups, large)[1..] == Kept(groups[1..], large);
        if Only(g.members, small) != [] {
          CleanedWellMade(g, small);
          CleanedWellMade(c, small);
          assert Cleaned(c, small) == Cleaned(g, small);
        }
      }
    }
  }

  /** A supported set survives a pass in which all its names are valid. */
  lemma SupportSurvives(groups: seq<Outbound>, valid: set<string>, T: set<string>, proxies: set<string>)
    requires AllWellMade(groups) && T <= TagSet(groups) && Supported(groups, T, proxies)
    requires ValidTags(proxies, T) <= valid
    ensures T <= TagSet(Kept(groups, valid)) && Supported(Kept(groups, valid), T, proxies)
  {
    var kept := Kept(groups, valid);
    forall tag | tag in T ensures tag in TagSet(kept) {
      var i :| 0 <= i < |groups| && groups[i].tag == tag;
      NonEmptyOnly(groups[i].members, valid);
      KeepsAll(groups, valid, groups[i]);
    }
    forall t | t in kept && t.tag in T ensures exists m :: m in t.members && m in ValidTags(proxies, T) {
      var g := KeptAre(groups, valid, t);
      var m :| m in g.members && m in ValidTags(proxies, T);
      OnlyMembers(g.members, valid);
      assert m in t.members;
    }
  }

  /** Support found after a pass is support in the list it started from. */
  lemma SupportLifts(groups: seq<Outbound>, valid: set<string>, S: set<string>, proxies: set<string>)
    requires AllWellMade(groups) && NoDup(Tags(groups))
    requires S <= TagSet(Kept(groups, valid)) && Supported(Kept(groups, valid), S, proxies)
    ensures Supported(groups, S, proxies)
  {
    forall g | g in groups && g.tag in S ensures exists m :: m in g.members && m in ValidTags(proxies, S) {
      var kept := Kept(groups, valid);
      var k :| 0 <= k < |kept| && kept[k].tag == g.tag;
      var o := KeptAre(groups, valid, kept[k]);
      SameTagSameGroup(groups, g, o);
      var m :| m in kept[k].members && m in ValidTags(proxies, S);
      OnlyMembers(g.members, valid);
    }
  }

  /** For distinct names the clean-up computes the greatest set of groups each of which has a member among the
      proxies, DIRECT and the set itself, and what is left is exactly those groups, in order, with exactly their
      valid members. */
  lemma {:induction false} FixpointIsGreatest(groups: seq<Outbound>, proxies: set<string>)
    requires AllWellMade(groups) && NoDup(Tags(groups))
    ensures var r := Fixpoint(groups, TagSet(groups), proxies);
            && Greatest(groups, r.translated, proxies)
            && TagSet(r.groups) == r.translated
            && r.groups == Kept(groups, ValidTags(proxies, r.translated))
    decreases |groups|
  {
    var all := TagSet(groups);
    var valid := ValidTags(proxies, all);
    var kept := Kept(groups, valid);
    KeptWellMade(groups, valid);
    DistinctDropped(groups, valid);
    if |kept| == |groups| {
      KeptAllDroppedNone(groups, valid);
      assert all - Dropped(groups, valid) == all;
      forall g | g in groups ensures exists m :: m in g.members && m in valid {
        NonEmptyOnly(g.members, valid);
      }
    } else {
      KeptTagsNoDup(groups, valid);
      FixpointIsGreatest(kept, proxies);
      var r := Fixpoint(kept, TagSet(kept), proxies);
      var S := r.translated;
      SupportLifts(groups, valid, S, proxies);
      KeptTwice(groups, valid, ValidTags(proxies, S));
      forall T: set<string> | T <= all && Supported(groups, T, proxies) ensures T <= S {
        SupportSurvives(groups, valid, T, proxies);
      }
    }
  }

  /** The greatest supported set depends only on which groups there are: their order does not matter. */
  lemma GreatestIgnoresOrder(one: seq<Outbound>, two: seq<Outbound>, S: set<string>, T: set<string>,
                             proxies: set<string>)
    requires AllGroups(one) && AllGroups(two) && (forall g :: g in one <==> g in two)
    requires Greatest(one, S, proxies) && Greatest(two, T, proxies)
    ensures S == T
  {
    forall tag ensures tag in TagSet(one) <==> tag in TagSet(two) {
      if tag in TagSet(one) {
        var i :| 0 <= i < |one| && one[i].tag == tag;
        assert one[i] in two;
      }
      if tag in TagSet(two) {
        var i :| 0 <= i < |two| && two[i].tag == tag;
        assert two[i] in one;
      }
    }
    assert Supported(one, T, proxies) && Supported(two, S, proxies);
  }

  /** Permuting distinct groups changes which groups survive not at all. */
  lemma CleanUpIgnoresOrder(one: seq<Outbound>, two: seq<Outbound>, proxies: set<string>)
    requires AllWellMade(one) && NoDup(Tags(one)) && NoDup(Tags(two)) && (forall g :: g in one <==> g in two)
    ensures Fixpoint(one, TagSet(one), proxies).translated == Fixpoint(two, TagSet(two), proxies).translated
  {
    FixpointIsGreatest(one, proxies);
    FixpointIsGreatest(two, proxies);
    GreatestIgnoresOrder(one, two, Fixpoint(one, TagSet(one), proxies).translated,
                         Fixpoint(two, TagSet(two), proxies).translated, proxies);
  }

  /** What the fixpoint does not exclude: two groups that list only each other support each other, and survive. */
  lemma RingSurvives(a: string, b: string, proxies: set<string>)
    requires a != b
    ensures var ring := [SelectorOf(a, [b]), SelectorOf(b, [a])];
            Fixpoint(ring, {a, b}, proxies) == CleanUp(ring, {a, b})
  {
    var ring := [SelectorOf(a, [b]), SelectorOf(b, [a])];
    var valid := ValidTags(proxies, {a, b});
    OnlyOne(a, valid);
    OnlyOne(b, valid);
    assert ring[1..] == [ring[1]] && ring[1..][1..] == [];
    assert Cleaned(ring[0], valid) == ring[0] && Cleaned(ring[1], valid) == ring[1];
    assert Kept(ring[1..], valid) == [ring[1]];
    assert Kept(ring, valid) == ring;
    KeptAllDroppedNone(ring, valid);
  }

  lemma OnlyOne(m: string, allowed: set<string>)
    requires m in allowed
    ensures Only([m], allowed) == [m]
  {
    assert [m][1..] == [];
  }
}
